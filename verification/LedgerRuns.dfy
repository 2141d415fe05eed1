/**
 * The till's ledger over whole runs of handler calls and restarts: terminal sequences, the upload order, and
 * conservation of local stock (pos-electron/electron/main.ts).
 */
module LedgerRuns {
  import opened Decimals
  import opened Ledger
  import opened LocalDb
  import opened OfflineAccounting
  import opened Outcome
  import opened SaleValidation
  import opened Sequences

  datatype Event =
    | Call(request: Request)
    | Restart(highest: string, context: Option<Context>)

  /** A handler that throws changes nothing. */
  function Next(db: Db, e: Event): Db {
    var result := match e
      case Call(request) => Handle(db, request)
      case Restart(highest, context) => Recover(db, highest, context);
    match result
    case Ok(after) => after
    case Err(_) => db
  }

  function Run(db: Db, events: seq<Event>): Db {
    if events == [] then db else Next(Run(db, events[..|events| - 1]), events[|events| - 1])
  }

  /** Each restart reads the highest stored sequence of the database it opens. */
  ghost predicate Legal(db: Db, events: seq<Event>) {
    forall k | 0 <= k < |events| && events[k].Restart? :: IsHighestStored(Run(db, events[..k]), events[k].highest)
  }

  lemma NextKeepsInv(db: Db, e: Event)
    requires Inv(db) && (e.Restart? ==> IsHighestStored(db, e.highest))
    ensures Inv(Next(db, e)) && Keeps(db, Next(db, e)) && AboveAll(db, Next(db, e))
  {
    match e
    case Call(request) =>
      if Handle(db, request).Ok? {
        HandleKeepsInv(db, request);
      }
    case Restart(highest, context) => RecoverEstablishesInv(db, highest, context);
  }

  lemma KeepsTransitive(a: Db, b: Db, c: Db)
    requires Keeps(a, b) && Keeps(b, c) && AboveAll(a, b) && AboveAll(b, c)
    ensures Keeps(a, c) && AboveAll(a, c)
  {
    forall id | id in c.sales && id !in a.sales
      ensures Seq(c, id) != "" && SequenceValue(a.meta.sequence) < SequenceValue(Seq(c, id))
    {
      if id in b.sales {
        assert Seq(c, id) == Seq(b, id);
      }
    }
  }

  /** From any point of a run on, nothing committed is lost and every later sale is numbered above it. */
  lemma {:induction false} RunKeepsInv(db: Db, events: seq<Event>, i: nat)
    requires Inv(db) && Legal(db, events) && i <= |events|
    ensures Inv(Run(db, events[..i])) && Inv(Run(db, events))
    ensures Keeps(Run(db, events[..i]), Run(db, events)) && AboveAll(Run(db, events[..i]), Run(db, events))
    decreases |events|, i
  {
    if i == |events| {
      assert events[..i] == events;
      if events != [] {
        RunKeepsInv(db, events, 0);
      }
    } else {
      var n := |events| - 1;
      var front := events[..n];
      assert forall k | 0 <= k <= n :: front[..k] == events[..k];
      RunKeepsInv(db, front, i);
      NextKeepsInv(Run(db, front), events[n]);
      KeepsTransitive(Run(db, events[..i]), Run(db, front), Run(db, events));
    }
  }

  /**
   * Terminal sequences: of two sales committed in a run, the later has the strictly greater sequence, across
   * restarts and context realignments, and their local invoice numbers differ.
   */
  lemma SequencesIncrease(db: Db, events: seq<Event>, i: nat, earlier: Id, later: Id)
    requires Inv(db) && Legal(db, events) && i <= |events|
    requires earlier in Run(db, events[..i]).sales
    requires later in Run(db, events).sales && later !in Run(db, events[..i]).sales
    ensures var end := Run(db, events);
            && earlier in end.sales
            && SequenceValue(Seq(end, earlier)) < SequenceValue(Seq(end, later))
            && (Seq(end, earlier) != "" ==> end.sales[earlier].invoiceNumber != end.sales[later].invoiceNumber)
  {
    RunKeepsInv(db, events, i);
    var end := Run(db, events);
    assert Seq(end, earlier) == Seq(Run(db, events[..i]), earlier);
    if Seq(end, earlier) != "" {
      InvoiceNumbersDiffer(end, earlier, later);
    }
  }

  /** Sequences are digits, so the last hyphen of an invoice number tells where they begin. */
  lemma {:induction false} SuffixAfterLastHyphen(p: string, s: string, q: string, t: string)
    requires AllDigits(s) && AllDigits(t) && p + "-" + s == q + "-" + t
    ensures s == t
  {
    var x := p + "-" + s;
    assert x[|p|] == '-' == (q + "-" + t)[|q|];
    assert forall k | |p| < k < |x| :: x[k] == s[k - |p| - 1] != '-';
    assert forall k | |q| < k < |x| :: (q + "-" + t)[k] == t[k - |q| - 1] != '-';
    assert |p| == |q|;
    assert x[|p| + 1..] == s && (q + "-" + t)[|q| + 1..] == t;
  }

  lemma InvoiceNumbersDiffer(db: Db, a: Id, b: Id)
    requires Inv(db) && a in db.sales && b in db.sales && a != b && Seq(db, a) != "" && Seq(db, b) != ""
    ensures db.sales[a].invoiceNumber != db.sales[b].invoiceNumber
  {
    assert SaleKept(db, a) && SaleKept(db, b);
    var c :| db.sales[a].invoiceNumber == InvoiceNumber(c, Seq(db, a));
    var d :| db.sales[b].invoiceNumber == InvoiceNumber(d, Seq(db, b));
    if db.sales[a].invoiceNumber == db.sales[b].invoiceNumber {
      SuffixAfterLastHyphen("LOCAL-" + c, Seq(db, a), "LOCAL-" + d, Seq(db, b));
    }
  }

  // ---- Upload order --------------------------------------------------------------------------------

  predicate HasSequence(row: OutboxRow) {
    row.sequence.Some?
  }

  function OutboxSequence(row: OutboxRow): string {
    if row.sequence.Some? then row.sequence.value else ""
  }

  /** ORDER BY: rows without a sequence first, then by length and text of the sequence. */
  predicate OrderedBefore(a: OutboxRow, b: OutboxRow) {
    if HasSequence(a) != HasSequence(b) then !HasSequence(a)
    else OutboxSequence(a) == OutboxSequence(b) || SequenceLess(OutboxSequence(a), OutboxSequence(b))
  }

  /** What sync:get_outbox returns: the pending rows, each once, in that order. */
  ghost predicate IsOutboxListing(db: Db, ids: seq<Id>) {
    && (forall i, j | 0 <= i < j < |ids| :: ids[i] != ids[j])
    && (forall id :: id in ids <==> id in db.outbox && db.outbox[id].status == Pending)
    && (forall i, j | 0 <= i < j < |ids| && ids[i] in db.outbox && ids[j] in db.outbox ::
          OrderedBefore(db.outbox[ids[i]], db.outbox[ids[j]]))
  }

  /** Uploads go out in the numeric order of their terminal sequences. */
  lemma UploadOrderIsNumeric(db: Db, ids: seq<Id>, i: nat, j: nat)
    requires Inv(db) && IsOutboxListing(db, ids) && i < j < |ids|
    requires ids[i] in db.outbox && ids[j] in db.outbox
    requires OutboxSequence(db.outbox[ids[i]]) != "" && OutboxSequence(db.outbox[ids[j]]) != ""
    ensures SequenceValue(OutboxSequence(db.outbox[ids[i]])) < SequenceValue(OutboxSequence(db.outbox[ids[j]]))
  {
    var a, b := ids[i], ids[j];
    assert SaleKept(db, a) && SaleKept(db, b);
    assert Seq(db, a) == OutboxSequence(db.outbox[a]) && Seq(db, b) == OutboxSequence(db.outbox[b]);
    assert Seq(db, a) != Seq(db, b);
    SequenceOrderIsNumeric(Seq(db, a), Seq(db, b));
  }

  // ---- Stock ---------------------------------------------------------------------------------------

  /** This event committed a page of pulled data. */
  predicate Pulls(db: Db, e: Event) {
    e.Call? && e.request.DoApplyPull? && Handle(db, e.request).Ok?
  }

  /** This event committed a sale; a replayed sync_id commits nothing. */
  predicate Sells(db: Db, e: Event) {
    e.Call? && e.request.DoSell? && Handle(db, e.request).Ok? && e.request.sale.syncId !in db.sales
  }

  function SoldBy(db: Db, e: Event): seq<SaleItem>
    requires Sells(db, e)
  {
    Validate(e.request.sale, e.request.secure.device.value.branchId).value.items
  }

  /** The stock right after the last pulled page of the run, or at its start. */
  function LastPulled(db: Db, events: seq<Event>): map<Id, int> {
    if events == [] then db.stock
    else
      var front, last := events[..|events| - 1], events[|events| - 1];
      if Pulls(Run(db, front), last) then Run(db, events).stock else LastPulled(db, front)
  }

  /** The quantity of a variant sold since that page. */
  function SoldSince(db: Db, events: seq<Event>, v: Id): int {
    if events == [] then 0
    else
      var front, last := events[..|events| - 1], events[|events| - 1];
      if Pulls(Run(db, front), last) then 0
      else SoldSince(db, front, v) + if Sells(Run(db, front), last) then SumBy(QtyOf(v), SoldBy(Run(db, front), last)) else 0
  }

  lemma SaleTakesItsStock(db: Db, e: Event)
    requires Inv(db) && Sells(db, e)
    ensures Next(db, e).stock.Keys == db.stock.Keys
    ensures forall v <- db.stock :: Next(db, e).stock[v] == db.stock[v] - SumBy(QtyOf(v), SoldBy(db, e)) >= 0
  {
    TakenStockIsNonNegative(db.stock, SoldBy(db, e));
  }

  lemma ReplayChangesNothing(db: Db, raw: RawSale, secure: Secure, now: int)
    requires raw.syncId in db.sales
    ensures Next(db, Call(DoSell(raw, secure, now))) == db
  {
  }

  lemma RestartLeavesStock(db: Db, highest: string, context: Option<Context>)
    ensures Next(db, Restart(highest, context)).stock == db.stock
  {
  }

  /** No other event touches stock. */
  lemma OthersLeaveStock(db: Db, e: Event)
    requires !Sells(db, e) && !Pulls(db, e)
    ensures Next(db, e).stock == db.stock
  {
    if e.Restart? {
      RestartLeavesStock(db, e.highest, e.context);
    } else if e.request.DoSell? && e.request.sale.syncId in db.sales {
      ReplayChangesNothing(db, e.request.sale, e.request.secure, e.request.now);
    }
  }

  /**
   * Conservation: between pulls the cached stock of every variant is its last pulled value less the
   * quantities of the sales committed since, and it is never negative.
   */
  lemma {:induction false} StockIsConserved(db: Db, events: seq<Event>)
    requires Inv(db) && Legal(db, events)
    ensures var end := Run(db, events);
            && end.stock.Keys == LastPulled(db, events).Keys
            && forall v <- end.stock :: end.stock[v] == LastPulled(db, events)[v] - SoldSince(db, events, v) >= 0
  {
    RunKeepsInv(db, events, 0);
    if events != [] {
      var n := |events| - 1;
      var front := events[..n];
      assert forall k | 0 <= k <= n :: front[..k] == events[..k];
      StockIsConserved(db, front);
      RunKeepsInv(db, front, 0);
      var before, last := Run(db, front), events[n];
      if Sells(before, last) {
        SaleTakesItsStock(before, last);
      } else if !Pulls(before, last) {
        OthersLeaveStock(before, last);
      }
    }
  }

  predicate Enough(stock: map<Id, int>, item: SaleItem) {
    item.variantId in stock && stock[item.variantId] >= item.qty
  }

  lemma {:induction false} OtherVariantsUntouched(stock: map<Id, int>, items: seq<SaleItem>, v: Id)
    requires TakeStock(stock, items).Some? && forall item <- items :: item.variantId != v
    ensures v in TakeStock(stock, items).value <==> v in stock
    ensures v in stock ==> TakeStock(stock, items).value[v] == stock[v]
  {
    if items != [] {
      OtherVariantsUntouched(stock, items[..|items| - 1], v);
    }
  }

  /** On distinct variants the line-by-line updates succeed exactly when every line is covered at the start. */
  lemma {:induction false} AllLinesOrNone(stock: map<Id, int>, items: seq<SaleItem>)
    requires forall i, j | 0 <= i < j < |items| :: items[i].variantId != items[j].variantId
    ensures TakeStock(stock, items).Some? <==> forall item <- items :: Enough(stock, item)
  {
    if items != [] {
      var front, last := items[..|items| - 1], items[|items| - 1];
      assert items == front + [last];
      AllLinesOrNone(stock, front);
      if TakeStock(stock, front).Some? {
        forall item | item in front ensures item.variantId != last.variantId {
          var k :| 0 <= k < |front| && front[k] == item;
          assert items[k] == item && items[|items| - 1] == last;
        }
        OtherVariantsUntouched(stock, front, last.variantId);
        assert Enough(TakeStock(stock, front).value, last) <==> Enough(stock, last);
      }
      assert forall item :: item in items <==> item in front || item == last;
    }
  }

  lemma ShortSaleChangesNothing(db: Db, raw: RawSale, secure: Secure, now: int)
    requires secure.device.Some? && Validate(raw, secure.device.value.branchId).Ok?
    requires TakeStock(db.stock, Validate(raw, secure.device.value.branchId).value.items).None?
    ensures Next(db, Call(DoSell(raw, secure, now))) == db
  {
  }

  /** A sale with one short line is refused as a whole, and one already committed is replayed without effect. */
  lemma ShortOrReplayedSalesChangeNothing(db: Db, raw: RawSale, secure: Secure, now: int)
    requires secure.device.Some? && Validate(raw, secure.device.value.branchId).Ok?
    ensures (exists item <- Validate(raw, secure.device.value.branchId).value.items :: !Enough(db.stock, item)) ==>
              Next(db, Call(DoSell(raw, secure, now))) == db
    ensures raw.syncId in db.sales ==> Next(db, Call(DoSell(raw, secure, now))) == db
  {
    var items := Validate(raw, secure.device.value.branchId).value.items;
    AcceptedLines(raw.items, {});
    AllLinesOrNone(db.stock, items);
    if TakeStock(db.stock, items).None? {
      ShortSaleChangesNothing(db, raw, secure, now);
    }
    if raw.syncId in db.sales {
      ReplayChangesNothing(db, raw, secure, now);
    }
  }

  /** A committed page sets each of its stock entries; the last entry of a variant counts. */
  lemma {:induction false} PulledValueIsPageValue(m: map<Id, int>, ss: seq<PageStock>, i: nat)
    requires i < |ss| && ValidCatalogStock(ss[i])
    requires forall j | i < j < |ss| :: ss[j].variantId != ss[i].variantId
    ensures ss[i].variantId in PutStock(m, ss)
    ensures ss[i].quantity == Finite(PutStock(m, ss)[ss[i].variantId] as real)
  {
    if i < |ss| - 1 {
      PulledValueIsPageValue(m, ss[..|ss| - 1], i);
    }
  }
}
