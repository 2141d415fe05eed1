/**
 * What every handler call and every restart keeps of the till's ledger (pos-electron/electron/main.ts):
 * committed sales and their payloads, terminal sequences, and local stock.
 */
module Ledger {
  import opened Decimals
  import opened LocalDb
  import opened OfflineAccounting
  import opened Outcome
  import opened SaleValidation
  import opened Sequences

  // ---- Invariant -----------------------------------------------------------------------------------

  function Seq(db: Db, id: Id): string
    requires id in db.sales
  {
    RowSequence(db.sales[id])
  }

  /** A committed sale: one ledger row and one outbox row, under one id and one sequence. */
  ghost predicate SaleKept(db: Db, id: Id)
    requires id in db.sales && id in db.outbox
  {
    && WellFormed(Seq(db, id))
    && db.outbox[id].payload.syncId == id
    && db.outbox[id].sequence == db.sales[id].sequence
    && (Seq(db, id) != "" ==> exists code :: db.sales[id].invoiceNumber == InvoiceNumber(code, Seq(db, id)))
  }

  ghost predicate Consistent(db: Db) {
    && WellFormed(db.meta.sequence)
    && db.outbox.Keys == db.sales.Keys
    && (forall id <- db.sales :: SaleKept(db, id))
    && (forall a, b | a in db.sales && b in db.sales && Seq(db, a) == Seq(db, b) != "" :: a == b)
    && (forall v <- db.stock :: db.stock[v] >= 0)
  }

  /** The counter is at least every sequence handed out. */
  ghost predicate Ahead(db: Db) {
    forall id <- db.sales :: SequenceValue(Seq(db, id)) <= SequenceValue(db.meta.sequence)
  }

  ghost predicate Inv(db: Db) {
    Consistent(db) && Ahead(db)
  }

  // ---- Restart -------------------------------------------------------------------------------------

  ghost function SequencesOf(db: Db): set<string> {
    set id | id in db.sales && Seq(db, id) != "" :: Seq(db, id)
  }

  lemma {:induction false} GreatestExists(xs: set<string>) returns (top: string)
    requires xs != {} && forall x <- xs :: Canonical(x)
    ensures top in xs && forall x <- xs :: SequenceValue(x) <= SequenceValue(top)
  {
    var x :| x in xs;
    if xs == {x} {
      top := x;
    } else {
      var rest := GreatestExists(xs - {x});
      top := if Value(rest) < Value(x) then x else rest;
    }
  }

  /** The query of highestStoredSaleSequence always has an answer, and its value is the numeric maximum. */
  lemma HighestStoredExists(db: Db) returns (top: string)
    requires Consistent(db)
    ensures IsHighestStored(db, top)
  {
    if forall id <- db.sales :: Seq(db, id) == "" {
      top := "0";
    } else {
      var id :| id in db.sales && Seq(db, id) != "";
      assert Seq(db, id) in SequencesOf(db);
      forall x | x in SequencesOf(db) ensures Canonical(x) {
        var i :| i in db.sales && Seq(db, i) != "" && Seq(db, i) == x;
        assert SaleKept(db, i);
      }
      top := GreatestExists(SequencesOf(db));
      forall i | i in db.sales ensures Seq(db, i) == "" || !SequenceLess(top, Seq(db, i)) {
        if Seq(db, i) != "" {
          assert Seq(db, i) in SequencesOf(db);
          SequenceOrderIsNumeric(top, Seq(db, i));
        }
      }
    }
  }

  lemma HighestStoredIsMaximum(db: Db, top: string)
    requires Consistent(db) && IsHighestStored(db, top)
    ensures Canonical(top)
    ensures forall id <- db.sales :: SequenceValue(Seq(db, id)) <= Value(top)
    ensures top == "0" || exists id <- db.sales :: Seq(db, id) == top
  {
    forall id | id in db.sales ensures SequenceValue(Seq(db, id)) <= Value(top) {
      assert SaleKept(db, id);
      if Seq(db, id) != "" {
        var t :| t in db.sales && Seq(db, t) == top;
        assert SaleKept(db, t);
        SequenceOrderIsNumeric(top, Seq(db, id));
      }
    }
    if exists id <- db.sales :: Seq(db, id) != "" {
      var t :| t in db.sales && Seq(db, t) == top;
      assert SaleKept(db, t);
    }
  }

  lemma MaxOfTwo(a: string, b: string)
    requires WellFormed(a) && WellFormed(b)
    ensures MaxSequence([Some(a), Some(b)]).Ok?
    ensures var m := MaxSequence([Some(a), Some(b)]).value;
            Value(m) == if SequenceValue(a) >= SequenceValue(b) then SequenceValue(a) else SequenceValue(b)
  {
    var values := [Some(a), Some(b)];
    MaximumFromMeaning(values, 0);
    assert values[0] == Some(a) && values[1] == Some(b);
    var n := MaximumFrom(values, 0).value;
    PrintIsCanonical(n);
  }

  // ---- What a step keeps ---------------------------------------------------------------------------

  /** No committed sale, payload, number or sequence is lost or rewritten. */
  ghost predicate Keeps(before: Db, after: Db) {
    && (forall id <- before.sales ::
          && id in after.sales
          && after.sales[id].invoiceNumber == before.sales[id].invoiceNumber
          && after.sales[id].totalCents == before.sales[id].totalCents
          && after.sales[id].sequence == before.sales[id].sequence)
    && (forall id <- before.outbox ::
          && id in after.outbox
          && after.outbox[id].payload == before.outbox[id].payload
          && after.outbox[id].sequence == before.outbox[id].sequence)
    && SequenceValue(before.meta.sequence) <= SequenceValue(after.meta.sequence)
  }

  /** New sales have sequences above all sales there were. */
  ghost predicate AboveAll(before: Db, after: Db) {
    forall id <- after.sales | id !in before.sales ::
      && Seq(after, id) != ""
      && SequenceValue(before.meta.sequence) < SequenceValue(Seq(after, id))
  }

  /** Only statuses, documents and errors of rows already there, and the rest of the database, change. */
  ghost predicate SameSales(before: Db, after: Db) {
    && after.sales.Keys == before.sales.Keys
    && after.outbox.Keys == before.outbox.Keys
    && Keeps(before, after)
  }

  lemma SameSalesKeepInv(before: Db, after: Db)
    requires Inv(before) && SameSales(before, after) && WellFormed(after.meta.sequence)
    requires forall v <- after.stock :: after.stock[v] >= 0
    ensures Inv(after) && AboveAll(before, after)
  {
    forall id | id in after.sales
      ensures SaleKept(after, id) && SequenceValue(Seq(after, id)) <= SequenceValue(after.meta.sequence)
    {
      assert SaleKept(before, id) && Seq(after, id) == Seq(before, id);
    }
    forall a, b | a in after.sales && b in after.sales && Seq(after, a) == Seq(after, b) != "" ensures a == b {
      assert Seq(before, a) == Seq(after, a) && Seq(before, b) == Seq(after, b);
    }
  }

  lemma {:induction false} TakenStockIsNonNegative(stock: map<Id, int>, items: seq<SaleItem>)
    requires forall v <- stock :: stock[v] >= 0
    requires TakeStock(stock, items).Some?
    ensures TakeStock(stock, items).value.Keys == stock.Keys
    ensures forall v <- stock :: 0 <= TakeStock(stock, items).value[v] == stock[v] - SumBy(QtyOf(v), items)
  {
    if items != [] {
      TakenStockIsNonNegative(stock, items[..|items| - 1]);
    }
  }

  lemma CommittedRowsAreKept(db: Db, command: SaleCommand, code: string, after: Db)
    requires Inv(db) && Canonical(command.sequence)
    requires SequenceValue(db.meta.sequence) < Value(command.sequence)
    requires CommitSale(db, command, InvoiceNumber(code, command.sequence)) == Ok(after)
    ensures forall id <- after.sales :: id in after.outbox && SaleKept(after, id)
    ensures Ahead(after)
  {
    forall id | id in after.sales
      ensures id in after.outbox && SaleKept(after, id)
      ensures SequenceValue(Seq(after, id)) <= SequenceValue(after.meta.sequence)
    {
      if id != command.syncId {
        assert SaleKept(db, id) && after.sales[id] == db.sales[id] && after.outbox[id] == db.outbox[id];
      }
    }
  }

  lemma CommittedSequenceIsNew(db: Db, command: SaleCommand, code: string, after: Db)
    requires Inv(db) && Canonical(command.sequence)
    requires SequenceValue(db.meta.sequence) < Value(command.sequence)
    requires CommitSale(db, command, InvoiceNumber(code, command.sequence)) == Ok(after)
    ensures forall a, b | a in after.sales && b in after.sales && Seq(after, a) == Seq(after, b) != "" :: a == b
  {
    var new' := command.syncId;
    forall a | a in after.sales && a != new' ensures Seq(after, a) == Seq(db, a) != command.sequence {
      assert SequenceValue(Seq(db, a)) <= SequenceValue(db.meta.sequence);
    }
    forall a, b | a in after.sales && b in after.sales && Seq(after, a) == Seq(after, b) != "" ensures a == b {
      if a != new' && b != new' {
        assert Seq(db, a) == Seq(db, b);
      }
    }
  }

  lemma CommitOnlyAdds(db: Db, command: SaleCommand, code: string, after: Db)
    requires Ahead(db) && Canonical(command.sequence)
    requires SequenceValue(db.meta.sequence) < Value(command.sequence)
    requires CommitSale(db, command, InvoiceNumber(code, command.sequence)) == Ok(after)
    ensures Keeps(db, after) && AboveAll(db, after)
  {
  }

  /** The committed row has the next sequence, above the counter and hence above every earlier sale. */
  lemma CommitKeepsInv(db: Db, command: SaleCommand, code: string, after: Db)
    requires Inv(db) && Canonical(command.sequence)
    requires SequenceValue(db.meta.sequence) < Value(command.sequence)
    requires CommitSale(db, command, InvoiceNumber(code, command.sequence)) == Ok(after)
    ensures Inv(after) && Keeps(db, after) && AboveAll(db, after)
  {
    CommitOnlyAdds(db, command, code, after);
    TakenStockIsNonNegative(db.stock, command.items);
    CommittedRowsAreKept(db, command, code, after);
    CommittedSequenceIsNew(db, command, code, after);
  }

  lemma SellKeepsInv(db: Db, raw: RawSale, secure: Secure, now: int)
    requires Inv(db) && Sell(db, raw, secure, now).Ok?
    ensures var after := Sell(db, raw, secure, now).value;
            Inv(after) && Keeps(db, after) && AboveAll(db, after)
  {
    if Sell(db, raw, secure, now).value != db {
      var sale := Validate(raw, secure.device.value.branchId).value;
      var values := [Some(db.meta.sequence), Some(secure.context.value.serverLastSaleSequence)];
      var sequence := NextSequence(values).value;
      assert values[0] in values;
      CommitKeepsInv(db, CommandOf(sale, secure, sequence, now), secure.device.value.terminalCode,
                     Sell(db, raw, secure, now).value);
    }
  }

  lemma {:induction false} PutStockNonNegative(m: map<Id, int>, ss: seq<PageStock>)
    requires forall v <- m :: m[v] >= 0
    requires forall s <- ss :: ValidCatalogStock(s)
    ensures forall v <- PutStock(m, ss) :: PutStock(m, ss)[v] >= 0
  {
    if ss != [] {
      PutStockNonNegative(m, ss[..|ss| - 1]);
      assert ValidCatalogStock(ss[|ss| - 1]);
    }
  }

  lemma PullKeepsInv(db: Db, page: Page)
    requires Inv(db) && ApplyPull(db, page).Ok?
    ensures var after := ApplyPull(db, page).value;
            Inv(after) && SameSales(db, after) && after.sales == db.sales && after.outbox == db.outbox
  {
    PutStockNonNegative((if page.resetStock then map[] else db.stock) - IdSet(page.deleted), page.stock);
    SameSalesKeepInv(db, ApplyPull(db, page).value);
  }

  lemma AlignKeeps(db: Db, context: Option<Context>)
    requires Consistent(db)
    ensures Align(db, context).Ok?
    ensures var after := Align(db, context).value;
            && after == db.(meta := db.meta.(sequence := after.meta.sequence))
            && WellFormed(after.meta.sequence)
            && SequenceValue(db.meta.sequence) <= SequenceValue(after.meta.sequence)
  {
    if context.Some? && ValidContext(context.value) {
      MaxOfTwo(db.meta.sequence, context.value.serverLastSaleSequence);
    }
  }

  /** Rewriting the status columns of a row, and its ledger row's document, keeps the invariant. */
  lemma RowUpdateKeepsInv(db: Db, after: Db, id: Id)
    requires Inv(db) && id in db.outbox
    requires after == db.(outbox := after.outbox, sales := after.sales)
    requires id in after.outbox && id in after.sales
    requires after.outbox == db.outbox[id := after.outbox[id]] || after.outbox == db.outbox
    requires after.outbox[id].payload == db.outbox[id].payload && after.outbox[id].sequence == db.outbox[id].sequence
    requires after.sales == db.sales[id := db.sales[id].(document := after.sales[id].document)] || after.sales == db.sales
    ensures Inv(after) && SameSales(db, after) && AboveAll(db, after)
  {
    SameSalesKeepInv(db, after);
  }

  lemma MarksKeepInv(db: Db, r: Request)
    requires Inv(db) && Handle(db, r).Ok?
    requires r.DoMarkSending? || r.DoMarkSent? || r.DoMarkFailed? || r.DoSetStatus?
    ensures var after := Handle(db, r).value;
            Inv(after) && SameSales(db, after) && AboveAll(db, after)
  {
    var after := Handle(db, r).value;
    if !r.DoSetStatus? && r.id in db.outbox {
      RowUpdateKeepsInv(db, after, r.id);
    } else {
      SameSalesKeepInv(db, after);
    }
  }

  lemma AlignKeepsInv(db: Db, context: Option<Context>)
    requires Inv(db)
    ensures Align(db, context).Ok?
    ensures Inv(Align(db, context).value) && SameSales(db, Align(db, context).value)
  {
    AlignKeeps(db, context);
    SameSalesKeepInv(db, Align(db, context).value);
  }

  /** Every successful handler call keeps the invariant and every committed sale. */
  lemma HandleKeepsInv(db: Db, r: Request)
    requires Inv(db) && Handle(db, r).Ok?
    ensures var after := Handle(db, r).value;
            Inv(after) && Keeps(db, after) && AboveAll(db, after)
  {
    match r
    case DoSell(sale, secure, now) => SellKeepsInv(db, sale, secure, now);
    case DoApplyPull(page) => PullKeepsInv(db, page);
    case DoAlign(context) => AlignKeepsInv(db, context);
    case _ => MarksKeepInv(db, r);
  }

  lemma SameRowsStayConsistent(db: Db, after: Db)
    requires Consistent(db) && SameSales(db, after) && after.stock == db.stock && WellFormed(after.meta.sequence)
    ensures Consistent(after)
  {
    forall id | id in after.sales ensures SaleKept(after, id) {
      assert SaleKept(db, id) && Seq(after, id) == Seq(db, id);
    }
    forall a, b | a in after.sales && b in after.sales && Seq(after, a) == Seq(after, b) != "" ensures a == b {
      assert Seq(db, a) == Seq(db, b);
    }
  }

  /** The counter catches up with the rows. */
  lemma CaughtUp(db: Db, highest: string, s: string)
    requires Consistent(db) && IsHighestStored(db, highest)
    requires MaxSequence([Some(db.meta.sequence), Some(highest)]) == Ok(s)
    ensures var after := db.(outbox := ResetSending(db.outbox), meta := db.meta.(sequence := s));
            Inv(after) && SameSales(db, after)
  {
    HighestStoredIsMaximum(db, highest);
    MaxOfTwo(db.meta.sequence, highest);
    CounterRaised(db, s);
  }

  lemma CounterRaised(db: Db, s: string)
    requires Consistent(db) && WellFormed(s) && SequenceValue(db.meta.sequence) <= SequenceValue(s)
    requires forall id <- db.sales :: SequenceValue(Seq(db, id)) <= SequenceValue(s)
    ensures var after := db.(outbox := ResetSending(db.outbox), meta := db.meta.(sequence := s));
            Inv(after) && SameSales(db, after)
  {
    var after := db.(outbox := ResetSending(db.outbox), meta := db.meta.(sequence := s));
    SameRowsStayConsistent(db, after);
    forall id | id in after.sales ensures SequenceValue(Seq(after, id)) <= SequenceValue(after.meta.sequence) {
      assert Seq(after, id) == Seq(db, id);
    }
  }

  /**
   * Opening a database, even one whose counter fell behind its rows: initDb always succeeds, no row is left
   * sending, the counter catches up with every stored and acknowledged sequence, and nothing is lost.
   */
  lemma RecoverEstablishesInv(db: Db, highest: string, context: Option<Context>)
    requires Consistent(db) && IsHighestStored(db, highest)
    ensures Recover(db, highest, context).Ok?
    ensures var after := Recover(db, highest, context).value;
            && Inv(after) && SameSales(db, after)
            && after.outbox == ResetSending(db.outbox)
            && after.sales == db.sales && after.stock == db.stock && after.products == db.products
  {
    HighestStoredIsMaximum(db, highest);
    MaxOfTwo(db.meta.sequence, highest);
    var s := MaxSequence([Some(db.meta.sequence), Some(highest)]).value;
    CaughtUp(db, highest, s);
    var caught := db.(outbox := ResetSending(db.outbox), meta := db.meta.(sequence := s));
    AlignKeeps(caught, context);
    AlignKeepsInv(caught, context);
    var aligned := Align(caught, context).value;
    RefreshKeepsInv(aligned);
    ResetKeepsSales(db, RequireRefresh(aligned));
  }

  lemma ResetKeepsSales(db: Db, after: Db)
    requires after.sales == db.sales && after.outbox == ResetSending(db.outbox)
    requires SequenceValue(db.meta.sequence) <= SequenceValue(after.meta.sequence)
    ensures SameSales(db, after)
  {
  }

  lemma OtherMetaKeepsInv(db: Db, meta: Meta)
    requires Inv(db) && meta.sequence == db.meta.sequence
    ensures Inv(db.(meta := meta))
  {
    var after := db.(meta := meta);
    forall id | id in after.sales ensures SaleKept(after, id) {
      assert SaleKept(db, id);
    }
    forall a, b | a in after.sales && b in after.sales && Seq(after, a) == Seq(after, b) != "" ensures a == b {
      assert Seq(db, a) == Seq(db, b);
    }
    forall id | id in after.sales ensures SequenceValue(Seq(after, id)) <= SequenceValue(meta.sequence) {
      assert Seq(db, id) == Seq(after, id);
    }
  }

  lemma RefreshKeepsInv(db: Db)
    requires Inv(db)
    ensures Inv(RequireRefresh(db))
    ensures RequireRefresh(db) == db.(meta := RequireRefresh(db).meta)
    ensures RequireRefresh(db).meta.sequence == db.meta.sequence
  {
    OtherMetaKeepsInv(db, RequireRefresh(db).meta);
  }
}
