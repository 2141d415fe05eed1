/**
 * Exactly-once upload over whole runs: the sync protocol refines the ledger of LedgerRuns, and every
 * interleaving of sales, uploads, lost messages, failed writes and crashes keeps sales and invoices together.
 */
module SyncSafety {
  import opened CatalogPull
  import opened Decimals
  import opened Ledger
  import opened LocalDb
  import opened Outcome
  import opened SyncProtocol
  import opened SyncUploads
  import LedgerRuns
  import OfflineAccounting

  // ---- The protocol refines the ledger -------------------------------------------------------------

  /** The handler call, or restart, a step makes. */
  function LedgerStep(bigInt: BigInt, w: World, e: Event): seq<LedgerRuns.Event> {
    var d := w.driver;
    match e
    case Local(request) => if request.DoSell? || request.DoAlign? then [LedgerRuns.Call(request)] else []
    case Crash(highest, context) => [LedgerRuns.Restart(highest, context)]
    case MarkSyncing => if d.Opening? then [LedgerRuns.Call(DoSetStatus("syncing", "", None))] else []
    case SendNext(now, saved) =>
      if d.Uploading? && d.queue != [] && saved then [LedgerRuns.Call(DoMarkSending(d.queue[0].id, now))] else []
    case RecordSent(saved) =>
      if d.Accepted? && saved then [LedgerRuns.Call(DoMarkSent(d.item.id, Some(d.document), d.warned))] else []
    case RecordFailed(message, saved) =>
      if d.Failing? && saved then [LedgerRuns.Call(DoMarkFailed(d.item.id, message, d.retryable))] else []
    case PullPage(page, hasMore) =>
      if d.Pulling? && CursorTransitionIsValid(bigInt, d.cursor, NextCursor(d.cursor, page.cursor), hasMore)
      then [LedgerRuns.Call(DoApplyPull(Sealed(page, hasMore)))] else []
    case Report(syncStatus, message) =>
      if d.Reporting? then [LedgerRuns.Call(DoSetStatus(syncStatus, message, Some(d.snapshot.validUntil)))] else []
    case Complete(message) =>
      if d.Completing? then [LedgerRuns.Call(DoSetStatus("success", message, Some(d.validUntil)))] else []
    case _ => []
  }

  function LedgerTrace(bigInt: BigInt, w: World, events: seq<Event>): seq<LedgerRuns.Event> {
    if events == [] then []
    else
      var front := events[..|events| - 1];
      LedgerTrace(bigInt, w, front) + LedgerStep(bigInt, Run(bigInt, w, front), events[|events| - 1])
  }

  lemma LedgerStepIsTheChange(bigInt: BigInt, w: World, e: Event)
    ensures |LedgerStep(bigInt, w, e)| <= 1
    ensures LedgerStep(bigInt, w, e) == [] ==> Next(bigInt, w, e).db == w.db
    ensures forall step <- LedgerStep(bigInt, w, e) ::
              && Next(bigInt, w, e).db == LedgerRuns.Next(w.db, step)
              && (Legal(w, e) && step.Restart? ==> IsHighestStored(w.db, step.highest))
  {
  }

  /** The database of a protocol run is that of its ledger run. */
  lemma {:induction false} RunRefinesLedger(bigInt: BigInt, w: World, events: seq<Event>)
    requires LegalRun(bigInt, w, events)
    ensures Run(bigInt, w, events).db == LedgerRuns.Run(w.db, LedgerTrace(bigInt, w, events))
    ensures LedgerRuns.Legal(w.db, LedgerTrace(bigInt, w, events))
  {
    if events != [] {
      var n := |events| - 1;
      var front := events[..n];
      assert forall k | 0 <= k <= n :: front[..k] == events[..k];
      PrefixIsLegal(bigInt, w, events, n);
      RunRefinesLedger(bigInt, w, front);
      var before, trace := Run(bigInt, w, front), LedgerTrace(bigInt, w, front);
      assert Legal(before, events[n]);
      LedgerStepIsTheChange(bigInt, before, events[n]);
      ExtendTrace(w.db, trace, LedgerStep(bigInt, before, events[n]));
    }
  }

  lemma ExtendTrace(db: Db, trace: seq<LedgerRuns.Event>, more: seq<LedgerRuns.Event>)
    requires LedgerRuns.Legal(db, trace) && |more| <= 1
    requires forall step <- more :: step.Restart? ==> IsHighestStored(LedgerRuns.Run(db, trace), step.highest)
    ensures LedgerRuns.Legal(db, trace + more)
    ensures LedgerRuns.Run(db, trace + more)
            == if more == [] then LedgerRuns.Run(db, trace) else LedgerRuns.Next(LedgerRuns.Run(db, trace), more[0])
  {
    var all := trace + more;
    if more == [] {
      assert all == trace;
    } else {
      assert all[..|all| - 1] == trace && all[|all| - 1] == more[0] && more[0] in more;
      forall k | 0 <= k < |all| && all[k].Restart? ensures IsHighestStored(LedgerRuns.Run(db, all[..k]), all[k].highest) {
        if k < |trace| {
          assert all[..k] == trace[..k] && all[k] == trace[k];
        } else {
          assert all[..k] == trace;
        }
      }
    }
  }

  lemma PrefixIsLegal(bigInt: BigInt, w: World, events: seq<Event>, i: nat)
    requires LegalRun(bigInt, w, events) && i <= |events|
    ensures LegalRun(bigInt, w, events[..i])
  {
    forall k | 0 <= k < i ensures Legal(Run(bigInt, w, events[..i][..k]), events[..i][k]) {
      assert events[..i][..k] == events[..k];
      assert Legal(Run(bigInt, w, events[..k]), events[k]);
    }
  }

  lemma {:induction false} TraceOfPrefix(bigInt: BigInt, w: World, events: seq<Event>, i: nat)
    requires i <= |events|
    ensures LedgerTrace(bigInt, w, events[..i]) <= LedgerTrace(bigInt, w, events)
  {
    if i < |events| {
      var front := events[..|events| - 1];
      assert front[..i] == events[..i];
      TraceOfPrefix(bigInt, w, front, i);
    } else {
      assert events[..i] == events;
    }
  }

  /** The ledger results hold from any point of a protocol run on. */
  lemma LedgerIsKept(bigInt: BigInt, w: World, events: seq<Event>, i: nat)
    requires Inv(w.db) && LegalRun(bigInt, w, events) && i <= |events|
    ensures var before, end := Run(bigInt, w, events[..i]), Run(bigInt, w, events);
            Inv(before.db) && Inv(end.db) && Keeps(before.db, end.db) && AboveAll(before.db, end.db)
  {
    RunRefinesLedger(bigInt, w, events);
    PrefixIsLegal(bigInt, w, events, i);
    RunRefinesLedger(bigInt, w, events[..i]);
    TraceOfPrefix(bigInt, w, events, i);
    var part, all := LedgerTrace(bigInt, w, events[..i]), LedgerTrace(bigInt, w, events);
    assert all[..|part|] == part;
    LedgerRuns.RunKeepsInv(w.db, all, |part|);
  }

  // ---- Runs ----------------------------------------------------------------------------------------

  lemma {:induction false} UploadsAreKept(bigInt: BigInt, w: World, events: seq<Event>, i: nat)
    requires UploadInv(w) && LegalRun(bigInt, w, events) && i <= |events|
    ensures UploadInv(Run(bigInt, w, events))
    ensures Safe(Run(bigInt, w, events[..i]), Run(bigInt, w, events))
    decreases |events|, i
  {
    if i == |events| {
      assert events[..i] == events;
      if events != [] {
        UploadsAreKept(bigInt, w, events, 0);
      }
    } else {
      var n := |events| - 1;
      var front := events[..n];
      assert front[..i] == events[..i];
      PrefixIsLegal(bigInt, w, events, n);
      UploadsAreKept(bigInt, w, front, i);
      assert Legal(Run(bigInt, w, front), events[n]);
      NextKeepsUploads(bigInt, Run(bigInt, w, front), events[n]);
      SafeTransitive(Run(bigInt, w, events[..i]), Run(bigInt, w, front), Run(bigInt, w, events));
    }
  }

  lemma SafeTransitive(a: World, b: World, c: World)
    requires Safe(a, b) && Safe(b, c)
    ensures Safe(a, c)
  {
  }

  lemma InitialIsSafe(w: World)
    requires Initial(w)
    ensures UploadInv(w)
  {
    forall id | id in w.db.outbox ensures w.db.outbox[id].payload.syncId == id {
      assert SaleKept(w.db, id);
    }
  }

  /**
   * Exactly-once upload. In every run, from any point on: no committed sale or its payload disappears; the
   * server's invoices only grow, at most one per sync_id, each for a committed sale and with its payload and
   * ledger total; every row marked sent carries the document of its invoice; and sent is never left.
   */
  lemma ExactlyOnceUpload(bigInt: BigInt, start: World, events: seq<Event>, i: nat)
    requires Initial(start) && LegalRun(bigInt, start, events) && i <= |events|
    ensures var before, end := Run(bigInt, start, events[..i]), Run(bigInt, start, events);
            && Keeps(before.db, end.db)
            && before.invoices <= end.invoices
            && (forall j, k | 0 <= j < k < |end.invoices| ::
                  end.invoices[j].command.syncId != end.invoices[k].command.syncId)
            && (forall k | 0 <= k < |end.invoices| :: Committed(end.db, end.invoices[k].command))
            && (forall id | id in end.db.outbox && IsSent(end.db.outbox[id]) ::
                  && end.db.outbox[id].document.Some?
                  && id in end.db.sales && end.db.sales[id].document == end.db.outbox[id].document
                  && Invoiced(end.invoices, id, end.db.outbox[id].document.value))
            && (forall id | id in before.db.outbox && IsSent(before.db.outbox[id]) ::
                  end.db.outbox[id] == before.db.outbox[id])
  {
    InitialIsSafe(start);
    LedgerIsKept(bigInt, start, events, i);
    UploadsAreKept(bigInt, start, events, i);
    var end := Run(bigInt, start, events);
    forall id | id in end.db.outbox && IsSent(end.db.outbox[id])
      ensures id in end.db.sales && SentOk(end, id)
    {
      assert id in end.db.sales;
    }
  }

  // ---- Once everything is sent ---------------------------------------------------------------------

  function IdsOf(invoices: seq<Invoice>): seq<Id> {
    seq(|invoices|, k requires 0 <= k < |invoices| => invoices[k].command.syncId)
  }

  lemma {:induction false} DistinctSize(ids: seq<Id>)
    requires forall i, j | 0 <= i < j < |ids| :: ids[i] != ids[j]
    ensures |IdSet(ids)| == |ids|
  {
    if ids == [] {
      assert IdSet(ids) == {};
    } else {
      var n := |ids| - 1;
      DistinctSize(ids[..n]);
      assert ids == ids[..n] + [ids[n]];
      assert IdSet(ids) == IdSet(ids[..n]) + {ids[n]};
    }
  }

  /** When every row is sent, sales and invoices match one to one, and no other invoice exists. */
  lemma AllSentMeansOneInvoiceEach(w: World)
    requires UploadInv(w) && forall id <- w.db.outbox :: IsSent(w.db.outbox[id])
    ensures |w.invoices| == |w.db.sales|
    ensures forall id <- w.db.sales :: exists k :: 0 <= k < |w.invoices| && w.invoices[k].command == Body(ItemOf(w.db, id))
  {
    var ids := IdsOf(w.invoices);
    DistinctSize(ids);
    forall id | id in w.db.sales
      ensures id in ids
      ensures exists k :: 0 <= k < |w.invoices| && w.invoices[k].command == Body(ItemOf(w.db, id))
    {
      assert SentOk(w, id);
      var k :| 0 <= k < |w.invoices| && w.invoices[k].command.syncId == id;
      assert ids[k] == id && Committed(w.db, w.invoices[k].command);
    }
    forall id | id in ids ensures id in w.db.sales {
      var k :| 0 <= k < |ids| && ids[k] == id;
      assert Committed(w.db, w.invoices[k].command);
    }
    assert IdSet(ids) == w.db.sales.Keys;
  }

  // ---- Order and restart ---------------------------------------------------------------------------

  /** Within one sync, sales go out in the numeric order of their terminal sequences. */
  lemma UploadsInSequenceOrder(bigInt: BigInt, start: World, events: seq<Event>, i: nat, j: nat)
    requires Initial(start) && LegalRun(bigInt, start, events)
    requires Run(bigInt, start, events).driver.Uploading?
    requires i < j < |Run(bigInt, start, events).driver.queue|
    requires LedgerRuns.OutboxSequence(Run(bigInt, start, events).driver.queue[i].row) != ""
    requires LedgerRuns.OutboxSequence(Run(bigInt, start, events).driver.queue[j].row) != ""
    ensures var queue := Run(bigInt, start, events).driver.queue;
            SequenceValue(LedgerRuns.OutboxSequence(queue[i].row)) < SequenceValue(LedgerRuns.OutboxSequence(queue[j].row))
  {
    InitialIsSafe(start);
    LedgerIsKept(bigInt, start, events, 0);
    UploadsAreKept(bigInt, start, events, 0);
    var w := Run(bigInt, start, events);
    var a, b := w.driver.queue[i], w.driver.queue[j];
    assert StillListed(w.db, a) && StillListed(w.db, b);
    assert SaleKept(w.db, a.id) && SaleKept(w.db, b.id);
    assert Seq(w.db, a.id) == LedgerRuns.OutboxSequence(a.row) && Seq(w.db, b.id) == LedgerRuns.OutboxSequence(b.row);
    SequenceOrderIsNumeric(Seq(w.db, a.id), Seq(w.db, b.id));
  }

  /** After a crash every row is listed again unless it was sent or quarantined. */
  lemma CrashStrandsNothing(bigInt: BigInt, w: World, highest: string, context: Option<OfflineAccounting.Context>, ids: seq<Id>)
    requires Inv(w.db) && Legal(w, Crash(highest, context))
    requires LedgerRuns.IsOutboxListing(Next(bigInt, w, Crash(highest, context)).db, ids)
    ensures forall id | id in w.db.outbox ::
              id in ids || IsSent(w.db.outbox[id]) || w.db.outbox[id].status == Quarantined
  {
    RecoverEstablishesInv(w.db, highest, context);
    ResetIsListed(w.db, Next(bigInt, w, Crash(highest, context)).db, ids);
  }

  lemma ResetIsListed(db: Db, after: Db, ids: seq<Id>)
    requires after.outbox == ResetSending(db.outbox) && LedgerRuns.IsOutboxListing(after, ids)
    ensures forall id | id in db.outbox :: id in ids || IsSent(db.outbox[id]) || db.outbox[id].status == Quarantined
  {
    forall id | id in db.outbox ensures id in ids || IsSent(db.outbox[id]) || db.outbox[id].status == Quarantined {
      assert id in ids <==> id in after.outbox && after.outbox[id].status == Pending;
    }
  }

  // ---- Progress ------------------------------------------------------------------------------------

  /** A round trip without faults for each row; the server may already hold the invoice. */
  function CleanUpload(queue: seq<Item>, now: int): seq<Event> {
    if queue == [] then []
    else [SendNext(now, true), Deliver(Body(queue[0]), queue[0].id), Reply(false), RecordSent(true)] + CleanUpload(queue[1..], now)
  }

  lemma {:induction false} RunAppend(bigInt: BigInt, w: World, first: seq<Event>, then': seq<Event>)
    ensures Run(bigInt, w, first + then') == Run(bigInt, Run(bigInt, w, first), then')
  {
    var all := first + then';
    if then' == [] {
      assert all == first;
    } else {
      var n := |then'| - 1;
      assert all[..|all| - 1] == first + then'[..n] && all[|all| - 1] == then'[n];
      RunAppend(bigInt, w, first, then'[..n]);
    }
  }

  lemma RunOfFour(bigInt: BigInt, w: World, a: Event, b: Event, c: Event, d: Event)
    ensures Run(bigInt, w, [a, b, c, d])
            == Next(bigInt, Next(bigInt, Next(bigInt, Next(bigInt, w, a), b), c), d)
  {
    var all := [a, b, c, d];
    assert all[..3] == [a, b, c] && [a, b, c][..2] == [a, b] && [a, b][..1] == [a] && [a][..0] == [];
    assert Run(bigInt, w, [a]) == Next(bigInt, w, a);
    assert Run(bigInt, w, [a, b]) == Next(bigInt, Next(bigInt, w, a), b);
    assert Run(bigInt, w, [a, b, c]) == Next(bigInt, Next(bigInt, Next(bigInt, w, a), b), c);
  }

  lemma SentStep(bigInt: BigInt, w: World, now: int)
    requires UploadInv(w) && w.driver.Uploading? && w.driver.queue != []
    ensures var item, after := w.driver.queue[0], Next(bigInt, w, SendNext(now, true));
            && UploadInv(after) && SentStays(w.db, after.db)
            && after.driver == Awaiting(w.driver.snapshot, item, w.driver.queue[1..])
            && Body(item) in after.requests && Body(item).syncId == item.id
  {
    NextKeepsUploads(bigInt, w, SendNext(now, true));
    assert StillListed(w.db, w.driver.queue[0]);
  }

  lemma DeliveredStep(bigInt: BigInt, w: World, command: SaleCommand)
    requires UploadInv(w) && command in w.requests
    ensures var after := Next(bigInt, w, Deliver(command, command.syncId));
            && UploadInv(after) && after.db == w.db && after.driver == w.driver
            && InvoiceOf(after.invoices, command.syncId).Some?
  {
    NextKeepsUploads(bigInt, w, Deliver(command, command.syncId));
    HoldsInvoice(bigInt, w, command);
  }

  lemma HoldsInvoice(bigInt: BigInt, w: World, command: SaleCommand)
    requires command in w.requests
    ensures InvoiceOf(Next(bigInt, w, Deliver(command, command.syncId)).invoices, command.syncId).Some?
  {
    var after := Next(bigInt, w, Deliver(command, command.syncId));
    InvoiceOfFinds(after.invoices, command.syncId);
    if after != w {
      assert after.invoices[|w.invoices|].command.syncId == command.syncId;
    }
  }

  lemma RepliedStep(bigInt: BigInt, w: World)
    requires UploadInv(w) && w.driver.Awaiting? && InvoiceOf(w.invoices, w.driver.item.id).Some?
    ensures var after := Next(bigInt, w, Reply(false));
            && UploadInv(after) && after.db == w.db
            && after.driver.Accepted? && after.driver.snapshot == w.driver.snapshot
            && after.driver.item == w.driver.item && after.driver.queue == w.driver.queue
  {
    NextKeepsUploads(bigInt, w, Reply(false));
  }

  lemma RecordedStep(bigInt: BigInt, w: World)
    requires UploadInv(w) && w.driver.Accepted?
    ensures var after := Next(bigInt, w, RecordSent(true));
            && UploadInv(after) && SentStays(w.db, after.db)
            && after.driver == Uploading(w.driver.snapshot, w.driver.queue)
            && w.driver.item.id in after.db.outbox && IsSent(after.db.outbox[w.driver.item.id])
  {
    NextKeepsUploads(bigInt, w, RecordSent(true));
  }

  /** One row's round trip. */
  lemma OneRoundTrip(bigInt: BigInt, w: World, now: int)
    requires UploadInv(w) && w.driver.Uploading? && w.driver.queue != []
    ensures var item := w.driver.queue[0];
            var after := Run(bigInt, w, [SendNext(now, true), Deliver(Body(item), item.id), Reply(false), RecordSent(true)]);
            && UploadInv(after)
            && SentStays(w.db, after.db)
            && after.driver == Uploading(w.driver.snapshot, w.driver.queue[1..])
            && item.id in after.db.outbox && IsSent(after.db.outbox[item.id])
  {
    var item := w.driver.queue[0];
    RunOfFour(bigInt, w, SendNext(now, true), Deliver(Body(item), item.id), Reply(false), RecordSent(true));
    SentStep(bigInt, w, now);
    var sending := Next(bigInt, w, SendNext(now, true));
    DeliveredStep(bigInt, sending, Body(item));
    var delivered := Next(bigInt, sending, Deliver(Body(item), item.id));
    RepliedStep(bigInt, delivered);
    RecordedStep(bigInt, Next(bigInt, delivered, Reply(false)));
  }

  /** From any reachable upload loop, a run without faults sends every queued row. */
  lemma {:induction false} CleanUploadSendsAll(bigInt: BigInt, w: World, now: int)
    requires UploadInv(w) && w.driver.Uploading?
    ensures var end := Run(bigInt, w, CleanUpload(w.driver.queue, now));
            && end.driver == Uploading(w.driver.snapshot, [])
            && SentStays(w.db, end.db)
            && forall k | 0 <= k < |w.driver.queue| ::
                 w.driver.queue[k].id in end.db.outbox && IsSent(end.db.outbox[w.driver.queue[k].id])
    decreases |w.driver.queue|
  {
    var queue := w.driver.queue;
    if queue != [] {
      var item := queue[0];
      var four := [SendNext(now, true), Deliver(Body(item), item.id), Reply(false), RecordSent(true)];
      OneRoundTrip(bigInt, w, now);
      var after := Run(bigInt, w, four);
      CleanUploadSendsAll(bigInt, after, now);
      RunAppend(bigInt, w, four, CleanUpload(queue[1..], now));
      HeadAndTailSent(queue, after.db, Run(bigInt, after, CleanUpload(queue[1..], now)).db);
    }
  }

  lemma HeadAndTailSent(queue: seq<Item>, middle: Db, end: Db)
    requires queue != [] && SentStays(middle, end)
    requires queue[0].id in middle.outbox && IsSent(middle.outbox[queue[0].id])
    requires forall k | 0 <= k < |queue[1..]| ::
               queue[1..][k].id in end.outbox && IsSent(end.outbox[queue[1..][k].id])
    ensures forall k | 0 <= k < |queue| :: queue[k].id in end.outbox && IsSent(end.outbox[queue[k].id])
  {
    forall k | 0 <= k < |queue| ensures queue[k].id in end.outbox && IsSent(end.outbox[queue[k].id]) {
      if k > 0 {
        assert queue[1..][k - 1] == queue[k];
      }
    }
  }
}
