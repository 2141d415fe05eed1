/** Exactly-once upload: what every step of the sync protocol keeps of commands, invoices and sent rows. */
module SyncUploads {
  import opened CatalogPull
  import opened LocalDb
  import opened Outcome
  import opened SyncPolicy
  import opened SyncProtocol
  import LedgerRuns
  import OfflineAccounting
  import SaleValidation

  // ---- Invariant -----------------------------------------------------------------------------------

  /** Ledger and outbox rows come in pairs, under the sync_id of the stored command. */
  ghost predicate Paired(db: Db) {
    && db.outbox.Keys == db.sales.Keys
    && forall id <- db.outbox :: db.outbox[id].payload.syncId == id
  }

  /** The command is that of a committed sale, with the ledger's total. */
  ghost predicate Committed(db: Db, command: SaleCommand) {
    && command.syncId in db.outbox
    && command == Body(ItemOf(db, command.syncId))
  }

  /** The listed row is still exactly as listed. */
  ghost predicate StillListed(db: Db, item: Item) {
    item.id in db.outbox && item == ItemOf(db, item.id) && item.row.status == Pending
  }

  /** The rows left to upload are untouched, distinct, and in upload order. */
  ghost predicate QueueOk(db: Db, queue: seq<Item>) {
    && (forall k | 0 <= k < |queue| :: StillListed(db, queue[k]))
    && (forall i, j | 0 <= i < j < |queue| ::
          queue[i].id != queue[j].id && LedgerRuns.OrderedBefore(queue[i].row, queue[j].row))
  }

  ghost predicate NotQueued(queue: seq<Item>, id: Id) {
    forall k | 0 <= k < |queue| :: queue[k].id != id
  }

  ghost predicate Invoiced(invoices: seq<Invoice>, id: Id, document: Id) {
    exists k :: 0 <= k < |invoices| && invoices[k].command.syncId == id && invoices[k].document == document
  }

  /** Only committed commands travel, and the server holds at most one invoice per sync_id, all requested. */
  ghost predicate ServerOk(w: World) {
    && (forall c <- w.requests :: Committed(w.db, c))
    && (forall k | 0 <= k < |w.invoices| :: w.invoices[k].command in w.requests)
    && (forall i, j | 0 <= i < j < |w.invoices| :: w.invoices[i].command.syncId != w.invoices[j].command.syncId)
  }

  /** A row marked sent carries the document of its invoice, and so does its ledger row. */
  ghost predicate SentOk(w: World, id: Id)
    requires id in w.db.outbox && id in w.db.sales
  {
    && w.db.outbox[id].document.Some?
    && w.db.sales[id].document == w.db.outbox[id].document
    && Invoiced(w.invoices, id, w.db.outbox[id].document.value)
  }

  ghost predicate SentRowsOk(w: World) {
    forall id | id in w.db.outbox && id in w.db.sales && IsSent(w.db.outbox[id]) :: SentOk(w, id)
  }

  /** The row in hand is being sent, or failed before it was sent; the server has accepted it where the driver says so. */
  ghost predicate DriverOk(w: World) {
    var d := w.driver;
    && ((d.Uploading? || d.Awaiting? || d.Accepted? || d.Failing?) ==> QueueOk(w.db, d.queue))
    && ((d.Awaiting? || d.Accepted? || d.Failing?) ==> d.item.id in w.db.outbox && NotQueued(d.queue, d.item.id))
    && ((d.Awaiting? || d.Accepted?) ==> w.db.outbox[d.item.id].status == Sending)
    && (d.Accepted? ==> Invoiced(w.invoices, d.item.id, d.document))
    && (d.Failing? ==> !IsSent(w.db.outbox[d.item.id]))
  }

  ghost predicate UploadInv(w: World) {
    Paired(w.db) && ServerOk(w) && SentRowsOk(w) && DriverOk(w)
  }

  // ---- What a step keeps ---------------------------------------------------------------------------

  /** A row marked sent is never touched again. */
  ghost predicate SentStays(before: Db, after: Db) {
    forall id | id in before.outbox && IsSent(before.outbox[id]) ::
      id in after.outbox && after.outbox[id] == before.outbox[id]
  }

  /** Nothing sent is reopened, and the server's book only grows. */
  ghost predicate Safe(before: World, after: World) {
    && SentStays(before.db, after.db)
    && before.requests <= after.requests
    && before.invoices <= after.invoices
  }

  /** Rows keep what uploads read of them: command and total. */
  ghost predicate SameCommands(before: Db, after: Db) {
    && (forall id <- before.outbox :: id in after.outbox && after.outbox[id].payload == before.outbox[id].payload)
    && (forall id <- before.sales :: id in after.sales && after.sales[id].totalCents == before.sales[id].totalCents)
  }

  lemma ServerOkCarries(w: World, after: World)
    requires Paired(w.db) && ServerOk(w) && SameCommands(w.db, after.db)
    requires after.requests == w.requests && after.invoices == w.invoices
    ensures ServerOk(after)
  {
    forall c | c in after.requests ensures Committed(after.db, c) {
      assert Committed(w.db, c);
    }
  }

  /** A queue does not notice what happens to other rows. */
  lemma QueueCarries(db: Db, after: Db, queue: seq<Item>)
    requires Paired(db) && QueueOk(db, queue) && SameCommands(db, after)
    requires forall k | 0 <= k < |queue| :: queue[k].id in after.outbox && after.outbox[queue[k].id] == db.outbox[queue[k].id]
    ensures QueueOk(after, queue)
  {
    forall k | 0 <= k < |queue| ensures StillListed(after, queue[k]) {
      assert StillListed(db, queue[k]);
    }
  }

  /** Sent rows and the ledger rows beside them are untouched; no other row becomes sent. */
  lemma SentRowsCarry(w: World, after: World)
    requires Paired(w.db) && SentRowsOk(w) && w.invoices <= after.invoices
    requires forall id | id in after.db.outbox && IsSent(after.db.outbox[id]) ::
               && id in w.db.outbox && after.db.outbox[id] == w.db.outbox[id]
               && id in w.db.sales && id in after.db.sales && after.db.sales[id].document == w.db.sales[id].document
    ensures SentRowsOk(after)
  {
    forall id | id in after.db.outbox && id in after.db.sales && IsSent(after.db.outbox[id]) ensures SentOk(after, id) {
      assert SentOk(w, id);
      InvoicedGrows(w.invoices, after.invoices, id, w.db.outbox[id].document.value);
    }
  }

  lemma InvoicedGrows(invoices: seq<Invoice>, more: seq<Invoice>, id: Id, document: Id)
    requires Invoiced(invoices, id, document) && invoices <= more
    ensures Invoiced(more, id, document)
  {
    var k :| 0 <= k < |invoices| && invoices[k].command.syncId == id && invoices[k].document == document;
    assert more[k] == invoices[k];
  }

  // ---- The cashier and a crash ---------------------------------------------------------------------

  /** Rows there were stay; rows that come are pending, in pairs. */
  ghost predicate PendingPairsAdded(db: Db, after: Db) {
    && Paired(after)
    && (forall id <- db.outbox :: id in after.outbox && after.outbox[id] == db.outbox[id])
    && (forall id <- db.sales :: id in after.sales && after.sales[id] == db.sales[id])
    && (forall id | id in after.outbox && id !in db.outbox :: after.outbox[id].status == Pending)
  }

  lemma CommitAddsAPendingPair(db: Db, command: SaleCommand, invoiceNumber: string)
    requires Paired(db) && CommitSale(db, command, invoiceNumber).Ok?
    ensures PendingPairsAdded(db, CommitSale(db, command, invoiceNumber).value)
  {
  }

  lemma SellCommitsOrLeaves(db: Db, sale: SaleValidation.RawSale, secure: Secure, now: int)
    requires Sell(db, sale, secure, now).Ok?
    ensures Sell(db, sale, secure, now).value == db
            || exists command, number :: Sell(db, sale, secure, now) == CommitSale(db, command, number)
  {
  }

  lemma LocalAddsPendingPairs(db: Db, request: Request)
    requires Paired(db) && (request.DoSell? || request.DoAlign?)
    ensures PendingPairsAdded(db, LedgerRuns.Next(db, LedgerRuns.Call(request)))
  {
    if request.DoSell? && Sell(db, request.sale, request.secure, request.now).Ok? {
      var after := Sell(db, request.sale, request.secure, request.now);
      SellCommitsOrLeaves(db, request.sale, request.secure, request.now);
      if after.value != db {
        var command, number :| after == CommitSale(db, command, number);
        CommitAddsAPendingPair(db, command, number);
      }
    }
  }

  lemma RowsAdded(w: World, after: World)
    requires UploadInv(w) && after == w.(db := after.db) && PendingPairsAdded(w.db, after.db)
    ensures UploadInv(after) && Safe(w, after)
  {
    ServerOkCarries(w, after);
    SentRowsCarry(w, after);
    var d := w.driver;
    if d.Uploading? || d.Awaiting? || d.Accepted? || d.Failing? {
      assert forall k | 0 <= k < |d.queue| :: StillListed(w.db, d.queue[k]);
      QueueCarries(w.db, after.db, d.queue);
    }
  }

  lemma AlignKeepsRows(db: Db, context: Option<OfflineAccounting.Context>)
    requires Align(db, context).Ok?
    ensures Align(db, context).value.outbox == db.outbox && Align(db, context).value.sales == db.sales
  {
  }

  /** Recovery touches rows only to take them out of sending. */
  lemma RecoverResetsSending(db: Db, highest: string, context: Option<OfflineAccounting.Context>)
    ensures var after := LedgerRuns.Next(db, LedgerRuns.Restart(highest, context));
            && after.sales == db.sales
            && (after.outbox == db.outbox || after.outbox == ResetSending(db.outbox))
  {
    var s := OfflineAccounting.MaxSequence([Some(db.meta.sequence), Some(highest)]);
    if s.Ok? {
      var counted := db.(outbox := ResetSending(db.outbox), meta := db.meta.(sequence := s.value));
      if Align(counted, context).Ok? {
        AlignKeepsRows(counted, context);
      }
    }
  }

  lemma Restarted(w: World, after: World)
    requires UploadInv(w) && after == w.(db := after.db, driver := Idle)
    requires after.db.sales == w.db.sales
    requires after.db.outbox == w.db.outbox || after.db.outbox == ResetSending(w.db.outbox)
    ensures UploadInv(after) && Safe(w, after)
  {
    ServerOkCarries(w, after);
    SentRowsCarry(w, after);
  }

  // ---- The server ----------------------------------------------------------------------------------

  lemma {:induction false} InvoiceOfFinds(invoices: seq<Invoice>, id: Id)
    ensures InvoiceOf(invoices, id).Some? <==> exists k :: 0 <= k < |invoices| && invoices[k].command.syncId == id
    ensures InvoiceOf(invoices, id).Some? ==> Invoiced(invoices, id, InvoiceOf(invoices, id).value.document)
  {
    if invoices != [] {
      var n := |invoices| - 1;
      InvoiceOfFinds(invoices[..n], id);
      if InvoiceOf(invoices[..n], id).Some? {
        var k :| 0 <= k < n && invoices[..n][k].command.syncId == id
                 && invoices[..n][k].document == InvoiceOf(invoices[..n], id).value.document;
        assert invoices[k].command.syncId == id;
      } else if invoices[n].command.syncId != id {
        forall k | 0 <= k < |invoices| ensures invoices[k].command.syncId != id {
          assert k < n ==> invoices[..n][k] == invoices[k];
        }
      }
    }
  }

  lemma InvoiceAdded(w: World, after: World, command: SaleCommand, document: Id)
    requires UploadInv(w) && command in w.requests && InvoiceOf(w.invoices, command.syncId).None?
    requires after == w.(invoices := w.invoices + [Invoice(command, document)])
    ensures UploadInv(after) && Safe(w, after)
  {
    InvoiceOfFinds(w.invoices, command.syncId);
    SentRowsCarry(w, after);
    if w.driver.Accepted? {
      InvoicedGrows(w.invoices, after.invoices, w.driver.item.id, w.driver.document);
    }
  }

  // ---- The driver ----------------------------------------------------------------------------------

  /** The due rows of a prefix of the listing. */
  lemma {:induction false} DueItemsAreListed(db: Db, ids: seq<Id>, prefix: seq<Id>, force: bool, nowMs: int)
    requires LedgerRuns.IsOutboxListing(db, ids) && prefix <= ids
    ensures QueueOk(db, DueItems(db, prefix, force, nowMs))
    ensures forall k | 0 <= k < |DueItems(db, prefix, force, nowMs)| :: DueItems(db, prefix, force, nowMs)[k].id in prefix
  {
    if prefix != [] {
      var n := |prefix| - 1;
      DueItemsAreListed(db, ids, prefix[..n], force, nowMs);
      var front := DueItems(db, prefix[..n], force, nowMs);
      assert prefix[n] == ids[n] && ids[n] in ids;
      forall k | 0 <= k < |front|
        ensures front[k].id in prefix
        ensures front[k].id != prefix[n] && LedgerRuns.OrderedBefore(front[k].row, db.outbox[prefix[n]])
      {
        var m :| 0 <= m < n && prefix[..n][m] == front[k].id;
        assert prefix[m] == ids[m] == front[k].id && StillListed(db, front[k]);
      }
    }
  }

  lemma QueueTail(db: Db, queue: seq<Item>)
    requires QueueOk(db, queue) && queue != []
    ensures QueueOk(db, queue[1..]) && NotQueued(queue[1..], queue[0].id)
  {
    var rest := queue[1..];
    assert forall k | 0 <= k < |rest| :: rest[k] == queue[k + 1];
  }

  /** One row moves on; it was not sent before. */
  ghost predicate RowMoved(db: Db, after: Db, id: Id) {
    && id in db.outbox && id in after.outbox && !IsSent(db.outbox[id])
    && after.outbox == db.outbox[id := after.outbox[id]]
    && after.outbox[id].payload == db.outbox[id].payload
    && after.sales.Keys == db.sales.Keys
    && (forall x | x in db.sales :: after.sales[x].totalCents == db.sales[x].totalCents)
    && (forall x | x in db.sales && x != id :: after.sales[x] == db.sales[x])
  }

  lemma MovedRowKeepsQueue(db: Db, after: Db, id: Id, queue: seq<Item>)
    requires Paired(db) && RowMoved(db, after, id) && QueueOk(db, queue) && NotQueued(queue, id)
    ensures Paired(after) && QueueOk(after, queue)
  {
    forall k | 0 <= k < |queue| ensures queue[k].id in after.outbox && after.outbox[queue[k].id] == db.outbox[queue[k].id] {
      assert StillListed(db, queue[k]);
    }
    QueueCarries(db, after, queue);
  }

  lemma MovedRowKeepsServer(w: World, after: World, id: Id)
    requires Paired(w.db) && ServerOk(w) && RowMoved(w.db, after.db, id)
    requires after.requests == w.requests && after.invoices == w.invoices
    ensures ServerOk(after)
  {
    ServerOkCarries(w, after);
  }

  lemma MovedRowKeepsSent(w: World, after: World, id: Id)
    requires Paired(w.db) && SentRowsOk(w) && RowMoved(w.db, after.db, id) && after.invoices == w.invoices
    requires IsSent(after.db.outbox[id]) ==> id in after.db.sales && SentOk(after, id)
    ensures SentRowsOk(after) && SentStays(w.db, after.db)
  {
    forall x | x in after.db.outbox && x in after.db.sales && IsSent(after.db.outbox[x]) ensures SentOk(after, x) {
      if x != id {
        assert SentOk(w, x);
      }
    }
  }

  lemma MovedRowKeeps(w: World, after: World, id: Id, queue: seq<Item>)
    requires UploadInv(w) && RowMoved(w.db, after.db, id)
    requires after.invoices == w.invoices
    requires QueueOk(w.db, queue) && NotQueued(queue, id)
    requires IsSent(after.db.outbox[id]) ==> id in after.db.sales && SentOk(after, id)
    ensures Paired(after.db) && QueueOk(after.db, queue) && SentRowsOk(after) && SentStays(w.db, after.db)
    ensures ServerOk(after.(requests := w.requests))
  {
    MovedRowKeepsQueue(w.db, after.db, id, queue);
    MovedRowKeepsServer(w, after.(requests := w.requests), id);
    MovedRowKeepsSent(w, after, id);
  }

  lemma SavedSendKeeps(w: World, item: Item, rest: seq<Item>, now: int)
    requires UploadInv(w) && w.driver.Uploading? && StillListed(w.db, item) && QueueOk(w.db, rest) && NotQueued(rest, item.id)
    ensures var after := AfterMarkSending(w, item, rest, now, true);
            UploadInv(after) && Safe(w, after)
  {
    var after := AfterMarkSending(w, item, rest, now, true);
    MovedRowKeeps(w, after, item.id, rest);
    assert Committed(w.db, Body(item));
    assert Committed(after.db, Body(item));
  }

  lemma SendNextKeeps(w: World, now: int, saved: bool)
    requires UploadInv(w) && w.driver.Uploading? && w.driver.queue != []
    ensures var after := AfterMarkSending(w, w.driver.queue[0], w.driver.queue[1..], now, saved);
            UploadInv(after) && Safe(w, after)
  {
    var item, rest := w.driver.queue[0], w.driver.queue[1..];
    QueueTail(w.db, w.driver.queue);
    assert StillListed(w.db, item);
    if saved {
      SavedSendKeeps(w, item, rest, now);
    } else {
      SameRows(w, AfterMarkSending(w, item, rest, now, saved));
    }
  }

  lemma RecordSentKeeps(w: World, after: World)
    requires UploadInv(w) && w.driver.Accepted?
    requires after == w.(db := MarkSent(w.db, w.driver.item.id, Some(w.driver.document), w.driver.warned),
                         driver := Uploading(w.driver.snapshot, w.driver.queue))
    ensures UploadInv(after) && Safe(w, after)
  {
    MovedRowKeeps(w, after, w.driver.item.id, w.driver.queue);
  }

  lemma RecordFailedKeeps(w: World, after: World, message: string)
    requires UploadInv(w) && w.driver.Failing?
    requires after == w.(db := MarkFailed(w.db, w.driver.item.id, message, w.driver.retryable), driver := after.driver)
    requires after.driver == Uploading(w.driver.snapshot, w.driver.queue) || after.driver.Reporting?
    ensures UploadInv(after) && Safe(w, after)
  {
    MovedRowKeeps(w, after, w.driver.item.id, w.driver.queue);
  }

  /** Only the driver, the catalog, the meta table or the flag move. */
  lemma SameRows(w: World, after: World)
    requires UploadInv(w)
    requires after.requests == w.requests && after.invoices == w.invoices
    requires after.db.outbox == w.db.outbox && after.db.sales == w.db.sales
    requires DriverOk(after.(db := w.db))
    ensures UploadInv(after) && Safe(w, after)
  {
    ServerOkCarries(w, after);
    SentRowsCarry(w, after);
    var d := after.driver;
    if d.Uploading? || d.Awaiting? || d.Accepted? || d.Failing? {
      assert forall k | 0 <= k < |d.queue| :: StillListed(w.db, d.queue[k]);
      QueueCarries(w.db, after.db, d.queue);
    }
  }

  // ---- Every step ----------------------------------------------------------------------------------

  lemma ListingKeeps(bigInt: BigInt, w: World, e: Event)
    requires UploadInv(w) && e.ListOutbox? && Legal(w, e)
    ensures UploadInv(Next(bigInt, w, e)) && Safe(w, Next(bigInt, w, e))
  {
    DueItemsAreListed(w.db, e.ids, e.ids, e.force, e.nowMs);
    SameRows(w, Next(bigInt, w, e));
  }

  lemma ReplyKeeps(w: World, warned: bool)
    requires UploadInv(w) && w.driver.Awaiting?
    ensures UploadInv(AfterReply(w, warned)) && Safe(w, AfterReply(w, warned))
  {
    InvoiceOfFinds(w.invoices, w.driver.item.id);
    SameRows(w, AfterReply(w, warned));
  }

  lemma FailedKeeps(w: World, retryable: bool)
    requires UploadInv(w) && (w.driver.Awaiting? || w.driver.Accepted?)
    ensures var after := w.(driver := Failing(w.driver.snapshot, w.driver.item, w.driver.queue, retryable));
            UploadInv(after) && Safe(w, after)
  {
    SameRows(w, w.(driver := Failing(w.driver.snapshot, w.driver.item, w.driver.queue, retryable)));
  }

  /** A failure that could not be recorded. */
  lemma UnrecordedKeeps(w: World)
    requires UploadInv(w) && w.driver.Failing?
    ensures UploadInv(w.(driver := Uploading(w.driver.snapshot, w.driver.queue)))
  {
    SameRows(w, w.(driver := Uploading(w.driver.snapshot, w.driver.queue)));
  }

  predicate UploadState(d: Driver) {
    d.Uploading? || d.Awaiting? || d.Accepted? || d.Failing?
  }

  /** Leaving the upload loop, and everything outside it that leaves rows alone. */
  lemma OutsideKeeps(w: World, after: World)
    requires UploadInv(w) && !UploadState(after.driver)
    requires after.requests == w.requests && after.invoices == w.invoices
    requires after.db.outbox == w.db.outbox && after.db.sales == w.db.sales
    ensures UploadInv(after) && Safe(w, after)
  {
    SameRows(w, after);
  }

  predicate IsCatalogStep(e: Event) {
    e.ReadStatus? || e.MarkSyncing? || e.Recheck? || e.Connect? || e.PullPage? || e.Report? || e.Complete? || e.Finish?
    || e.Throw?
  }

  /** Status updates, the recheck and pulled pages leave rows alone. */
  lemma CatalogStepsLeaveRows(bigInt: BigInt, w: World, e: Event)
    requires IsCatalogStep(e)
    ensures var after := Next(bigInt, w, e);
            && after.requests == w.requests && after.invoices == w.invoices
            && after.db.outbox == w.db.outbox && after.db.sales == w.db.sales
            && (after == w || !UploadState(after.driver))
  {
    if e.PullPage? {
      PageLeavesRows(bigInt, w, e.page, e.hasMore);
    } else if e.Throw? {
      ThrowLeavesRows(w);
    }
  }

  lemma PageLeavesRows(bigInt: BigInt, w: World, page: Page, hasMore: bool)
    ensures var after := Next(bigInt, w, PullPage(page, hasMore));
            && after.requests == w.requests && after.invoices == w.invoices
            && after.db.outbox == w.db.outbox && after.db.sales == w.db.sales
            && (after == w || !UploadState(after.driver))
  {
  }

  lemma ThrowLeavesRows(w: World)
    ensures AfterThrow(w) == w.(driver := AfterThrow(w).driver)
    ensures AfterThrow(w) == w || !UploadState(AfterThrow(w).driver)
  {
  }

  lemma SendStepKeeps(w: World, now: int, saved: bool)
    requires UploadInv(w) && w.driver.Uploading?
    ensures UploadInv(AfterSend(w, now, saved)) && Safe(w, AfterSend(w, now, saved))
  {
    if w.driver.queue != [] {
      SendNextKeeps(w, now, saved);
    } else {
      OutsideKeeps(w, AfterSend(w, now, saved));
    }
  }

  lemma RecordSentStepKeeps(w: World, saved: bool)
    requires UploadInv(w) && w.driver.Accepted?
    ensures UploadInv(AfterRecordSent(w, saved)) && Safe(w, AfterRecordSent(w, saved))
  {
    if saved {
      RecordSentKeeps(w, AfterRecordSent(w, saved));
    } else {
      FailedKeeps(w, Retryable(NotApiError));
    }
  }

  lemma RecordFailedStepKeeps(w: World, message: string, saved: bool)
    requires UploadInv(w) && w.driver.Failing?
    ensures UploadInv(AfterRecordFailed(w, message, saved)) && Safe(w, AfterRecordFailed(w, message, saved))
  {
    if saved {
      RecordFailedKeeps(w, AfterRecordFailed(w, message, saved), message);
    } else if w.driver.retryable {
      OutsideKeeps(w, AfterRecordFailed(w, message, saved));
    } else {
      UnrecordedKeeps(w);
    }
  }

  predicate IsUploadStep(e: Event) {
    e.SendNext? || e.Reply? || e.Refuse? || e.RecordSent? || e.RecordFailed?
  }

  lemma SendOrRefuseKeeps(bigInt: BigInt, w: World, e: Event)
    requires UploadInv(w) && (e.SendNext? || e.Refuse?)
    ensures UploadInv(Next(bigInt, w, e)) && Safe(w, Next(bigInt, w, e))
  {
    if e.SendNext? && w.driver.Uploading? {
      SendStepKeeps(w, e.now, e.saved);
    } else if e.Refuse? && w.driver.Awaiting? {
      FailedKeeps(w, Retryable(e.error));
    }
  }

  lemma RecordStepKeeps(bigInt: BigInt, w: World, e: Event)
    requires UploadInv(w) && (e.RecordSent? || e.RecordFailed?)
    ensures UploadInv(Next(bigInt, w, e)) && Safe(w, Next(bigInt, w, e))
  {
    if e.RecordSent? && w.driver.Accepted? {
      RecordSentStepKeeps(w, e.saved);
    } else if e.RecordFailed? && w.driver.Failing? {
      RecordFailedStepKeeps(w, e.message, e.saved);
    }
  }

  lemma UploadStepKeeps(bigInt: BigInt, w: World, e: Event)
    requires UploadInv(w) && IsUploadStep(e)
    ensures UploadInv(Next(bigInt, w, e)) && Safe(w, Next(bigInt, w, e))
  {
    if e.SendNext? || e.Refuse? {
      SendOrRefuseKeeps(bigInt, w, e);
    } else if e.RecordSent? || e.RecordFailed? {
      RecordStepKeeps(bigInt, w, e);
    } else if w.driver.Awaiting? {
      ReplyKeeps(w, e.warned);
    }
  }

  lemma OutsideStepKeeps(bigInt: BigInt, w: World, e: Event)
    requires UploadInv(w) && IsCatalogStep(e)
    ensures UploadInv(Next(bigInt, w, e)) && Safe(w, Next(bigInt, w, e))
  {
    CatalogStepsLeaveRows(bigInt, w, e);
    if Next(bigInt, w, e) != w {
      OutsideKeeps(w, Next(bigInt, w, e));
    }
  }

  lemma NextKeepsUploads(bigInt: BigInt, w: World, e: Event)
    requires UploadInv(w) && Legal(w, e)
    ensures UploadInv(Next(bigInt, w, e)) && Safe(w, Next(bigInt, w, e))
  {
    match e
    case Local(request) =>
      if request.DoSell? || request.DoAlign? {
        LocalAddsPendingPairs(w.db, request);
        RowsAdded(w, AfterLocal(w, request));
      }
    case Crash(highest, context) =>
      RecoverResetsSending(w.db, highest, context);
      Restarted(w, AfterCrash(w, highest, context));
    case Deliver(command, document) =>
      if AfterDelivery(w, command, document) != w {
        InvoiceAdded(w, AfterDelivery(w, command, document), command, document);
      }
    case ListOutbox(_, _, _) => ListingKeeps(bigInt, w, e);
    case _ =>
      if IsUploadStep(e) {
        UploadStepKeeps(bigInt, w, e);
      } else {
        OutsideStepKeeps(bigInt, w, e);
      }
  }
}
