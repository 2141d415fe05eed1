/**
 * The till, its sync driver, the network and the server as one transition system
 * (pos-electron/src/sync.ts, lines 112 to 395, against the handlers of pos-electron/electron/main.ts).
 * Every await of the driver is a step boundary: the cashier, the server and a crash may come in between.
 */
module SyncProtocol {
  import opened CatalogPull
  import Ledger
  import LedgerRuns

  import opened LocalDb
  import opened OfflineAccounting
  import opened Outcome
  import opened SyncPolicy

  /** A row of the outbox listing, with the total of its ledger row. */
  datatype Item = Item(id: Id, row: OutboxRow, localTotal: Option<real>)

  /** What the server keeps of the first command it accepts for a sync_id. */
  datatype Invoice = Invoice(command: SaleCommand, document: Id)

  /** What sync_get_status returned, as far as it is written back or sent on. */
  datatype Snapshot = Snapshot(cursor: string, validUntil: string)

  /** Where performSync, or the catch of syncLoop, stands. */
  datatype Driver =
    | Idle
    | Opening(snapshot: Snapshot)
    | Listing(snapshot: Snapshot)
    | Uploading(snapshot: Snapshot, queue: seq<Item>)
    | Awaiting(snapshot: Snapshot, item: Item, queue: seq<Item>)
    | Accepted(snapshot: Snapshot, item: Item, queue: seq<Item>, document: Id, warned: bool)
    | Failing(snapshot: Snapshot, item: Item, queue: seq<Item>, retryable: bool)
    | Rechecking(snapshot: Snapshot)
    | Reporting(snapshot: Snapshot, thrown: bool)
    | Connecting(snapshot: Snapshot)
    | Pulling(snapshot: Snapshot, cursor: Option<string>, pages: nat)
    | Completing(validUntil: string)
    | Finishing
    | Aborting

  /**
   * `requests` holds every sale command ever sent: each may reach the server late, again, or never.
   * `midPull` remembers that the last committed page announced more pages.
   */
  datatype World = World(db: Db, driver: Driver, requests: set<SaleCommand>, invoices: seq<Invoice>, midPull: bool)

  const MAX_SYNC_PULL_PAGES := 100

  datatype Event =
    | Local(request: Request)
    | Crash(highest: string, context: Option<Context>)
    | Deliver(command: SaleCommand, document: Id)
    | ReadStatus
    | MarkSyncing
    | ListOutbox(ids: seq<Id>, force: bool, nowMs: int)
    | SendNext(now: int, saved: bool)
    | Reply(warned: bool)
    | Refuse(error: SyncError)
    | RecordSent(saved: bool)
    | RecordFailed(message: string, saved: bool)
    | Recheck(ids: seq<Id>)
    | Connect
    | PullPage(page: Page, hasMore: bool)
    | Report(syncStatus: string, message: string)
    | Complete(message: string)
    | Finish
    | Throw

  // ---- Pieces of the driver ------------------------------------------------------------------------

  function ItemOf(db: Db, id: Id): Item
    requires id in db.outbox
  {
    Item(id, db.outbox[id], if id in db.sales then Some(db.sales[id].totalCents as real / 100.0) else None)
  }

  /** The request body: the stored command with the ledger's total. */
  function Body(item: Item): SaleCommand {
    if item.localTotal.Some? then item.row.payload.(localTotal := item.localTotal.value) else item.row.payload
  }

  predicate IsDue(item: Item, force: bool, nowMs: int) {
    force || DueAt(item.id, item.row.attempts, item.row.lastAttemptAt, nowMs) <= nowMs
  }

  /** The due rows, in the order of the listing. */
  function DueItems(db: Db, ids: seq<Id>, force: bool, nowMs: int): seq<Item> {
    if ids == [] then []
    else
      var front, id := DueItems(db, ids[..|ids| - 1], force, nowMs), ids[|ids| - 1];
      if id in db.outbox && IsDue(ItemOf(db, id), force, nowMs) then front + [ItemOf(db, id)] else front
  }

  function StatusOf(db: Db): Snapshot {
    Snapshot(ReportedCursor(db), ReportedValidity(db))
  }

  /** The server's invoice of a sync_id. */
  function InvoiceOf(invoices: seq<Invoice>, id: Id): Option<Invoice> {
    if invoices == [] then None
    else if InvoiceOf(invoices[..|invoices| - 1], id).Some? then InvoiceOf(invoices[..|invoices| - 1], id)
    else if invoices[|invoices| - 1].command.syncId == id then Some(invoices[|invoices| - 1])
    else None
  }

  /** An intermediate page is applied with its validity cleared. */
  function Sealed(page: Page, hasMore: bool): Page {
    if hasMore then page.(validUntil := Some("")) else page
  }

  function CompletedValidity(page: Page, snapshot: Snapshot): string {
    if page.validUntil.Some? && page.validUntil.value != "" then page.validUntil.value else snapshot.validUntil
  }

  function CursorOf(snapshot: Snapshot): Option<string> {
    if snapshot.cursor == "" then None else Some(snapshot.cursor)
  }

  // ---- Steps ---------------------------------------------------------------------------------------

  function AfterMarkSending(w: World, item: Item, queue: seq<Item>, now: int, saved: bool): World
    requires w.driver.Uploading?
  {
    var marked := MarkSending(w.db, item.id, now);
    if saved && marked.Ok?
    then w.(db := marked.value, requests := w.requests + {Body(item)}, driver := Awaiting(w.driver.snapshot, item, queue))
    else w.(driver := Failing(w.driver.snapshot, item, queue, Retryable(NotApiError)))
  }

  function AfterPull(bigInt: BigInt, w: World, page: Page, hasMore: bool): World
    requires w.driver.Pulling?
  {
    var next := NextCursor(w.driver.cursor, page.cursor);
    var applied := ApplyPull(w.db, Sealed(page, hasMore));
    if !CursorTransitionIsValid(bigInt, w.driver.cursor, next, hasMore) || applied.Err? then w.(driver := Aborting)
    else
      w.(db := applied.value, midPull := hasMore,
         driver :=
           if !hasMore then Completing(CompletedValidity(page, w.driver.snapshot))
           else if w.driver.pages + 1 >= MAX_SYNC_PULL_PAGES then Aborting
           else Pulling(w.driver.snapshot, next, w.driver.pages + 1))
  }

  function AfterLocal(w: World, request: Request): World {
    if request.DoSell? || request.DoAlign? then w.(db := LedgerRuns.Next(w.db, LedgerRuns.Call(request))) else w
  }

  function AfterCrash(w: World, highest: string, context: Option<Context>): World {
    w.(db := LedgerRuns.Next(w.db, LedgerRuns.Restart(highest, context)), driver := Idle)
  }

  /** The server keeps the first invoice of a sync_id. */
  function AfterDelivery(w: World, command: SaleCommand, document: Id): World {
    if command in w.requests && InvoiceOf(w.invoices, command.syncId).None?
    then w.(invoices := w.invoices + [Invoice(command, document)]) else w
  }

  function AfterListing(w: World, ids: seq<Id>, force: bool, nowMs: int): World
    requires w.driver.Listing?
  {
    var due := DueItems(w.db, ids, force, nowMs);
    w.(driver := if ids != [] && due == [] then Reporting(w.driver.snapshot, false)
                 else Uploading(w.driver.snapshot, due))
  }

  function AfterSend(w: World, now: int, saved: bool): World
    requires w.driver.Uploading?
  {
    if w.driver.queue == [] then w.(driver := Rechecking(w.driver.snapshot))
    else AfterMarkSending(w, w.driver.queue[0], w.driver.queue[1..], now, saved)
  }

  function AfterReply(w: World, warned: bool): World
    requires w.driver.Awaiting?
  {
    var invoice := InvoiceOf(w.invoices, w.driver.item.id);
    if invoice.None? then w
    else w.(driver := Accepted(w.driver.snapshot, w.driver.item, w.driver.queue, invoice.value.document, warned))
  }

  function AfterRecordSent(w: World, saved: bool): World
    requires w.driver.Accepted?
  {
    if saved
    then w.(db := MarkSent(w.db, w.driver.item.id, Some(w.driver.document), w.driver.warned),
            driver := Uploading(w.driver.snapshot, w.driver.queue))
    else w.(driver := Failing(w.driver.snapshot, w.driver.item, w.driver.queue, Retryable(NotApiError)))
  }

  function AfterRecordFailed(w: World, message: string, saved: bool): World
    requires w.driver.Failing?
  {
    w.(db := if saved then MarkFailed(w.db, w.driver.item.id, message, w.driver.retryable) else w.db,
       driver := if w.driver.retryable then Reporting(w.driver.snapshot, false)
                 else Uploading(w.driver.snapshot, w.driver.queue))
  }

  /** A rejected await outside the upload loop leaves performSync; in the catch of syncLoop it ends the sync. */
  function AfterThrow(w: World): World {
    if w.driver.Opening? || w.driver.Listing? || w.driver.Rechecking? || w.driver.Connecting? || w.driver.Pulling?
       || w.driver.Completing? || w.driver.Finishing? || (w.driver.Reporting? && !w.driver.thrown) then w.(driver := Aborting)
    else if w.driver.Aborting? || w.driver.Reporting? then w.(driver := Idle)
    else w
  }

  /** Steps that are not enabled leave the world as it is. */
  function Next(bigInt: BigInt, w: World, e: Event): World {
    match e
    case Local(request) => AfterLocal(w, request)
    case Crash(highest, context) => AfterCrash(w, highest, context)
    case Deliver(command, document) => AfterDelivery(w, command, document)
    case ReadStatus =>
      if w.driver.Idle? then w.(driver := Opening(StatusOf(w.db)))
      else if w.driver.Aborting? then w.(driver := Reporting(StatusOf(w.db), true))
      else w
    case MarkSyncing =>
      if w.driver.Opening?
      then w.(db := SetStatus(w.db, "syncing", "", None), driver := Listing(w.driver.snapshot)) else w
    case ListOutbox(ids, force, nowMs) => if w.driver.Listing? then AfterListing(w, ids, force, nowMs) else w
    case SendNext(now, saved) => if w.driver.Uploading? then AfterSend(w, now, saved) else w
    case Reply(warned) => if w.driver.Awaiting? then AfterReply(w, warned) else w
    case Refuse(error) =>
      if w.driver.Awaiting?
      then w.(driver := Failing(w.driver.snapshot, w.driver.item, w.driver.queue, Retryable(error))) else w
    case RecordSent(saved) => if w.driver.Accepted? then AfterRecordSent(w, saved) else w
    case RecordFailed(message, saved) => if w.driver.Failing? then AfterRecordFailed(w, message, saved) else w
    case Recheck(ids) =>
      if !w.driver.Rechecking? then w
      else w.(driver := if ids != [] then Reporting(w.driver.snapshot, false) else Connecting(w.driver.snapshot))
    case Connect =>
      if w.driver.Connecting? then w.(driver := Pulling(w.driver.snapshot, CursorOf(w.driver.snapshot), 0)) else w
    case PullPage(page, hasMore) => if w.driver.Pulling? then AfterPull(bigInt, w, page, hasMore) else w
    case Report(syncStatus, message) =>
      if w.driver.Reporting?
      then w.(db := SetStatus(w.db, syncStatus, message, Some(w.driver.snapshot.validUntil)), driver := Idle) else w
    case Complete(message) =>
      if w.driver.Completing?
      then w.(db := SetStatus(w.db, "success", message, Some(w.driver.validUntil)), driver := Finishing) else w
    case Finish => if w.driver.Finishing? then w.(driver := Idle) else w
    case Throw => AfterThrow(w)
  }

  function Run(bigInt: BigInt, w: World, events: seq<Event>): World {
    if events == [] then w else Next(bigInt, Run(bigInt, w, events[..|events| - 1]), events[|events| - 1])
  }

  /** The answers of the two database queries the steps take from outside. */
  ghost predicate Legal(w: World, e: Event) {
    match e
    case Crash(highest, _) => IsHighestStored(w.db, highest)
    case ListOutbox(ids, _, _) => LedgerRuns.IsOutboxListing(w.db, ids)
    case Recheck(ids) => LedgerRuns.IsOutboxListing(w.db, ids)
    case _ => true
  }

  ghost predicate LegalRun(bigInt: BigInt, w: World, events: seq<Event>) {
    forall k | 0 <= k < |events| :: Legal(Run(bigInt, w, events[..k]), events[k])
  }

  /** A till before its first sync: nothing sent, nothing invoiced, no row marked sent. */
  ghost predicate Initial(w: World) {
    && w.driver.Idle? && w.requests == {} && w.invoices == [] && !w.midPull
    && Ledger.Inv(w.db)
    && forall id <- w.db.outbox :: !IsSent(w.db.outbox[id])
  }

  predicate IsSent(row: OutboxRow) {
    row.status == Sent || row.status == SentWithWarning
  }
}
