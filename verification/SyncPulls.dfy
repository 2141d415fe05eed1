/** The pull phase over whole runs: catalog validity, the stored cursor, and the page bound. */
module SyncPulls {
  import opened CatalogPull
  import opened LocalDb
  import opened Outcome
  import opened SyncProtocol
  import LedgerRuns
  import OfflineAccounting
  import SyncUploads

  // ---- What steps do to the catalog ----------------------------------------------------------------

  /** The step commits a pulled page. */
  predicate CommitsPage(bigInt: BigInt, w: World, e: Event) {
    && e.PullPage? && w.driver.Pulling?
    && CursorTransitionIsValid(bigInt, w.driver.cursor, NextCursor(w.driver.cursor, e.page.cursor), e.hasMore)
    && ApplyPull(w.db, Sealed(e.page, e.hasMore)).Ok?
  }

  /** Products, format and cursor are untouched. */
  predicate SameCatalog(before: Db, after: Db) {
    && after.products == before.products
    && after.meta.formatVersion == before.meta.formatVersion
    && after.meta.cursor == before.meta.cursor
  }

  lemma CommitKeepsCatalog(db: Db, command: SaleCommand, invoiceNumber: string)
    requires CommitSale(db, command, invoiceNumber).Ok?
    ensures var after := CommitSale(db, command, invoiceNumber).value;
            SameCatalog(db, after) && after.meta.validUntil == db.meta.validUntil
  {
  }

  lemma LocalKeepsCatalog(db: Db, request: Request)
    requires request.DoSell? || request.DoAlign?
    ensures var after := LedgerRuns.Next(db, LedgerRuns.Call(request));
            SameCatalog(db, after) && after.meta.validUntil == db.meta.validUntil
  {
    if request.DoSell? && Sell(db, request.sale, request.secure, request.now).Ok? {
      var after := Sell(db, request.sale, request.secure, request.now);
      SyncUploads.SellCommitsOrLeaves(db, request.sale, request.secure, request.now);
      if after.value != db {
        var command, number :| after == CommitSale(db, command, number);
        CommitKeepsCatalog(db, command, number);
      }
    }
  }

  /** A restart may clear what was already reported as missing. */
  lemma RestartKeepsReport(db: Db, highest: string, context: Option<OfflineAccounting.Context>)
    ensures var after := LedgerRuns.Next(db, LedgerRuns.Restart(highest, context));
            && NeedsFullRefresh(after) == NeedsFullRefresh(db)
            && StatusOf(after) == StatusOf(db)
            && (db.meta.validUntil == "" ==> after.meta.validUntil == "")
  {
  }

  lemma RefusedPageKeepsCatalog(bigInt: BigInt, w: World, page: Page, hasMore: bool)
    requires !CommitsPage(bigInt, w, PullPage(page, hasMore))
    ensures Next(bigInt, w, PullPage(page, hasMore)).db == w.db
  {
  }

  /** Steps of the driver other than pages, and of the server. */
  predicate IsQuiet(e: Event) {
    !e.Local? && !e.Crash? && !e.PullPage?
  }

  lemma QuietStepsKeepCatalog(bigInt: BigInt, w: World, e: Event)
    requires IsQuiet(e)
    ensures SameCatalog(w.db, Next(bigInt, w, e).db)
  {
  }

  /** Every step but a committed page leaves the reported cursor and the need for a refresh as they are. */
  lemma OnlyPagesMoveTheCursor(bigInt: BigInt, w: World, e: Event)
    requires !CommitsPage(bigInt, w, e)
    ensures var after := Next(bigInt, w, e);
            && ReportedCursor(after.db) == ReportedCursor(w.db)
            && NeedsFullRefresh(after.db) == NeedsFullRefresh(w.db)
  {
    match e
    case Local(request) =>
      if request.DoSell? || request.DoAlign? {
        LocalKeepsCatalog(w.db, request);
      }
    case Crash(highest, context) => RestartKeepsReport(w.db, highest, context);
    case PullPage(page, hasMore) => RefusedPageKeepsCatalog(bigInt, w, page, hasMore);
    case _ => QuietStepsKeepCatalog(bigInt, w, e);
  }

  // ---- Validity ------------------------------------------------------------------------------------

  /** The driver is before the pull and may still write its snapshot back. */
  predicate HoldsSnapshot(d: Driver) {
    d.Opening? || d.Listing? || d.Uploading? || d.Awaiting? || d.Accepted? || d.Failing? || d.Rechecking?
    || d.Reporting? || d.Connecting?
  }

  /** From the first intermediate page until the final page commits, nothing stored or about to be stored says valid. */
  predicate ValidityInv(w: World) {
    && (w.midPull ==> w.db.meta.validUntil == "")
    && (w.midPull && HoldsSnapshot(w.driver) ==> w.driver.snapshot.validUntil == "")
    && (w.driver.Completing? ==> !w.midPull)
    && (w.driver.Pulling? ==> w.driver.pages < MAX_SYNC_PULL_PAGES)
  }

  lemma PageKeepsValidity(bigInt: BigInt, w: World, e: Event)
    requires ValidityInv(w) && e.PullPage?
    ensures ValidityInv(Next(bigInt, w, e))
  {
  }

  lemma QuietStepsKeepValidity(bigInt: BigInt, w: World, e: Event)
    requires ValidityInv(w) && IsQuiet(e)
    ensures ValidityInv(Next(bigInt, w, e))
  {
  }

  lemma NextKeepsValidity(bigInt: BigInt, w: World, e: Event)
    requires ValidityInv(w)
    ensures ValidityInv(Next(bigInt, w, e))
  {
    match e
    case Local(request) =>
      if request.DoSell? || request.DoAlign? {
        LocalKeepsCatalog(w.db, request);
      }
    case Crash(highest, context) => RestartKeepsReport(w.db, highest, context);
    case PullPage(_, _) => PageKeepsValidity(bigInt, w, e);
    case _ => QuietStepsKeepValidity(bigInt, w, e);
  }

  /** The page committed last announced more pages. */
  predicate LastPageHadMore(bigInt: BigInt, w: World, events: seq<Event>) {
    if events == [] then w.midPull
    else
      var front, last := events[..|events| - 1], events[|events| - 1];
      if CommitsPage(bigInt, Run(bigInt, w, front), last) then last.hasMore else LastPageHadMore(bigInt, w, front)
  }

  /**
   * Catalog validity is cleared from the first intermediate page until the final page commits, through
   * crashes, failed syncs and status updates that write older snapshots back.
   */
  lemma {:induction false} PartialCatalogIsNeverValid(bigInt: BigInt, w: World, events: seq<Event>)
    requires ValidityInv(w)
    ensures var end := Run(bigInt, w, events);
            && ValidityInv(end)
            && end.midPull == LastPageHadMore(bigInt, w, events)
            && (LastPageHadMore(bigInt, w, events) ==> end.db.meta.validUntil == "" && ReportedValidity(end.db) == "")
  {
    if events != [] {
      var front := events[..|events| - 1];
      PartialCatalogIsNeverValid(bigInt, w, front);
      NextKeepsValidity(bigInt, Run(bigInt, w, front), events[|events| - 1]);
      OnlyPagesSetTheFlag(bigInt, Run(bigInt, w, front), events[|events| - 1]);
    }
  }

  lemma OnlyPagesSetTheFlag(bigInt: BigInt, w: World, e: Event)
    ensures Next(bigInt, w, e).midPull == if CommitsPage(bigInt, w, e) then e.hasMore else w.midPull
  {
  }

  // ---- The cursor ----------------------------------------------------------------------------------

  function TextOf(cursor: Option<string>): string {
    if cursor.Some? then cursor.value else ""
  }

  /** The driver's cursor is the stored one. */
  predicate CursorInv(w: World) {
    && (HoldsSnapshot(w.driver) ==> w.driver.snapshot.cursor == ReportedCursor(w.db))
    && (w.driver.Pulling? ==> TextOf(w.driver.cursor) == ReportedCursor(w.db))
    && (w.driver.Pulling? && w.driver.cursor.Some? ==> !NeedsFullRefresh(w.db))
  }

  predicate NoNullCursor(e: Event) {
    e.PullPage? ==> e.page.cursor != Null
  }

  lemma PageMovesCursorForward(bigInt: BigInt, w: World, e: Event)
    requires ReadsLikeBigInt(bigInt) && CursorInv(w) && CommitsPage(bigInt, w, e) && NoNullCursor(e)
    ensures CursorInv(Next(bigInt, w, e))
    ensures NotBack(bigInt, ReportedCursor(w.db), ReportedCursor(Next(bigInt, w, e).db))
    ensures !NeedsFullRefresh(Next(bigInt, w, e).db)
  {
    CommittedPageCompletesFormat(w.db, Sealed(e.page, e.hasMore));
  }

  lemma DriverStepKeepsCursor(bigInt: BigInt, w: World, e: Event)
    requires CursorInv(w) && !CommitsPage(bigInt, w, e)
    ensures CursorInv(Next(bigInt, w, e))
    ensures ReportedCursor(Next(bigInt, w, e).db) == ReportedCursor(w.db)
    ensures NeedsFullRefresh(Next(bigInt, w, e).db) == NeedsFullRefresh(w.db)
  {
    OnlyPagesMoveTheCursor(bigInt, w, e);
  }

  /**
   * With cursors that are never null, no run moves the reported cursor back, and once a page has committed
   * the catalog never needs a full refresh again.
   */
  lemma {:induction false} CursorNeverMovesBack(bigInt: BigInt, w: World, events: seq<Event>, i: nat)
    requires ReadsLikeBigInt(bigInt) && CursorInv(w) && i <= |events|
    requires forall k | 0 <= k < |events| :: NoNullCursor(events[k])
    ensures var before, end := Run(bigInt, w, events[..i]), Run(bigInt, w, events);
            && CursorInv(end)
            && NotBack(bigInt, ReportedCursor(before.db), ReportedCursor(end.db))
            && (!NeedsFullRefresh(before.db) ==> !NeedsFullRefresh(end.db))
    decreases |events|, i
  {
    if i == |events| {
      assert events[..i] == events;
      if events != [] {
        CursorNeverMovesBack(bigInt, w, events, 0);
      }
    } else {
      var n := |events| - 1;
      var front := events[..n];
      assert front[..i] == events[..i];
      CursorNeverMovesBack(bigInt, w, front, i);
      var before := Run(bigInt, w, front);
      assert NoNullCursor(events[n]);
      if CommitsPage(bigInt, before, events[n]) {
        PageMovesCursorForward(bigInt, before, events[n]);
        NotBackTransitive(bigInt, ReportedCursor(Run(bigInt, w, events[..i]).db), ReportedCursor(before.db),
                          ReportedCursor(Run(bigInt, w, events).db));
      } else {
        DriverStepKeepsCursor(bigInt, before, events[n]);
      }
    }
  }

  // ---- The page bound ------------------------------------------------------------------------------

  /** Pages committed since the driver last started a pull. */
  function PagesSincePull(bigInt: BigInt, w: World, events: seq<Event>): nat {
    if events == [] then 0
    else
      var front, last := events[..|events| - 1], events[|events| - 1];
      var before := Run(bigInt, w, front);
      if last.Connect? && before.driver.Connecting? then 0
      else PagesSincePull(bigInt, w, front) + if CommitsPage(bigInt, before, last) then 1 else 0
  }

  lemma PageStep(bigInt: BigInt, w: World, e: Event)
    requires w.driver.Pulling? ==> w.driver.pages < MAX_SYNC_PULL_PAGES
    ensures var after := Next(bigInt, w, e);
            && (after.driver.Pulling? ==>
                  after.driver.pages < MAX_SYNC_PULL_PAGES &&
                  if e.Connect? && w.driver.Connecting? then after.driver.pages == 0
                  else w.driver.Pulling? &&
                       after.driver.pages == w.driver.pages + if CommitsPage(bigInt, w, e) then 1 else 0)
  {
  }

  /** No pull commits more than a hundred pages. */
  lemma {:induction false} AtMostHundredPages(bigInt: BigInt, w: World, events: seq<Event>)
    requires !w.driver.Pulling?
    ensures PagesSincePull(bigInt, w, events) <= MAX_SYNC_PULL_PAGES
    ensures var end := Run(bigInt, w, events);
            end.driver.Pulling? ==> end.driver.pages == PagesSincePull(bigInt, w, events) < MAX_SYNC_PULL_PAGES
  {
    if events != [] {
      var front := events[..|events| - 1];
      AtMostHundredPages(bigInt, w, front);
      PageStep(bigInt, Run(bigInt, w, front), events[|events| - 1]);
    }
  }
}
