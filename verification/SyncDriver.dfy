/**
 * performSync and syncLoop in their own form (pos-electron/src/sync.ts, lines 112 to 385): loops over local
 * variables that call the till's handlers and the server. The code takes only steps of SyncProtocol, so all
 * results about its runs hold of every execution; everything the outside decides is left open.
 */
module SyncDriver {
  import opened CatalogPull
  import opened Decimals
  import opened Ledger
  import opened LocalDb
  import opened Outcome
  import opened SyncPolicy
  import opened SyncProtocol
  import LedgerRuns
  import SyncPulls
  import SyncSafety
  import SyncUploads

  // ---- The listing query ---------------------------------------------------------------------------

  /** Position of a row in ORDER BY: rows without a sequence, then an empty one, then by number. */
  function ListingKey(row: OutboxRow): int {
    if row.sequence.None? then -2
    else if row.sequence.value == "" then -1
    else SequenceValue(row.sequence.value)
  }

  lemma ListingKeyIsOrder(db: Db, a: Id, b: Id)
    requires Inv(db) && a in db.outbox && b in db.outbox
    ensures LedgerRuns.OrderedBefore(db.outbox[a], db.outbox[b])
            <==> ListingKey(db.outbox[a]) <= ListingKey(db.outbox[b])
  {
    assert SaleKept(db, a) && SaleKept(db, b);
    if Seq(db, a) != "" && Seq(db, b) != "" {
      SequenceOrderIsNumeric(Seq(db, a), Seq(db, b));
      if SequenceValue(Seq(db, a)) == SequenceValue(Seq(db, b)) {
        SequenceOrderIsNumeric(Seq(db, b), Seq(db, a));
      }
    }
  }

  function KeyIn(db: Db, id: Id): int {
    if id in db.outbox then ListingKey(db.outbox[id]) else 0
  }

  method FirstOf(db: Db, ids: set<Id>) returns (first: Id)
    requires ids != {}
    ensures first in ids && forall id <- ids :: KeyIn(db, first) <= KeyIn(db, id)
  {
    first :| first in ids;
    var remaining := ids - {first};
    while remaining != {}
      invariant remaining <= ids && first in ids
      invariant forall id <- ids - remaining :: KeyIn(db, first) <= KeyIn(db, id)
      decreases remaining
    {
      var id :| id in remaining;
      if KeyIn(db, id) < KeyIn(db, first) {
        first := id;
      }
      remaining := remaining - {id};
    }
  }

  /** sync:get_outbox: the listing exists for every consistent ledger. */
  method GetOutbox(db: Db) returns (ids: seq<Id>)
    requires Inv(db)
    ensures LedgerRuns.IsOutboxListing(db, ids)
  {
    ids := [];
    var remaining := set id | id in db.outbox && db.outbox[id].status == Pending;
    ghost var pending := remaining;
    while remaining != {}
      invariant forall id :: id in ids <==> id in pending && id !in remaining
      invariant remaining <= pending
      invariant forall i, j | 0 <= i < j < |ids| :: ids[i] != ids[j] && KeyIn(db, ids[i]) <= KeyIn(db, ids[j])
      invariant forall i, id | 0 <= i < |ids| && id in remaining :: KeyIn(db, ids[i]) <= KeyIn(db, id)
      decreases remaining
    {
      var first := FirstOf(db, remaining);
      forall i | 0 <= i < |ids| ensures ids[i] != first {
        assert ids[i] in ids;
      }
      ids := ids + [first];
      remaining := remaining - {first};
    }
    forall i, j | 0 <= i < j < |ids| && ids[i] in db.outbox && ids[j] in db.outbox
      ensures LedgerRuns.OrderedBefore(db.outbox[ids[i]], db.outbox[ids[j]])
    {
      ListingKeyIsOrder(db, ids[i], ids[j]);
    }
  }

  // ---- The driver ----------------------------------------------------------------------------------

  /** What the cashier, the login and the server do on their own. */
  predicate IsOutside(e: Event) {
    e.Local? || e.Deliver?
  }

  predicate Unfold(u: bool) {
    true
  }

  /** `w` is where the run leads. The quantifier keeps the verifier from opening the definition unasked. */
  ghost predicate Reached(bigInt: BigInt, start: World, trace: seq<Event>, w: World) {
    forall u {:trigger Unfold(u)} :: Unfold(u) ==>
      Inv(start.db) && LegalRun(bigInt, start, trace) && w == Run(bigInt, start, trace)
  }

  datatype SyncEnd = Success | Failed | Thrown

  class Sync {
    const bigInt: BigInt
    ghost const start: World
    ghost var trace: seq<Event>
    var w: World

    ghost predicate Valid()
      reads this
    {
      Reached(bigInt, start, trace, w)
    }

    constructor (w: World, bigInt: BigInt)
      requires Inv(w.db)
      ensures Valid() && this.w == w && this.bigInt == bigInt && start == w && trace == []
    {
      this.w := w;
      this.bigInt := bigInt;
      start := w;
      trace := [];
    }

    method Step(e: Event)
      requires Valid() && Legal(w, e)
      modifies this
      ensures Valid() && trace == old(trace) + [e] && w == Next(bigInt, old(w), e)
    {
      TraceGrows(bigInt, start, trace, w, e);
      trace := trace + [e];
      w := Next(bigInt, w, e);
    }

    /** Awaiting a handler or the server: others may run, but none of them moves the driver. */
    method Await()
      requires Valid()
      modifies this
      ensures Valid() && w.driver == old(w.driver) && w.midPull == old(w.midPull)
      ensures old(trace) <= trace && forall k | |old(trace)| <= k < |trace| :: IsOutside(trace[k])
    {
    }

    /** An awaited call that may reject; a rejection leaves performSync. */
    method Attempt() returns (ok: bool)
      requires Valid()
      requires w.driver.Opening? || w.driver.Listing? || w.driver.Rechecking? || w.driver.Connecting?
               || w.driver.Completing? || w.driver.Finishing? || (w.driver.Reporting? && !w.driver.thrown)
      modifies this
      ensures Valid() && old(trace) <= trace
      ensures w.driver == if ok then old(w.driver) else Aborting
    {
      Await();
      ok := *;
      if !ok {
        Step(Throw);
      }
    }

    /** sync_set_status of a failure, and return. */
    method ReportFailure() returns (outcome: SyncEnd)
      requires Valid() && w.driver.Reporting? && !w.driver.thrown
      modifies this
      ensures Valid() && old(trace) <= trace
      ensures (w.driver.Idle? && outcome == Failed) || (w.driver.Aborting? && outcome == Thrown)
    {
      var ok := Attempt();
      if !ok {
        return Thrown;
      }
      var status, message := *, *;
      Step(Report(status, message));
      outcome := Failed;
    }

    method List() returns (ids: seq<Id>)
      requires Valid()
      ensures LedgerRuns.IsOutboxListing(w.db, ids)
    {
      assert Unfold(true);
      SyncSafety.LedgerIsKept(bigInt, start, trace, |trace|);
      assert trace[..|trace|] == trace;
      ids := GetOutbox(w.db);
    }

    /** The request and its answer, and recording the answer; leaves Failing when any of it throws. */
    method SendAndRecord(ghost state: Snapshot, ghost item: Item, ghost rest: seq<Item>)
      requires Valid() && w.driver == Awaiting(state, item, rest)
      modifies this
      ensures Valid() && old(trace) <= trace
      ensures w.driver == Uploading(state, rest)
              || (w.driver.Failing? && w.driver == Failing(state, item, rest, w.driver.retryable))
    {
      Await();
      var answered: bool, warned: bool, error: SyncError, saved: bool := *, *, *, *;
      if answered && InvoiceOf(w.invoices, w.driver.item.id).Some? {
        Step(Reply(warned));
        Await();
        Step(RecordSent(saved));
      } else {
        Step(Refuse(error));
      }
    }

    /** The catch block: record the failure; a retryable one ends this sync. */
    method CatchFailure(ghost state: Snapshot, ghost item: Item, ghost rest: seq<Item>) returns (retryable: bool)
      requires Valid() && w.driver.Failing? && w.driver == Failing(state, item, rest, w.driver.retryable)
      modifies this
      ensures Valid() && old(trace) <= trace
      ensures w.driver == if retryable then Reporting(state, false) else Uploading(state, rest)
    {
      retryable := w.driver.retryable;
      Await();
      var message: string, saved: bool := *, *;
      Step(RecordFailed(message, saved));
    }

    /** One turn of the upload loop: the try and the catch. */
    method UploadOne(ghost state: Snapshot, ghost item: Item, ghost rest: seq<Item>) returns (stopped: bool)
      requires Valid() && w.driver == Uploading(state, [item] + rest)
      modifies this
      ensures Valid() && old(trace) <= trace
      ensures w.driver == if stopped then Reporting(state, false) else Uploading(state, rest)
    {
      assert ([item] + rest)[1..] == rest;
      Await();
      var now: int, saved: bool := *, *;
      Step(SendNext(now, saved));
      if w.driver.Awaiting? {
        SendAndRecord(state, item, rest);
      }
      if w.driver.Failing? {
        stopped := CatchFailure(state, item, rest);
      } else {
        stopped := false;
      }
    }

    /** The upload loop; it stops at the first retryable failure and skips rows that fail for good. */
    method Upload(ghost state: Snapshot, due: seq<Item>) returns (stopped: bool)
      requires Valid() && w.driver == Uploading(state, due)
      modifies this
      ensures Valid() && old(trace) <= trace
      ensures w.driver == if stopped then Reporting(state, false) else Uploading(state, [])
    {
      var k := 0;
      while k < |due|
        invariant 0 <= k <= |due|
        invariant Valid() && old(trace) <= trace
        invariant w.driver == Uploading(state, due[k..])
      {
        assert due[k..] == [due[k]] + due[k + 1..];
        stopped := UploadOne(state, due[k], due[k + 1..]);
        if stopped {
          return;
        }
        k := k + 1;
      }
      return false;
    }

    /** One page: check the cursor, then apply; None when either is refused. */
    method PullOne(ghost state: Snapshot, cursor: Option<string>, pages: nat) returns (next: Option<Option<string>>, hasMore: bool)
      requires Valid() && w.driver == Pulling(state, cursor, pages) && pages < MAX_SYNC_PULL_PAGES
      modifies this
      ensures Valid() && old(trace) <= trace
      ensures next.None? ==> w.driver.Aborting?
      ensures next.Some? && !hasMore ==> w.driver.Completing? && !w.midPull && !NeedsFullRefresh(w.db)
      ensures next.Some? && hasMore ==>
                w.driver == if pages + 1 >= MAX_SYNC_PULL_PAGES then Aborting else Pulling(state, next.value, pages + 1)
    {
      var page: Page;
      page, hasMore := *, *;
      var nextCursor := NextCursor(cursor, page.cursor);
      var applied := ApplyPull(w.db, Sealed(page, hasMore));
      if applied.Ok? {
        CommittedPageCompletesFormat(w.db, Sealed(page, hasMore));
      }
      Step(PullPage(page, hasMore));
      if !CursorTransitionIsValid(bigInt, cursor, nextCursor, hasMore) || applied.Err? {
        return None, hasMore;
      }
      return Some(nextCursor), hasMore;
    }

    /** The pull loop: at most a hundred pages, each after a valid cursor transition. */
    method Pull(ghost state: Snapshot) returns (finished: bool)
      requires Valid() && w.driver == Pulling(state, CursorOf(state), 0)
      modifies this
      ensures Valid() && old(trace) <= trace
      ensures finished ==> w.driver.Completing? && !w.midPull && !NeedsFullRefresh(w.db)
      ensures !finished ==> w.driver.Aborting?
    {
      var cursor, pages := w.driver.cursor, 0;
      while true
        invariant 0 <= pages < MAX_SYNC_PULL_PAGES
        invariant Valid() && old(trace) <= trace
        invariant w.driver == Pulling(state, cursor, pages)
        decreases MAX_SYNC_PULL_PAGES - pages
      {
        Await();
        var answered: bool := *;
        if !answered {
          Step(Throw);
          return false;
        }
        var nextCursor, hasMore := PullOne(state, cursor, pages);
        if nextCursor.None? {
          return false;
        }
        cursor := nextCursor.value;
        pages := pages + 1;
        if !hasMore {
          return true;
        }
        if pages >= MAX_SYNC_PULL_PAGES {
          return false;
        }
      }
    }

    /** Read the status and report that a sync is under way. */
    method Open() returns (ok: bool)
      requires Valid() && w.driver.Idle?
      modifies this
      ensures Valid() && old(trace) <= trace
      ensures if ok then w.driver.Listing? else w.driver.Aborting?
    {
      Step(ReadStatus);
      ok := Attempt();
      if !ok {
        return;
      }
      Step(MarkSyncing);
      ok := Attempt();
    }

    /** Everything up to the second listing: uploads come before anything else. */
    method UploadPhase(force: bool) returns (reached: bool, outcome: SyncEnd)
      requires Valid() && w.driver.Listing?
      modifies this
      ensures Valid() && old(trace) <= trace
      ensures reached ==> w.driver.Connecting?
      ensures !reached ==> (w.driver.Idle? && outcome == Failed) || (w.driver.Aborting? && outcome == Thrown)
    {
      var outbox := List();
      var nowMs: int := *;
      var due := DueItems(w.db, outbox, force, nowMs);
      Step(ListOutbox(outbox, force, nowMs));
      if |outbox| > 0 && |due| == 0 {
        outcome := ReportFailure();
        return false, outcome;
      }
      var stopped := Upload(w.driver.snapshot, due);
      if stopped {
        outcome := ReportFailure();
        return false, outcome;
      }
      Step(SendNext(nowMs, true));
      reached, outcome := SecondListing();
    }

    method SecondListing() returns (empty: bool, outcome: SyncEnd)
      requires Valid() && w.driver.Rechecking?
      modifies this
      ensures Valid() && old(trace) <= trace
      ensures empty ==> w.driver.Connecting?
      ensures !empty ==> (w.driver.Idle? && outcome == Failed) || (w.driver.Aborting? && outcome == Thrown)
    {
      empty := Attempt();
      if !empty {
        return false, Thrown;
      }
      var remaining := List();
      Step(Recheck(remaining));
      if |remaining| > 0 {
        outcome := ReportFailure();
        return false, outcome;
      }
      return true, Success;
    }

    /** performSync. */
    method PerformSync(force: bool) returns (outcome: SyncEnd)
      requires Valid() && w.driver.Idle?
      modifies this
      ensures Valid() && old(trace) <= trace
      ensures outcome.Thrown? <==> w.driver.Aborting?
      ensures !outcome.Thrown? <==> w.driver.Idle?
      ensures outcome == Success ==> !w.midPull
    {
      var ok := Open();
      if !ok {
        return Thrown;
      }
      ok, outcome := UploadPhase(force);
      if !ok {
        return;
      }
      ok := Attempt();
      if !ok {
        return Thrown;
      }
      Step(Connect);
      var finished := Pull(w.driver.snapshot);
      if !finished {
        return Thrown;
      }
      outcome := Publish();
    }

    /** The final status and heartbeat. */
    method Publish() returns (outcome: SyncEnd)
      requires Valid() && w.driver.Completing? && !w.midPull
      modifies this
      ensures Valid() && old(trace) <= trace && !w.midPull
      ensures (w.driver.Idle? && outcome == Success) || (w.driver.Aborting? && outcome == Thrown)
    {
      Await();
      var saved: bool, published: bool, message: string := *, *, *;
      if !saved {
        Step(Throw);
        return Thrown;
      }
      Step(Complete(message));
      Await();
      if !published {
        Step(Throw);
        return Thrown;
      }
      Step(Finish);
      return Success;
    }

    /**
     * syncLoop: a thrown error is reported from a fresh status; the driver always ends idle, and whatever the
     * outside did, nothing committed, invoiced or sent was lost.
     */
    method SyncLoop(force: bool)
      requires Valid() && w.driver.Idle?
      modifies this
      ensures Valid() && old(trace) <= trace && w.driver.Idle?
      ensures Initial(start) ==> Kept(old(w), w)
    {
      CatchAll(force);
      if Initial(start) {
        ReachedIsKept(bigInt, start, old(trace), old(w), trace, w);
      }
    }

    /** performSync and the catch of syncLoop. */
    method CatchAll(force: bool)
      requires Valid() && w.driver.Idle?
      modifies this
      ensures Valid() && old(trace) <= trace && w.driver.Idle?
    {
      var outcome := PerformSync(force);
      if outcome.Thrown? {
        ReportThrown();
      }
    }

    /** The catch: read a fresh status and write the failure to it. */
    method ReportThrown()
      requires Valid() && w.driver.Aborting?
      modifies this
      ensures Valid() && old(trace) <= trace && w.driver.Idle?
    {
      Await();
      var readable: bool, saved: bool, message: string, status: string := *, *, *, *;
      if !readable {
        Step(Throw);
        return;
      }
      Step(ReadStatus);
      Await();
      if !saved {
        Step(Throw);
      } else {
        Step(Report(status, message));
      }
    }
  }

  ghost predicate Kept(before: World, after: World) {
    && Keeps(before.db, after.db)
    && SyncUploads.Safe(before, after)
    && SyncUploads.UploadInv(after)
    && SyncPulls.ValidityInv(after)
  }

  lemma ReachedIsKept(bigInt: BigInt, start: World, before: seq<Event>, v: World, after: seq<Event>, w: World)
    requires Reached(bigInt, start, before, v) && Reached(bigInt, start, after, w) && before <= after && Initial(start)
    ensures Kept(v, w)
  {
    assert Unfold(true);
    assert after[..|before|] == before;
    SyncSafety.LedgerIsKept(bigInt, start, after, |before|);
    SyncSafety.InitialIsSafe(start);
    SyncSafety.UploadsAreKept(bigInt, start, after, |before|);
    SyncPulls.PartialCatalogIsNeverValid(bigInt, start, after);
  }

  lemma TraceGrows(bigInt: BigInt, start: World, trace: seq<Event>, w: World, e: Event)
    requires Reached(bigInt, start, trace, w) && Legal(w, e)
    ensures Reached(bigInt, start, trace + [e], Next(bigInt, w, e))
  {
    assert Unfold(true);
    var after := trace + [e];
    assert after[..|trace|] == trace;
    forall k | 0 <= k < |after| ensures Legal(Run(bigInt, start, after[..k]), after[k]) {
      assert after[..k] == trace[..k];
      assert k < |trace| ==> after[k] == trace[k];
    }
  }
}
