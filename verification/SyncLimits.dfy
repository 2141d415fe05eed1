/**
 * What the upload phase does not guarantee (pos-electron/src/sync.ts, lines 162 to 252): two runs in which a
 * pull overtakes a sale. StrandedSales says exactly when that happens.
 */
module SyncLimits {
  import opened CatalogPull
  import opened LocalDb
  import opened Outcome
  import opened SyncPolicy
  import opened SyncProtocol
  import LedgerRuns

  /** Exactly when the second listing lets the sync go on to pull: no row is pending; rows left sending do not count. */
  lemma PullReachedIffNothingPending(bigInt: BigInt, w: World, ids: seq<Id>)
    requires w.driver.Rechecking? && Legal(w, Recheck(ids))
    ensures Next(bigInt, w, Recheck(ids)).driver.Connecting? <==>
            forall id <- w.db.outbox :: w.db.outbox[id].status != Pending
  {
    if ids != [] {
      assert ids[0] in ids;
    }
  }

  /** A sync whose only row meets a lost request, with the record of the failure lost as well. */
  function LostSync(id: Id, now: int): seq<Event> {
    [ReadStatus, MarkSyncing, ListOutbox([id], true, now), SendNext(now, true),
     Refuse(ApiError("NETWORK_ERROR", None, None)), RecordFailed("", false), Report("offline", "")]
  }

  /** The sync after it. */
  function NextSync(now: int): seq<Event> {
    [ReadStatus, MarkSyncing, ListOutbox([], true, now), SendNext(now, true), Recheck([])]
  }

  predicate OnlyRow(w: World, id: Id, status: Status) {
    && w.driver.Idle?
    && w.db.outbox.Keys == {id}
    && w.db.outbox[id].status == status
  }

  function Steps(bigInt: BigInt, w: World, events: seq<Event>): World
    decreases |events|
  {
    if events == [] then w else Steps(bigInt, Next(bigInt, w, events[0]), events[1..])
  }

  lemma {:induction false} StepsIsRun(bigInt: BigInt, w: World, events: seq<Event>)
    ensures Steps(bigInt, w, events) == Run(bigInt, w, events)
    decreases |events|
  {
    if events != [] {
      StepsIsRun(bigInt, Next(bigInt, w, events[0]), events[1..]);
      FirstStep(bigInt, w, events);
    }
  }

  lemma {:induction false} FirstStep(bigInt: BigInt, w: World, events: seq<Event>)
    requires events != []
    ensures Run(bigInt, w, events) == Run(bigInt, Next(bigInt, w, events[0]), events[1..])
    decreases |events|
  {
    var n := |events| - 1;
    if n > 0 {
      FirstStep(bigInt, w, events[..n]);
      assert events[..n][1..] == events[1..][..n - 1];
    }
  }

  lemma OneDue(db: Db, id: Id, now: int)
    requires id in db.outbox
    ensures DueItems(db, [id], true, now) == [ItemOf(db, id)]
  {
    assert [id][..0] == [];
    assert DueItems(db, [], true, now) == [];
  }

  lemma QueuesTheRow(bigInt: BigInt, w: World, id: Id, now: int)
    requires OnlyRow(w, id, Pending)
    ensures var uploading := Next(bigInt, Next(bigInt, Next(bigInt, w, ReadStatus), MarkSyncing), ListOutbox([id], true, now));
            && uploading.driver.Uploading?
            && uploading.db.outbox == w.db.outbox
            && uploading.driver.queue == [ItemOf(uploading.db, id)]
  {
    var listing := Next(bigInt, Next(bigInt, w, ReadStatus), MarkSyncing);
    OneDue(listing.db, id, now);
  }

  lemma SendsTheRow(bigInt: BigInt, w: World, id: Id, now: int)
    requires w.driver.Uploading? && w.db.outbox.Keys == {id} && w.db.outbox[id].status == Pending
    requires w.driver.queue == [ItemOf(w.db, id)]
    ensures var awaiting := Next(bigInt, w, SendNext(now, true));
            && awaiting.driver.Awaiting? && awaiting.driver.queue == []
            && awaiting.db.outbox.Keys == {id} && awaiting.db.outbox[id].status == Sending
  {
  }

  lemma LosesTheRow(bigInt: BigInt, w: World, id: Id, now: int)
    requires w.driver.Awaiting? && w.db.outbox.Keys == {id} && w.db.outbox[id].status == Sending
    ensures OnlyRow(Steps(bigInt, w, LostSync(id, now)[4..]), id, Sending)
  {
    var all := LostSync(id, now);
    var failing := Next(bigInt, w, all[4]);
    var reporting := Next(bigInt, failing, all[5]);
    assert Steps(bigInt, w, all[4..]) == Steps(bigInt, failing, all[5..]) == Steps(bigInt, reporting, all[6..]);
    assert Steps(bigInt, reporting, all[6..]) == Next(bigInt, reporting, all[6]);
  }

  lemma LostSyncLeavesSending(bigInt: BigInt, w: World, id: Id, now: int)
    requires OnlyRow(w, id, Pending)
    ensures OnlyRow(Steps(bigInt, w, LostSync(id, now)), id, Sending)
  {
    QueuesTheRow(bigInt, w, id, now);
    var all := LostSync(id, now);
    var listing := Next(bigInt, Next(bigInt, w, ReadStatus), MarkSyncing);
    var uploading := Next(bigInt, listing, all[2]);
    SendsTheRow(bigInt, uploading, id, now);
    var awaiting := Next(bigInt, uploading, all[3]);
    assert Steps(bigInt, w, all) == Steps(bigInt, listing, all[2..]) == Steps(bigInt, uploading, all[3..])
           == Steps(bigInt, awaiting, all[4..]);
    LosesTheRow(bigInt, awaiting, id, now);
  }

  lemma NextSyncConnects(bigInt: BigInt, w: World, id: Id, now: int)
    requires OnlyRow(w, id, Sending)
    ensures var end := Steps(bigInt, w, NextSync(now));
            end.driver.Connecting? && id in end.db.outbox && end.db.outbox[id].status == Sending
  {
    var listing := Next(bigInt, Next(bigInt, w, ReadStatus), MarkSyncing);
    var uploading := Next(bigInt, listing, ListOutbox([], true, now));
    var all := NextSync(now);
    assert Steps(bigInt, w, all) == Steps(bigInt, listing, all[2..]) == Steps(bigInt, uploading, all[3..]);
    var rechecking := Next(bigInt, uploading, all[3]);
    assert Steps(bigInt, uploading, all[3..]) == Steps(bigInt, rechecking, all[4..]) == Next(bigInt, rechecking, all[4]);
  }

  /**
   * A sale can be overtaken by a pull: its request is lost, the record of that is lost, so the row stays in
   * sending, which no listing shows, and the next sync goes on to pull. Both listings are the true ones.
   */
  lemma StrandedRowIsOvertaken(bigInt: BigInt, w: World, id: Id, now: int)
    requires OnlyRow(w, id, Pending)
    ensures var lost := Run(bigInt, w, LostSync(id, now));
            var end := Run(bigInt, lost, NextSync(now));
            && LedgerRuns.IsOutboxListing(w.db, [id])
            && LedgerRuns.IsOutboxListing(lost.db, [])
            && end.driver.Connecting? && id in end.db.outbox && end.db.outbox[id].status == Sending
  {
    StepsIsRun(bigInt, w, LostSync(id, now));
    LostSyncLeavesSending(bigInt, w, id, now);
    var lost := Run(bigInt, w, LostSync(id, now));
    StepsIsRun(bigInt, lost, NextSync(now));
    NextSyncConnects(bigInt, lost, id, now);
    assert forall x <- w.db.outbox :: x == id;
    assert forall x <- lost.db.outbox :: x == id;
  }

  /** A sync whose only row is refused for good, with the record of the refusal lost. */
  function RefusedSync(id: Id, now: int): seq<Event> {
    [ReadStatus, MarkSyncing, ListOutbox([id], true, now), SendNext(now, true),
     Refuse(ApiError("SALE_CONFLICT", Some(409), None)), RecordFailed("", false), SendNext(now, true), Recheck([])]
  }

  lemma RefusalIsOvertaken(bigInt: BigInt, w: World, id: Id, now: int)
    requires w.driver.Awaiting? && w.driver.queue == [] && w.db.outbox.Keys == {id} && w.db.outbox[id].status == Sending
    ensures var end := Steps(bigInt, w, RefusedSync(id, now)[4..]);
            && end.driver.Connecting? && end.db.outbox.Keys == {id} && end.db.outbox[id].status == Sending
  {
    var all := RefusedSync(id, now);
    var failing := Next(bigInt, w, all[4]);
    var uploading := Next(bigInt, failing, all[5]);
    var rechecking := Next(bigInt, uploading, all[6]);
    assert Steps(bigInt, w, all[4..]) == Steps(bigInt, failing, all[5..]) == Steps(bigInt, uploading, all[6..]);
    assert Steps(bigInt, uploading, all[6..]) == Steps(bigInt, rechecking, all[7..]) == Next(bigInt, rechecking, all[7]);
  }

  /** The same sync can overtake a sale: one that is refused for good, with the record of the refusal lost. */
  lemma RefusedRowIsOvertaken(bigInt: BigInt, w: World, id: Id, now: int)
    requires OnlyRow(w, id, Pending)
    ensures var end := Run(bigInt, w, RefusedSync(id, now));
            end.driver.Connecting? && id in end.db.outbox && end.db.outbox[id].status == Sending
  {
    StepsIsRun(bigInt, w, RefusedSync(id, now));
    QueuesTheRow(bigInt, w, id, now);
    var all := RefusedSync(id, now);
    var listing := Next(bigInt, Next(bigInt, w, ReadStatus), MarkSyncing);
    var uploading := Next(bigInt, listing, all[2]);
    SendsTheRow(bigInt, uploading, id, now);
    var awaiting := Next(bigInt, uploading, all[3]);
    assert Steps(bigInt, w, all) == Steps(bigInt, listing, all[2..]) == Steps(bigInt, uploading, all[3..])
           == Steps(bigInt, awaiting, all[4..]);
    RefusalIsOvertaken(bigInt, awaiting, id, now);
  }
}
