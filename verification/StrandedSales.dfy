/**
 * Which sales a pull can overtake (pos-electron/src/sync.ts, lines 177 to 252): exactly those whose record of
 * a failed upload was lost since the last restart.
 */
module StrandedSales {
  import opened CatalogPull
  import opened Ledger
  import opened LocalDb
  import opened Outcome
  import opened SyncProtocol
  import opened SyncUploads
  import LedgerRuns
  import OfflineAccounting
  import SyncLimits
  import SyncSafety

  predicate HasInHand(d: Driver, id: Id) {
    (d.Awaiting? || d.Accepted? || d.Failing?) && d.item.id == id
  }

  predicate IsSending(db: Db, id: Id) {
    id in db.outbox && db.outbox[id].status == Sending
  }

  /** Marked as being sent, but nobody is sending it. */
  predicate IsStranded(w: World, id: Id) {
    IsSending(w.db, id) && !HasInHand(w.driver, id)
  }

  /** sync:mark_failed rejects for a row that is still marked as being sent; the driver ignores the rejection. */
  predicate LosesRecord(w: World, e: Event, id: Id) {
    e.RecordFailed? && !e.saved && w.driver.Failing? && w.driver.item.id == id && IsSending(w.db, id)
  }

  /** A record of the row's failure was lost, and the till has not restarted since. */
  predicate RecordLost(bigInt: BigInt, w: World, events: seq<Event>, id: Id) {
    if events == [] then IsStranded(w, id)
    else
      var front, last := events[..|events| - 1], events[|events| - 1];
      !last.Crash? && (RecordLost(bigInt, w, front, id) || LosesRecord(Run(bigInt, w, front), last, id))
  }

  /** The second listing finds nothing, so the sync goes on to pull. */
  predicate ReachesPull(bigInt: BigInt, w: World, e: Event) {
    e.Recheck? && w.driver.Rechecking? && Next(bigInt, w, e).driver.Connecting?
  }

  predicate Settled(row: OutboxRow) {
    IsSent(row) || row.status == Quarantined
  }

  // ---- One step ------------------------------------------------------------------------------------

  /** What a step makes of a stranded row. */
  ghost predicate StepStrands(bigInt: BigInt, w: World, e: Event, id: Id) {
    IsStranded(Next(bigInt, w, e), id) <==> !e.Crash? && (IsStranded(w, id) || LosesRecord(w, e, id))
  }

  lemma LocalStrandsNone(bigInt: BigInt, w: World, request: Request, id: Id)
    requires UploadInv(w)
    ensures StepStrands(bigInt, w, Local(request), id)
  {
    if request.DoSell? || request.DoAlign? {
      LocalAddsPendingPairs(w.db, request);
    }
  }

  lemma RestartSendsNothing(db: Db, highest: string, context: Option<OfflineAccounting.Context>, id: Id)
    requires Inv(db) && IsHighestStored(db, highest)
    ensures !IsSending(LedgerRuns.Next(db, LedgerRuns.Restart(highest, context)), id)
  {
    RecoverEstablishesInv(db, highest, context);
  }

  lemma CrashStrandsNone(bigInt: BigInt, w: World, highest: string, context: Option<OfflineAccounting.Context>, id: Id)
    requires Inv(w.db) && IsHighestStored(w.db, highest)
    ensures !IsStranded(Next(bigInt, w, Crash(highest, context)), id)
  {
    RestartSendsNothing(w.db, highest, context, id);
  }

  lemma SendStrandsNone(bigInt: BigInt, w: World, now: int, saved: bool, id: Id)
    requires w.driver.Uploading? && QueueOk(w.db, w.driver.queue)
    ensures StepStrands(bigInt, w, SendNext(now, saved), id)
  {
    if w.driver.queue != [] {
      assert StillListed(w.db, w.driver.queue[0]);
    }
  }

  lemma AnswerStrandsNone(bigInt: BigInt, w: World, e: Event, id: Id)
    requires e.Deliver? || e.Reply? || e.Refuse? || e.ListOutbox?
    ensures StepStrands(bigInt, w, e, id)
  {
  }

  lemma RecordStrands(bigInt: BigInt, w: World, e: Event, id: Id)
    requires e.RecordSent? || e.RecordFailed?
    requires w.driver.Accepted? || w.driver.Failing? ==> w.driver.item.id in w.db.outbox
    ensures StepStrands(bigInt, w, e, id)
  {
  }

  lemma CatalogStrandsNone(bigInt: BigInt, w: World, e: Event, id: Id)
    requires IsCatalogStep(e)
    ensures StepStrands(bigInt, w, e, id)
  {
  }

  lemma NextStrands(bigInt: BigInt, w: World, e: Event, id: Id)
    requires Inv(w.db) && UploadInv(w) && Legal(w, e)
    ensures StepStrands(bigInt, w, e, id)
  {
    match e
    case Local(request) => LocalStrandsNone(bigInt, w, request, id);
    case Crash(highest, context) => CrashStrandsNone(bigInt, w, highest, context, id);
    case SendNext(now, saved) =>
      if w.driver.Uploading? {
        SendStrandsNone(bigInt, w, now, saved, id);
      }
    case RecordSent(_) => RecordStrands(bigInt, w, e, id);
    case RecordFailed(_, _) => RecordStrands(bigInt, w, e, id);
    case Deliver(_, _) => AnswerStrandsNone(bigInt, w, e, id);
    case Reply(_) => AnswerStrandsNone(bigInt, w, e, id);
    case Refuse(_) => AnswerStrandsNone(bigInt, w, e, id);
    case ListOutbox(_, _, _) => AnswerStrandsNone(bigInt, w, e, id);
    case _ => CatalogStrandsNone(bigInt, w, e, id);
  }

  // ---- Runs ----------------------------------------------------------------------------------------

  /** In every run, the stranded rows are those whose record was lost since the last restart. */
  lemma {:induction false} StrandedIffRecordLost(bigInt: BigInt, w: World, events: seq<Event>, id: Id)
    requires Inv(w.db) && UploadInv(w) && LegalRun(bigInt, w, events)
    ensures IsStranded(Run(bigInt, w, events), id) <==> RecordLost(bigInt, w, events, id)
  {
    if events != [] {
      var n := |events| - 1;
      var front := events[..n];
      SyncSafety.PrefixIsLegal(bigInt, w, events, n);
      StrandedIffRecordLost(bigInt, w, front, id);
      SyncSafety.LedgerIsKept(bigInt, w, front, n);
      assert front[..n] == front;
      SyncSafety.UploadsAreKept(bigInt, w, front, n);
      assert Legal(Run(bigInt, w, events[..n]), events[n]);
      NextStrands(bigInt, Run(bigInt, w, front), events[n], id);
    }
  }

  lemma UnsettledWhenNothingPending(w: World, id: Id)
    requires w.driver.Rechecking? && id in w.db.outbox && w.db.outbox[id].status != Pending
    ensures !Settled(w.db.outbox[id]) <==> IsStranded(w, id)
  {
  }

  /**
   * A sync goes on to pull exactly when no row is pending, and then the sales it overtakes are exactly those
   * whose record of a failure was lost since the last restart: every other row is sent or quarantined.
   */
  lemma PullOvertakesLostRecords(bigInt: BigInt, w: World, events: seq<Event>, ids: seq<Id>)
    requires Inv(w.db) && UploadInv(w) && LegalRun(bigInt, w, events)
    requires Run(bigInt, w, events).driver.Rechecking? && Legal(Run(bigInt, w, events), Recheck(ids))
    ensures var end := Run(bigInt, w, events);
            && (ReachesPull(bigInt, end, Recheck(ids)) <==> forall id <- end.db.outbox :: end.db.outbox[id].status != Pending)
            && (ReachesPull(bigInt, end, Recheck(ids)) ==>
                  forall id <- end.db.outbox :: !Settled(end.db.outbox[id]) <==> RecordLost(bigInt, w, events, id))
  {
    var end := Run(bigInt, w, events);
    SyncLimits.PullReachedIffNothingPending(bigInt, end, ids);
    if ReachesPull(bigInt, end, Recheck(ids)) {
      forall id | id in end.db.outbox
        ensures !Settled(end.db.outbox[id]) <==> RecordLost(bigInt, w, events, id)
      {
        assert id in ids <==> end.db.outbox[id].status == Pending;
        UnsettledWhenNothingPending(end, id);
        StrandedIffRecordLost(bigInt, w, events, id);
      }
    }
  }

  /** Every pull of the run starts with every sale settled. */
  ghost predicate PullsAreSettled(bigInt: BigInt, w: World, events: seq<Event>) {
    forall k | 0 <= k < |events| && ReachesPull(bigInt, Run(bigInt, w, events[..k]), events[k]) ::
      forall id <- Run(bigInt, w, events[..k]).db.outbox :: Settled(Run(bigInt, w, events[..k]).db.outbox[id])
  }

  /** No pull of the run finds a record lost since the last restart. */
  ghost predicate NoRecordLostAtPulls(bigInt: BigInt, w: World, events: seq<Event>) {
    forall k | 0 <= k < |events| && ReachesPull(bigInt, Run(bigInt, w, events[..k]), events[k]) ::
      forall id <- Run(bigInt, w, events[..k]).db.outbox :: !RecordLost(bigInt, w, events[..k], id)
  }

  /** "No pull before every local sale is settled" holds of a run exactly when no pull finds a lost record. */
  lemma PullsAreSettledIffNoRecordLost(bigInt: BigInt, w: World, events: seq<Event>)
    requires Inv(w.db) && UploadInv(w) && LegalRun(bigInt, w, events)
    ensures PullsAreSettled(bigInt, w, events) <==> NoRecordLostAtPulls(bigInt, w, events)
  {
    forall k | 0 <= k < |events| && ReachesPull(bigInt, Run(bigInt, w, events[..k]), events[k])
      ensures forall id <- Run(bigInt, w, events[..k]).db.outbox ::
                Settled(Run(bigInt, w, events[..k]).db.outbox[id]) <==> !RecordLost(bigInt, w, events[..k], id)
    {
      SyncSafety.PrefixIsLegal(bigInt, w, events, k);
      assert Legal(Run(bigInt, w, events[..k]), events[k]);
      PullOvertakesLostRecords(bigInt, w, events[..k], events[k].ids);
    }
  }

  /** While every record of a failure is kept, nothing is ever stranded. */
  lemma {:induction false} KeptRecordsStrandNothing(bigInt: BigInt, w: World, events: seq<Event>, id: Id)
    requires !IsStranded(w, id)
    requires forall k | 0 <= k < |events| :: !LosesRecord(Run(bigInt, w, events[..k]), events[k], id)
    ensures !RecordLost(bigInt, w, events, id)
  {
    if events != [] {
      var n := |events| - 1;
      assert forall k | 0 <= k <= n :: events[..n][..k] == events[..k];
      KeptRecordsStrandNothing(bigInt, w, events[..n], id);
    }
  }

  /** A lost record stays lost until the till restarts, so every pull until then overtakes its sale. */
  lemma {:induction false} LostUntilRestart(bigInt: BigInt, w: World, events: seq<Event>, i: nat, id: Id)
    requires i <= |events| && RecordLost(bigInt, w, events[..i], id)
    requires forall k | i <= k < |events| :: !events[k].Crash?
    ensures RecordLost(bigInt, w, events, id)
  {
    if i == |events| {
      assert events[..i] == events;
    } else {
      var n := |events| - 1;
      assert events[..n][..i] == events[..i];
      LostUntilRestart(bigInt, w, events[..n], i, id);
    }
  }
}
