/** The order in which one sync sends its rows (pos-electron/src/sync.ts, lines 162 to 176). */
module SyncOrder {
  import opened CatalogPull
  import opened Decimals
  import opened Ledger
  import opened LocalDb
  import opened SyncProtocol
  import opened SyncUploads
  import LedgerRuns
  import SyncSafety

  /** The step takes a row from the queue and sends it. */
  predicate SendsRow(w: World, e: Event) {
    e.SendNext? && w.driver.Uploading? && w.driver.queue != []
  }

  function SentRow(w: World): Item
    requires w.driver.Uploading? && w.driver.queue != []
  {
    w.driver.queue[0]
  }

  /** Everything left in the queue comes after this row. */
  ghost predicate Behind(d: Driver, sent: Item) {
    UploadState(d) ==>
      forall k | 0 <= k < |d.queue| :: d.queue[k].id != sent.id && LedgerRuns.OrderedBefore(sent.row, d.queue[k].row)
  }

  lemma SendingPutsTheRestBehind(bigInt: BigInt, w: World, e: Event)
    requires SendsRow(w, e) && QueueOk(w.db, w.driver.queue)
    ensures Behind(Next(bigInt, w, e).driver, SentRow(w))
  {
    var queue, rest := w.driver.queue, w.driver.queue[1..];
    assert forall k | 0 <= k < |rest| :: rest[k] == queue[k + 1];
  }

  lemma CatalogStepsKeepBehind(bigInt: BigInt, w: World, e: Event, sent: Item)
    requires IsCatalogStep(e) && Behind(w.driver, sent)
    ensures Behind(Next(bigInt, w, e).driver, sent)
  {
    CatalogStepsLeaveRows(bigInt, w, e);
  }

  /** Only a new listing brings rows back. */
  lemma StepKeepsBehind(bigInt: BigInt, w: World, e: Event, sent: Item)
    requires !e.ListOutbox? && Behind(w.driver, sent)
    ensures Behind(Next(bigInt, w, e).driver, sent)
  {
    if IsCatalogStep(e) {
      CatalogStepsKeepBehind(bigInt, w, e, sent);
    } else if SendsRow(w, e) {
      var queue, rest := w.driver.queue, w.driver.queue[1..];
      assert forall k | 0 <= k < |rest| :: rest[k] == queue[k + 1];
    }
  }

  lemma {:induction false} RunKeepsBehind(bigInt: BigInt, w: World, events: seq<Event>, i: nat, j: nat, sent: Item)
    requires i <= j <= |events| && Behind(Run(bigInt, w, events[..i]).driver, sent)
    requires forall k | i <= k < j :: !events[k].ListOutbox?
    ensures Behind(Run(bigInt, w, events[..j]).driver, sent)
    decreases j
  {
    if i < j {
      RunKeepsBehind(bigInt, w, events, i, j - 1, sent);
      assert events[..j][..j - 1] == events[..j - 1];
      StepKeepsBehind(bigInt, Run(bigInt, w, events[..j - 1]), events[j - 1], sent);
    }
  }

  lemma OrderedRowsAscend(before: Db, after: Db, a: Item, b: Item)
    requires Inv(before) && Inv(after) && Keeps(before, after)
    requires StillListed(before, a) && StillListed(after, b)
    requires a.id != b.id && LedgerRuns.OrderedBefore(a.row, b.row)
    requires LedgerRuns.OutboxSequence(a.row) != "" && LedgerRuns.OutboxSequence(b.row) != ""
    ensures SequenceValue(LedgerRuns.OutboxSequence(a.row)) < SequenceValue(LedgerRuns.OutboxSequence(b.row))
  {
    assert SaleKept(before, a.id) && SaleKept(after, b.id);
    assert Seq(after, a.id) == Seq(before, a.id) == LedgerRuns.OutboxSequence(a.row);
    assert Seq(after, b.id) == LedgerRuns.OutboxSequence(b.row);
    SequenceOrderIsNumeric(Seq(after, a.id), Seq(after, b.id));
  }

  lemma SentRowIsListed(bigInt: BigInt, start: World, events: seq<Event>, i: nat)
    requires Initial(start) && LegalRun(bigInt, start, events) && i < |events|
    requires SendsRow(Run(bigInt, start, events[..i]), events[i])
    ensures var w := Run(bigInt, start, events[..i]);
            QueueOk(w.db, w.driver.queue) && StillListed(w.db, SentRow(w))
  {
    SyncSafety.InitialIsSafe(start);
    SyncSafety.PrefixIsLegal(bigInt, start, events, i);
    SyncSafety.UploadsAreKept(bigInt, start, events[..i], i);
  }

  lemma EarlierSalesAreKept(bigInt: BigInt, start: World, events: seq<Event>, i: nat, j: nat)
    requires Inv(start.db) && LegalRun(bigInt, start, events) && i <= j <= |events|
    ensures var before, after := Run(bigInt, start, events[..i]).db, Run(bigInt, start, events[..j]).db;
            Inv(before) && Inv(after) && Keeps(before, after)
  {
    SyncSafety.PrefixIsLegal(bigInt, start, events, j);
    SyncSafety.LedgerIsKept(bigInt, start, events[..j], i);
    assert events[..j][..i] == events[..i];
  }

  lemma LaterSendIsBehind(bigInt: BigInt, start: World, events: seq<Event>, i: nat, j: nat)
    requires i < j < |events|
    requires forall k | i < k < j :: !events[k].ListOutbox?
    requires SendsRow(Run(bigInt, start, events[..i]), events[i]) && SendsRow(Run(bigInt, start, events[..j]), events[j])
    requires QueueOk(Run(bigInt, start, events[..i]).db, Run(bigInt, start, events[..i]).driver.queue)
    ensures var a, b := SentRow(Run(bigInt, start, events[..i])), SentRow(Run(bigInt, start, events[..j]));
            a.id != b.id && LedgerRuns.OrderedBefore(a.row, b.row)
  {
    var v := Run(bigInt, start, events[..i]);
    SendingPutsTheRestBehind(bigInt, v, events[i]);
    assert events[..i + 1][..i] == events[..i];
    RunKeepsBehind(bigInt, start, events, i + 1, j, SentRow(v));
  }

  /**
   * Within one sync, two sends anywhere in the run are of different sales, and the later one has the greater
   * terminal sequence.
   */
  lemma SendsAscend(bigInt: BigInt, start: World, events: seq<Event>, i: nat, j: nat)
    requires Initial(start) && LegalRun(bigInt, start, events) && i < j < |events|
    requires forall k | i < k < j :: !events[k].ListOutbox?
    requires SendsRow(Run(bigInt, start, events[..i]), events[i]) && SendsRow(Run(bigInt, start, events[..j]), events[j])
    ensures var a, b := SentRow(Run(bigInt, start, events[..i])), SentRow(Run(bigInt, start, events[..j]));
            && a.id != b.id
            && (LedgerRuns.OutboxSequence(a.row) != "" && LedgerRuns.OutboxSequence(b.row) != "" ==>
                  SequenceValue(LedgerRuns.OutboxSequence(a.row)) < SequenceValue(LedgerRuns.OutboxSequence(b.row)))
  {
    SentRowIsListed(bigInt, start, events, i);
    SentRowIsListed(bigInt, start, events, j);
    LaterSendIsBehind(bigInt, start, events, i, j);
    var v, w := Run(bigInt, start, events[..i]), Run(bigInt, start, events[..j]);
    if LedgerRuns.OutboxSequence(SentRow(v).row) != "" && LedgerRuns.OutboxSequence(SentRow(w).row) != "" {
      EarlierSalesAreKept(bigInt, start, events, i, j);
      OrderedRowsAscend(v.db, w.db, SentRow(v), SentRow(w));
    }
  }
}
