/**
 * The price book lifecycle with clients interleaving (backend/src/pricing/price-book.service.ts, lines 113 to
 * 223): approve and activate read the book first, and other calls may come before their guarded write. A
 * transaction is one atomic step.
 */
module PriceBookClients {
  import opened Outcome
  import opened PriceBooks

  type ClientId = nat

  datatype World = World(b: Books, seen: map<ClientId, Seen>)

  datatype Event =
    | Single(call: Call)
    | Read(client: ClientId, id: BookId)
    | ApproveSeen(client: ClientId, actor: Actor)
    | ActivateSeen(client: ClientId, actor: Actor)

  predicate SignedBy(row: Book, actor: Actor) {
    row.creator == Some(actor) || row.submitter == Some(actor)
  }

  function WithBooks(w: World, r: Result<Books, BookError>): Result<World, BookError> {
    match r
    case Ok(b) => Ok(w.(b := b))
    case Err(e) => Err(e)
  }

  function Act(w: World, e: Event): Result<World, BookError> {
    match e
    case Single(c) => if IsSingle(c) then WithBooks(w, Step(w.b, c)) else Ok(w)
    case Read(client, id) =>
      if id in w.b.rows then Ok(w.(seen := w.seen[client := Seen(id, w.b.rows[id])])) else Err(NotFound)
    case ApproveSeen(client, actor) =>
      if client !in w.seen then Ok(w)
      else
        var seen := w.seen[client];
        if SignedBy(seen.row, actor) then Err(SelfApprovalForbidden)
        else if seen.id !in w.b.rows then Err(NotFound)
        else WithBooks(w, Transition(w.b, seen.id, Submitted,
                                     w.b.rows[seen.id].(status := Approved, approver := Some(actor))))
    case ActivateSeen(client, actor) =>
      if client !in w.seen then Ok(w)
      else if w.seen[client].row.status != Scheduled then Err(InvalidTransition)
      else WithBooks(w, ActivateTransaction(w.b, w.seen[client]))
  }

  /** A refused step changes nothing. */
  function After(w: World, e: Event): World {
    match Act(w, e)
    case Ok(after) => after
    case Err(_) => w
  }

  function RunAll(w: World, events: seq<Event>): World {
    if events == [] then w else After(RunAll(w, events[..|events| - 1]), events[|events| - 1])
  }

  // ---- Invariant -----------------------------------------------------------------------------------

  ghost predicate WorldInv(w: World) {
    && SharedInv(w.b)
    && forall c <- w.seen :: w.seen[c].id in w.b.rows && Signed(w.seen[c].row) && Later(w.seen[c].row, w.b.rows[w.seen[c].id])
  }

  lemma ApprovalKeepsShared(w: World, client: ClientId, actor: Actor)
    requires WorldInv(w) && client in w.seen && Act(w, ApproveSeen(client, actor)).Ok?
    ensures SharedInv(After(w, ApproveSeen(client, actor)).b) && AllLater(w.b, After(w, ApproveSeen(client, actor)).b)
  {
    var id := w.seen[client].id;
    SignKeepsShared(w.b, id, w.b.rows[id].(status := Approved, approver := Some(actor)));
  }

  /** What clients read stays true when rows move on. */
  lemma SeenStaysTrue(w: World, b: Books)
    requires WorldInv(w) && SharedInv(b) && AllLater(w.b, b)
    ensures WorldInv(w.(b := b))
  {
  }

  lemma ActivationKeepsShared(w: World, client: ClientId, actor: Actor)
    requires WorldInv(w) && client in w.seen && Act(w, ActivateSeen(client, actor)).Ok?
    ensures SharedInv(After(w, ActivateSeen(client, actor)).b) && AllLater(w.b, After(w, ActivateSeen(client, actor)).b)
  {
    ActivationIsGuarded(w.b, w.seen[client]);
  }

  lemma ActKeeps(w: World, e: Event)
    requires WorldInv(w)
    ensures WorldInv(After(w, e)) && AllLater(w.b, After(w, e).b)
  {
    match e
    case Read(_, _) =>
    case Single(c) =>
      if IsSingle(c) && Step(w.b, c).Ok? {
        SingleKeepsShared(w.b, c);
        SeenStaysTrue(w, After(w, e).b);
      }
    case ApproveSeen(client, actor) =>
      if client in w.seen && Act(w, e).Ok? {
        ApprovalKeepsShared(w, client, actor);
        SeenStaysTrue(w, After(w, e).b);
      }
    case ActivateSeen(client, actor) =>
      if client in w.seen && Act(w, e).Ok? {
        ActivationKeepsShared(w, client, actor);
        SeenStaysTrue(w, After(w, e).b);
      }
  }

  lemma {:induction false} RunKeepsWorldInv(w: World, events: seq<Event>)
    requires WorldInv(w)
    ensures WorldInv(RunAll(w, events))
  {
    if events != [] {
      RunKeepsWorldInv(w, events[..|events| - 1]);
      ActKeeps(RunAll(w, events[..|events| - 1]), events[|events| - 1]);
    }
  }

  /**
   * What any interleaving keeps: status never moves back and signatures are never rewritten, no book is approved
   * by its creator, and no group has two active defaults.
   */
  lemma {:induction false} InterleavedRunIsControlled(w: World, events: seq<Event>)
    requires WorldInv(w)
    ensures var v := RunAll(w, events);
            && WorldInv(v)
            && AllLater(w.b, v.b)
            && (forall id <- v.b.rows | Rank(v.b.rows[id].status) >= Rank(Approved) ::
                  v.b.rows[id].approver.Some? && v.b.rows[id].approver != v.b.rows[id].creator)
            && (forall x, y, group | ActiveDefault(v.b, x, group) && ActiveDefault(v.b, y, group) :: x == y)
  {
    if events != [] {
      var front := events[..|events| - 1];
      InterleavedRunIsControlled(w, front);
      ActKeeps(RunAll(w, front), events[|events| - 1]);
    }
  }

  // ---- Self-approval -------------------------------------------------------------------------------

  /** The approver read the book as a draft and has submitted it since. */
  predicate StaleApproval(w: World, e: Event) {
    && e.ApproveSeen? && e.client in w.seen && Act(w, e).Ok?
    && w.seen[e.client].row.status == Draft
    && w.seen[e.client].id in w.b.rows
    && w.b.rows[w.seen[e.client].id].submitter == Some(e.actor)
  }

  /** Exactly when an approval makes a book self-approved. */
  lemma SelfApprovalIffStale(w: World, e: Event)
    requires WorldInv(w) && e.ApproveSeen? && e.client in w.seen && Act(w, e).Ok?
    ensures SelfApproved(After(w, e).b.rows[w.seen[e.client].id]) <==> StaleApproval(w, e)
  {
  }

  lemma ActKeepsSeparation(w: World, e: Event)
    requires WorldInv(w)
    ensures NoneSelfApproved(After(w, e).b) <==> NoneSelfApproved(w.b) && !StaleApproval(w, e)
  {
    ActKeeps(w, e);
    var after := After(w, e).b;
    if e.ApproveSeen? && e.client in w.seen && Act(w, e).Ok? {
      SelfApprovalIffStale(w, e);
      var id := w.seen[e.client].id;
      assert forall x <- w.b.rows | x != id :: after.rows[x] == w.b.rows[x];
      assert !SelfApproved(w.b.rows[id]);
    } else {
      OthersKeepSeparation(w, e);
    }
  }

  lemma OthersKeepSeparation(w: World, e: Event)
    requires WorldInv(w) && !(e.ApproveSeen? && e.client in w.seen && Act(w, e).Ok?)
    ensures NoneSelfApproved(After(w, e).b) <==> NoneSelfApproved(w.b)
  {
    if Act(w, e).Ok? {
      match e
      case Single(c) =>
        if IsSingle(c) {
          SingleKeepsSeparation(w.b, c);
        }
      case ActivateSeen(client, actor) =>
        if client in w.seen {
          ActivationKeepsSeparation(w.b, w.seen[client]);
        }
      case _ =>
    }
  }

  ghost predicate NoStaleApproval(w: World, events: seq<Event>) {
    forall k | 0 <= k < |events| :: !StaleApproval(RunAll(w, events[..k]), events[k])
  }

  lemma NoStaleApprovalBefore(w: World, events: seq<Event>)
    requires events != [] && NoStaleApproval(w, events)
    ensures var front := events[..|events| - 1];
            NoStaleApproval(w, front) && !StaleApproval(RunAll(w, front), events[|events| - 1])
  {
    var n := |events| - 1;
    assert !StaleApproval(RunAll(w, events[..n]), events[n]);
    forall k | 0 <= k < n ensures !StaleApproval(RunAll(w, events[..n][..k]), events[..n][k]) {
      assert events[..n][..k] == events[..k];
      assert !StaleApproval(RunAll(w, events[..k]), events[k]);
    }
  }

  lemma NoStaleApprovalSoFar(w: World, events: seq<Event>)
    requires events != [] && NoStaleApproval(w, events[..|events| - 1])
    requires !StaleApproval(RunAll(w, events[..|events| - 1]), events[|events| - 1])
    ensures NoStaleApproval(w, events)
  {
    var n := |events| - 1;
    forall k | 0 <= k < |events| ensures !StaleApproval(RunAll(w, events[..k]), events[k]) {
      if k < n {
        assert events[..n][..k] == events[..k];
        assert !StaleApproval(RunAll(w, events[..n][..k]), events[..n][k]);
      }
    }
  }

  /**
   * "Neither the creator nor the submitter may approve" holds of a run's books exactly when no approval of the run
   * used a read from before the approver's own submission.
   */
  lemma {:induction false} SeparationIffNoStaleApproval(w: World, events: seq<Event>)
    requires WorldInv(w) && NoneSelfApproved(w.b)
    ensures NoneSelfApproved(RunAll(w, events).b) <==> NoStaleApproval(w, events)
  {
    if events != [] {
      var front := events[..|events| - 1];
      SeparationIffNoStaleApproval(w, front);
      RunKeepsWorldInv(w, front);
      ActKeepsSeparation(RunAll(w, front), events[|events| - 1]);
      if NoStaleApproval(w, events) {
        NoStaleApprovalBefore(w, events);
      }
      if NoStaleApproval(w, front) && !StaleApproval(RunAll(w, front), events[|events| - 1]) {
        NoStaleApprovalSoFar(w, events);
      }
    }
  }

  /** The run: read the draft, submit it, approve it on the strength of the old read. */
  lemma SubmitterCanApprove(group: Group, creator: Actor, actor: Actor)
    requires creator != actor
    ensures var end := RunAll(World(Books(map[], map[]), map[]),
                              [Single(Create(creator, 1, group, false)), Read(0, 1), Single(Submit(actor, 1)),
                               ApproveSeen(0, actor)]);
            1 in end.b.rows && end.b.rows[1].status == Approved && SelfApproved(end.b.rows[1])
  {
    var start := World(Books(map[], map[]), map[]);
    var events := [Single(Create(creator, 1, group, false)), Read(0, 1), Single(Submit(actor, 1)), ApproveSeen(0, actor)];
    var created := After(start, events[0]);
    var seen := After(created, events[1]);
    var submitted := After(seen, events[2]);
    assert submitted.seen[0].row.submitter == None && submitted.b.rows[1].submitter == Some(actor);
    assert events[..3][..2] == events[..2] && events[..2][..1] == events[..1] && events[..1][..0] == [];
    assert RunAll(start, events[..1]) == created;
    assert RunAll(start, events[..2]) == seen;
    assert RunAll(start, events[..3]) == submitted;
  }

  // ---- The source's statements ---------------------------------------------------------------------

  /** The columns a transition writes beside the status. */
  datatype Change = Change(status: Status, submitter: Option<Actor>, approver: Option<Actor>, dropDefault: bool)

  function Apply(row: Book, change: Change): Book {
    row.(status := change.status,
         submitter := if change.submitter.Some? then change.submitter else row.submitter,
         approver := if change.approver.Some? then change.approver else row.approver,
         isDefault := row.isDefault && !change.dropDefault)
  }

  class PriceBookTable {
    var b: Books

    constructor ()
      ensures SharedInv(b) && b.rows == map[]
    {
      b := Books(map[], map[]);
    }

    /** Other clients run; InterleavedRunIsControlled says what that keeps. */
    method Await()
      requires SharedInv(b)
      modifies this
      ensures SharedInv(b) && AllLater(old(b), b)
    {
    }

    /** One updateMany guarded by id and status; the row leaves the index of active defaults with its status. */
    method UpdateMany(id: BookId, from: Status, change: Change) returns (count: nat)
      requires change.status != Active
      modifies this
      ensures count == if id in old(b).rows && old(b).rows[id].status == from then 1 else 0
      ensures count == 0 ==> b == old(b)
      ensures count == 1 ==>
                && b.rows == old(b).rows[id := Apply(old(b).rows[id], change)]
                && b.defaults == if old(b).rows[id].isDefault && from == Active
                                 then old(b).defaults - {old(b).rows[id].group} else old(b).defaults
    {
      count := 0;
      if id in b.rows && b.rows[id].status == from {
        var row := b.rows[id];
        b := b.(rows := b.rows[id := Apply(row, change)]);
        if row.isDefault && row.status == Active {
          b := b.(defaults := b.defaults - {row.group});
        }
        count := 1;
      }
    }

    /** transition: the guarded write, and on a count other than one a second read to name the error. */
    method TransitionBook(id: BookId, from: Status, change: Change) returns (r: Result<(), BookError>)
      requires change.status != Active
      modifies this
      ensures r.Ok? <==> id in old(b).rows && old(b).rows[id].status == from
      ensures r.Ok? ==>
                && b.rows == old(b).rows[id := Apply(old(b).rows[id], change)]
                && b.defaults == if old(b).rows[id].isDefault && from == Active
                                 then old(b).defaults - {old(b).rows[id].group} else old(b).defaults
      ensures r.Err? ==> b == old(b) && r.error == if id in old(b).rows then InvalidTransition else NotFound
    {
      var count := UpdateMany(id, from, change);
      if count != 1 {
        if id !in b.rows {
          return Err(NotFound);
        }
        return Err(InvalidTransition);
      }
      return Ok(());
    }

    method SubmitBook(actor: Actor, id: BookId) returns (r: Result<(), BookError>)
      requires SharedInv(b)
      modifies this
      ensures b == Next(old(b), Submit(actor, id)) && SharedInv(b) && AllLater(old(b), b)
      ensures r.Ok? <==> Step(old(b), Submit(actor, id)).Ok?
      ensures r.Err? ==> Step(old(b), Submit(actor, id)) == Err(r.error)
    {
      if Step(b, Submit(actor, id)).Ok? {
        SingleKeepsShared(b, Submit(actor, id));
      }
      r := TransitionBook(id, Draft, Change(Submitted, Some(actor), None, false));
    }

    method ScheduleBook(actor: Actor, id: BookId) returns (r: Result<(), BookError>)
      requires SharedInv(b)
      modifies this
      ensures b == Next(old(b), Schedule(actor, id)) && SharedInv(b) && AllLater(old(b), b)
      ensures r.Ok? <==> Step(old(b), Schedule(actor, id)).Ok?
      ensures r.Err? ==> Step(old(b), Schedule(actor, id)) == Err(r.error)
    {
      if Step(b, Schedule(actor, id)).Ok? {
        SingleKeepsShared(b, Schedule(actor, id));
      }
      r := TransitionBook(id, Approved, Change(Scheduled, None, None, false));
    }

    method EndBook(actor: Actor, id: BookId) returns (r: Result<(), BookError>)
      requires SharedInv(b)
      modifies this
      ensures b == Next(old(b), End(actor, id)) && SharedInv(b) && AllLater(old(b), b)
      ensures r.Ok? <==> Step(old(b), End(actor, id)).Ok?
      ensures r.Err? ==> Step(old(b), End(actor, id)) == Err(r.error)
    {
      if Step(b, End(actor, id)).Ok? {
        SingleKeepsShared(b, End(actor, id));
      }
      r := TransitionBook(id, Active, Change(Ended, None, None, true));
    }

    /**
     * approve: read, check the actor against what was read, then the guarded write, with others running in
     * between. The approver is never the creator, and not the submitter either unless it read a draft.
     */
    method ApproveBook(actor: Actor, id: BookId) returns (r: Result<(), BookError>)
      requires SharedInv(b)
      modifies this
      ensures SharedInv(b) && AllLater(old(b), b)
      ensures id !in old(b).rows ==> r == Err(NotFound) && b == old(b)
      ensures id in old(b).rows && SignedBy(old(b).rows[id], actor) ==> r == Err(SelfApprovalForbidden) && b == old(b)
      ensures r.Ok? ==>
                && id in old(b).rows && id in b.rows
                && b.rows[id].status == Approved && b.rows[id].approver == Some(actor) != b.rows[id].creator
                && (SelfApproved(b.rows[id]) ==> old(b).rows[id].status == Draft)
    {
      if id !in b.rows {
        return Err(NotFound);
      }
      var book := b.rows[id];
      if book.creator == Some(actor) {
        return Err(SelfApprovalForbidden);
      }
      if book.submitter == Some(actor) {
        return Err(SelfApprovalForbidden);
      }
      Await();
      ghost var waited := b;
      if b.rows[id].status == Submitted {
        SignKeepsShared(b, id, b.rows[id].(status := Approved, approver := Some(actor)));
      }
      r := TransitionBook(id, Submitted, Change(Approved, None, Some(actor), false));
      if r.Ok? {
        assert b.rows == waited.rows[id := waited.rows[id].(status := Approved, approver := Some(actor))];
        assert b == waited.(rows := b.rows);
      }
    }

    /**
     * activate: read and check the status, then in one transaction end the default found by that read and
     * activate under the guard. It never meets the index, and ends one default exactly when it starts another.
     */
    method ActivateBook(actor: Actor, id: BookId) returns (r: Result<(), BookError>)
      requires SharedInv(b)
      modifies this
      ensures SharedInv(b) && AllLater(old(b), b)
      ensures id !in old(b).rows ==> r == Err(NotFound) && b == old(b)
      ensures id in old(b).rows && r.Err? ==> r.error == InvalidTransition
      ensures r.Ok? ==>
                && id in old(b).rows && old(b).rows[id].status == Scheduled
                && id in b.rows && b.rows[id].status == Active
                && (b.rows[id].isDefault ==> ActiveDefault(b, id, old(b).rows[id].group))
    {
      if id !in b.rows {
        return Err(NotFound);
      }
      var book := b.rows[id];
      if book.status != Scheduled {
        return Err(InvalidTransition);
      }
      Await();
      ghost var waited := b;
      r := RunActivation(id, book);
      LaterTransitive(old(b), waited, b);
    }

    /** The transaction's statements; a throw rolls them back. */
    method RunActivation(id: BookId, book: Book) returns (r: Result<(), BookError>)
      requires SharedInv(b) && id in b.rows && Later(book, b.rows[id])
      modifies this
      ensures SharedInv(b) && AllLater(old(b), b)
      ensures r.Ok? ==>
                && ActivateTransaction(old(b), Seen(id, book)) == Ok(b)
                && id in b.rows && b.rows[id].status == Active
                && (b.rows[id].isDefault ==> ActiveDefault(b, id, book.group))
      ensures r.Err? ==> b == old(b) && ActivateTransaction(b, Seen(id, book)) == Err(r.error) && r.error == InvalidTransition
    {
      ActivationIsGuarded(b, Seen(id, book));
      var before := b;
      if book.isDefault && book.group in b.defaults && b.defaults[book.group] != id {
        var previousDefault := b.defaults[book.group];
        assert ActiveDefault(b, previousDefault, book.group);
        b := Books(b.rows[previousDefault := b.rows[previousDefault].(status := Ended, isDefault := false)],
                   b.defaults - {book.group});
      }
      if b.rows[id].status != Scheduled {
        b := before;
        return Err(InvalidTransition);
      }
      var row := b.rows[id];
      b := b.(rows := b.rows[id := row.(status := Active)]);
      if row.isDefault {
        b := b.(defaults := b.defaults[row.group := id]);
      }
      return Ok(());
    }
  }
}
