/**
 * The price book lifecycle (backend/src/pricing/price-book.service.ts, lines 113 to 223, and
 * price-book.repository.ts, lines 85 to 162), over calls that run one after another. PriceBookClients has the
 * statements and the interleaved calls.
 */
module PriceBooks {
  import opened Outcome

  type BookId = nat
  type Actor = string

  datatype Status = Draft | Submitted | Approved | Scheduled | Active | Ended

  /** (currency, scope, scope reference): at most one active default book each. */
  datatype Group = Group(currency: string, scope: string, scopeRef: string)

  datatype Book = Book(
    status: Status,
    group: Group,
    isDefault: bool,
    creator: Option<Actor>,
    submitter: Option<Actor>,
    approver: Option<Actor>)

  /** `defaults` is the partial unique index PriceBook_one_default_per_scope. */
  datatype Books = Books(rows: map<BookId, Book>, defaults: map<Group, BookId>)

  datatype BookError = NotFound | InvalidTransition | SelfApprovalForbidden | DefaultConflict

  datatype Call =
    | Create(actor: Actor, id: BookId, group: Group, isDefault: bool)
    | Submit(actor: Actor, id: BookId)
    | Approve(actor: Actor, id: BookId)
    | Schedule(actor: Actor, id: BookId)
    | Activate(actor: Actor, id: BookId)
    | End(actor: Actor, id: BookId)

  /** The status-guarded update every lifecycle step goes through. */
  function Transition(b: Books, id: BookId, from: Status, row: Book): Result<Books, BookError> {
    if id !in b.rows then Err(NotFound)
    else if b.rows[id].status != from then Err(InvalidTransition)
    else Ok(b.(rows := b.rows[id := row]))
  }

  /** Ending a book drops its default flag, which takes it out of the index. */
  function EndRow(b: Books, id: BookId): Books
    requires id in b.rows
  {
    var row := b.rows[id];
    Books(b.rows[id := row.(status := Ended, isDefault := false)],
          if row.isDefault && row.status == Active then b.defaults - {row.group} else b.defaults)
  }

  /** The row a client read, possibly long ago. */
  datatype Seen = Seen(id: BookId, row: Book)

  /** The activation transaction: the previous default is found by what the client read, the write is guarded. */
  function ActivateTransaction(b: Books, seen: Seen): Result<Books, BookError> {
    var cleared :=
      if seen.row.isDefault && seen.row.group in b.defaults && b.defaults[seen.row.group] != seen.id
         && b.defaults[seen.row.group] in b.rows
      then EndRow(b, b.defaults[seen.row.group]) else b;
    if seen.id !in cleared.rows || cleared.rows[seen.id].status != Scheduled then Err(InvalidTransition)
    else
      var row := cleared.rows[seen.id];
      if row.isDefault && row.group in cleared.defaults then Err(DefaultConflict)
      else Ok(Books(cleared.rows[seen.id := row.(status := Active)],
                    if row.isDefault then cleared.defaults[row.group := seen.id] else cleared.defaults))
  }

  function Step(b: Books, c: Call): Result<Books, BookError> {
    match c
    case Create(actor, id, group, isDefault) =>
      if id in b.rows then Err(DefaultConflict)
      else Ok(b.(rows := b.rows[id := Book(Draft, group, isDefault, Some(actor), None, None)]))
    case Submit(actor, id) =>
      if id !in b.rows then Err(NotFound)
      else Transition(b, id, Draft, b.rows[id].(status := Submitted, submitter := Some(actor)))
    case Approve(actor, id) =>
      if id !in b.rows then Err(NotFound)
      else if b.rows[id].creator == Some(actor) || b.rows[id].submitter == Some(actor) then Err(SelfApprovalForbidden)
      else Transition(b, id, Submitted, b.rows[id].(status := Approved, approver := Some(actor)))
    case Schedule(actor, id) =>
      if id !in b.rows then Err(NotFound)
      else Transition(b, id, Approved, b.rows[id].(status := Scheduled))
    case Activate(actor, id) =>
      if id !in b.rows then Err(NotFound)
      else if b.rows[id].status != Scheduled then Err(InvalidTransition)
      else ActivateTransaction(b, Seen(id, b.rows[id]))
    case End(actor, id) =>
      if id !in b.rows then Err(NotFound)
      else if b.rows[id].status != Active then Err(InvalidTransition)
      else Ok(EndRow(b, id))
  }

  function Next(b: Books, c: Call): Books {
    match Step(b, c)
    case Ok(after) => after
    case Err(_) => b
  }

  function Run(b: Books, calls: seq<Call>): Books {
    if calls == [] then b else Next(Run(b, calls[..|calls| - 1]), calls[|calls| - 1])
  }

  function Rank(s: Status): nat {
    match s
    case Draft => 0
    case Submitted => 1
    case Approved => 2
    case Scheduled => 3
    case Active => 4
    case Ended => 5
  }

  predicate ActiveDefault(b: Books, id: BookId, group: Group) {
    id in b.rows && b.rows[id].status == Active && b.rows[id].isDefault && b.rows[id].group == group
  }

  /** Signatures as far as interleaving keeps them: an approver, never the creator. */
  predicate Signed(row: Book) {
    && (row.submitter.Some? <==> Rank(row.status) >= Rank(Submitted))
    && (row.approver.Some? <==> Rank(row.status) >= Rank(Approved))
    && (row.approver.Some? ==> row.approver != row.creator)
  }

  predicate SelfApproved(row: Book) {
    row.approver.Some? && row.approver == row.submitter
  }

  ghost predicate SharedInv(b: Books) {
    && (forall id <- b.rows :: Signed(b.rows[id]))
    && (forall group <- b.defaults :: ActiveDefault(b, b.defaults[group], group))
    && (forall id <- b.rows | b.rows[id].status == Active && b.rows[id].isDefault ::
          b.rows[id].group in b.defaults && b.defaults[b.rows[id].group] == id)
  }

  /** Status only moves forward and signatures stay. */
  predicate RowLater(before: Book, after: Book) {
    && Rank(before.status) <= Rank(after.status)
    && after.creator == before.creator
    && (before.submitter.Some? ==> after.submitter == before.submitter)
    && (before.approver.Some? ==> after.approver == before.approver)
  }

  /** A row some steps later: further along, signatures kept, the default flag kept until the end. */
  predicate Later(before: Book, after: Book) {
    && RowLater(before, after)
    && after.group == before.group
    && (after.status != Ended ==> after.isDefault == before.isDefault)
  }

  ghost predicate AllLater(b: Books, c: Books) {
    forall id <- b.rows :: id in c.rows && Later(b.rows[id], c.rows[id])
  }

  ghost predicate NoneSelfApproved(b: Books) {
    forall id <- b.rows :: !SelfApproved(b.rows[id])
  }

  // ---- What every step keeps -----------------------------------------------------------------------

  lemma LaterTransitive(b: Books, c: Books, d: Books)
    requires AllLater(b, c) && AllLater(c, d)
    ensures AllLater(b, d)
  {
  }

  lemma EndKeepsShared(b: Books, id: BookId)
    requires SharedInv(b) && id in b.rows && b.rows[id].status == Active
    ensures SharedInv(EndRow(b, id)) && AllLater(b, EndRow(b, id))
    ensures b.rows[id].isDefault ==> b.rows[id].group !in EndRow(b, id).defaults
  {
  }

  lemma PromoteKeepsShared(b: Books, id: BookId)
    requires SharedInv(b) && id in b.rows && b.rows[id].status == Scheduled
    requires b.rows[id].isDefault ==> b.rows[id].group !in b.defaults
    ensures var row := b.rows[id];
            var c := Books(b.rows[id := row.(status := Active)],
                           if row.isDefault then b.defaults[row.group := id] else b.defaults);
            SharedInv(c) && AllLater(b, c)
  {
  }

  lemma SignKeepsShared(b: Books, id: BookId, row: Book)
    requires SharedInv(b) && id in b.rows && b.rows[id].status != Active && row.status != Active
    requires Signed(row) && Later(b.rows[id], row)
    ensures SharedInv(b.(rows := b.rows[id := row])) && AllLater(b, b.(rows := b.rows[id := row]))
  {
  }

  /** Calls of one statement. */
  predicate IsSingle(c: Call) {
    c.Create? || c.Submit? || c.Schedule? || c.End?
  }

  lemma SingleKeepsShared(b: Books, c: Call)
    requires SharedInv(b) && IsSingle(c) && Step(b, c).Ok?
    ensures SharedInv(Step(b, c).value) && AllLater(b, Step(b, c).value)
  {
    match c
    case Create(actor, id, group, isDefault) =>
    case Submit(actor, id) => SignKeepsShared(b, id, b.rows[id].(status := Submitted, submitter := Some(actor)));
    case Schedule(actor, id) => SignKeepsShared(b, id, b.rows[id].(status := Scheduled));
    case End(actor, id) => EndKeepsShared(b, id);
  }

  /** A stale read decides nothing: the transaction succeeds exactly on a scheduled book and never meets the index. */
  lemma ActivationIsGuarded(b: Books, seen: Seen)
    requires SharedInv(b) && seen.id in b.rows && Later(seen.row, b.rows[seen.id])
    ensures ActivateTransaction(b, seen).Ok? <==> b.rows[seen.id].status == Scheduled
    ensures ActivateTransaction(b, seen).Err? ==> ActivateTransaction(b, seen).error == InvalidTransition
    ensures ActivateTransaction(b, seen).Ok? ==>
              SharedInv(ActivateTransaction(b, seen).value) && AllLater(b, ActivateTransaction(b, seen).value)
  {
    var row, group := b.rows[seen.id], seen.row.group;
    if seen.row.isDefault && group in b.defaults && b.defaults[group] != seen.id {
      var previous := b.defaults[group];
      assert ActiveDefault(b, previous, group);
      EndKeepsShared(b, previous);
      if row.status == Scheduled {
        PromoteKeepsShared(EndRow(b, previous), seen.id);
        LaterTransitive(b, EndRow(b, previous), ActivateTransaction(b, seen).value);
      }
    } else if row.status == Scheduled {
      PromoteKeepsShared(b, seen.id);
    }
  }

  /** A row that is not being approved keeps its signatures. */
  predicate SameSignatures(before: Book, after: Book) {
    SelfApproved(after) == SelfApproved(before)
  }

  lemma SingleKeepsSeparation(b: Books, c: Call)
    requires SharedInv(b) && IsSingle(c) && Step(b, c).Ok?
    ensures NoneSelfApproved(Step(b, c).value) <==> NoneSelfApproved(b)
  {
    var after := Step(b, c).value;
    forall id | id in b.rows ensures id in after.rows && SameSignatures(b.rows[id], after.rows[id]) {
    }
    assert forall id | id in after.rows && id !in b.rows :: !SelfApproved(after.rows[id]);
  }

  lemma ActivationKeepsSeparation(b: Books, seen: Seen)
    requires ActivateTransaction(b, seen).Ok?
    ensures NoneSelfApproved(ActivateTransaction(b, seen).value) <==> NoneSelfApproved(b)
  {
    var after := ActivateTransaction(b, seen).value;
    forall id | id in b.rows ensures id in after.rows && SameSignatures(b.rows[id], after.rows[id]) {
    }
    assert after.rows.Keys == b.rows.Keys;
  }

  // ---- Calls one at a time -------------------------------------------------------------------------

  /** Calls one at a time keep more: nobody approves what they submitted. */
  ghost predicate Inv(b: Books) {
    SharedInv(b) && NoneSelfApproved(b)
  }

  lemma ApproveKeeps(b: Books, actor: Actor, id: BookId)
    requires Inv(b) && Step(b, Approve(actor, id)).Ok?
    ensures Inv(Step(b, Approve(actor, id)).value) && AllLater(b, Step(b, Approve(actor, id)).value)
  {
    SignKeepsShared(b, id, b.rows[id].(status := Approved, approver := Some(actor)));
  }

  lemma ActivateKeeps(b: Books, actor: Actor, id: BookId)
    requires Inv(b) && Step(b, Activate(actor, id)).Ok?
    ensures Inv(Step(b, Activate(actor, id)).value) && AllLater(b, Step(b, Activate(actor, id)).value)
  {
    ActivationIsGuarded(b, Seen(id, b.rows[id]));
    ActivationKeepsSeparation(b, Seen(id, b.rows[id]));
  }

  lemma NextKeeps(b: Books, c: Call)
    requires Inv(b)
    ensures Inv(Next(b, c)) && AllLater(b, Next(b, c))
  {
    if Step(b, c).Ok? {
      match c
      case Approve(actor, id) => ApproveKeeps(b, actor, id);
      case Activate(actor, id) => ActivateKeeps(b, actor, id);
      case _ =>
        SingleKeepsShared(b, c);
        SingleKeepsSeparation(b, c);
    }
  }

  predicate AtMostOneStep(before: Book, after: Book) {
    Rank(before.status) <= Rank(after.status) <= Rank(before.status) + 1
  }

  lemma ActivationIsOneStep(b: Books, seen: Seen, id: BookId)
    requires SharedInv(b) && id in b.rows && ActivateTransaction(b, seen).Ok?
    ensures id in ActivateTransaction(b, seen).value.rows
    ensures AtMostOneStep(b.rows[id], ActivateTransaction(b, seen).value.rows[id])
  {
    if seen.row.isDefault && seen.row.group in b.defaults && id == b.defaults[seen.row.group] {
      assert ActiveDefault(b, id, seen.row.group);
    }
  }

  /** A call moves a book by at most one step of the lifecycle. */
  lemma OneStepAtATime(b: Books, c: Call, id: BookId)
    requires Inv(b) && id in b.rows
    ensures id in Next(b, c).rows && AtMostOneStep(b.rows[id], Next(b, c).rows[id])
  {
    if Step(b, c).Ok? && c.Activate? {
      ActivationIsOneStep(b, Seen(c.id, b.rows[c.id]), id);
    }
  }

  /**
   * The lifecycle guarantee over every run: every book at approved or later carries an approver who neither created
   * nor submitted it, status never moves back, and no group ever has two active defaults.
   */
  lemma {:induction false} RunIsControlled(b: Books, calls: seq<Call>)
    requires Inv(b)
    ensures var c := Run(b, calls);
            && Inv(c)
            && AllLater(b, c)
            && (forall id <- c.rows | Rank(c.rows[id].status) >= Rank(Approved) ::
                  c.rows[id].approver.Some? && c.rows[id].approver != c.rows[id].creator
                  && c.rows[id].approver != c.rows[id].submitter)
            && (forall x, y, group | ActiveDefault(c, x, group) && ActiveDefault(c, y, group) :: x == y)
  {
    if calls != [] {
      var front := calls[..|calls| - 1];
      RunIsControlled(b, front);
      NextKeeps(Run(b, front), calls[|calls| - 1]);
      LaterTransitive(b, Run(b, front), Run(b, calls));
    }
  }

  /**
   * Activating a default replaces the previous one in a single step: the group has an active default before
   * and after, the old one is ended without its flag, and no other book changes.
   */
  lemma ActivationReplaces(b: Books, actor: Actor, id: BookId)
    requires Inv(b) && id in b.rows && b.rows[id].status == Scheduled && b.rows[id].isDefault
    ensures var c, group := Next(b, Activate(actor, id)), b.rows[id].group;
            && Step(b, Activate(actor, id)).Ok?
            && ActiveDefault(c, id, group)
            && (forall p | ActiveDefault(b, p, group) ::
                  p in c.rows && c.rows[p] == b.rows[p].(status := Ended, isDefault := false))
            && (forall p | p in b.rows && p != id && !ActiveDefault(b, p, group) :: c.rows[p] == b.rows[p])
            && c.defaults == b.defaults[group := id]
  {
  }
}
