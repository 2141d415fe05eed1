/**
 * Coupon redemption under interleaved clients (backend/src/promotions/coupon.repository.ts, lines 163 to 222).
 *
 * Every database statement is one atomic step. The unique index over (tenant, coupon, idempotency key) and
 * the primary key are the database's; one coupon of one tenant is modelled.
 */
module CouponRedemption {
  import opened Outcome

  type RowId = nat
  type ClientId = nat
  type Key = string

  datatype Status = Active | Inactive

  /** A redemption row; only its key matters to the protocol. */
  datatype Row = Row(key: Key)

  datatype RedeemError = InvalidOrExpired | UsageLimitExceeded | ConflictUnresolved

  /** Where a call of redeem is. `Reserving` holds a fresh row, `Compensating` has lost the capacity step. */
  datatype Call =
    | Reserving(id: RowId)
    | Compensating(id: RowId)
    | LookingUp(key: Key)
    | Explaining
    | Redeemed(id: RowId)
    | Replayed(id: RowId)
    | Failed(error: RedeemError)

  /**
   * `index` is the unique index over the idempotency key. `counted` is history, the rows whose capacity
   * step succeeded; `used` are the row ids ever drawn.
   */
  datatype State = State(
    status: Status,
    cap: Option<nat>,
    useCount: nat,
    rows: map<RowId, Row>,
    index: map<Key, RowId>,
    calls: map<ClientId, Call>,
    counted: set<RowId>,
    used: set<RowId>)

  predicate HasKey(s: State, key: Key) {
    key in s.index
  }

  predicate HasCapacity(s: State) {
    s.status == Active && (s.cap == None || s.useCount < s.cap.value)
  }

  /** One statement of one client, or an administrator changing the status. */
  datatype Event =
    | Insert(client: ClientId, key: Key, id: RowId)
    | FindExisting(client: ClientId)
    | Reserve(client: ClientId)
    | Delete(client: ClientId)
    | Explain(client: ClientId)
    | SetStatus(status: Status)

  predicate InFlight(call: Call) {
    call.Reserving? || call.Compensating? || call.LookingUp? || call.Explaining?
  }

  /** The row found by (coupon, key), if any. */
  function FindByKey(s: State, key: Key): Option<RowId> {
    if HasKey(s, key) then Some(s.index[key]) else None
  }

  function KeyOf(s: State, id: RowId): set<Key> {
    if id in s.rows then {s.rows[id].key} else {}
  }

  /** Steps that are not enabled leave the state as it is. */
  function Next(s: State, e: Event): State {
    match e
    case Insert(c, key, id) =>
      if (c in s.calls && InFlight(s.calls[c])) || id in s.used then s
      else if HasKey(s, key) then s.(calls := s.calls[c := LookingUp(key)])
      else s.(rows := s.rows[id := Row(key)], index := s.index[key := id],
                calls := s.calls[c := Reserving(id)], used := s.used + {id})
    case FindExisting(c) =>
      if !(c in s.calls && s.calls[c].LookingUp?) then s
      else
        var found := FindByKey(s, s.calls[c].key);
        s.(calls := s.calls[c := if found.Some? then Replayed(found.value) else Failed(ConflictUnresolved)])
    case Reserve(c) =>
      if !(c in s.calls && s.calls[c].Reserving?) then s
      else
        var id := s.calls[c].id;
        if HasCapacity(s)
        then s.(useCount := s.useCount + 1, calls := s.calls[c := Redeemed(id)], counted := s.counted + {id})
        else s.(calls := s.calls[c := Compensating(id)])
    case Delete(c) =>
      if !(c in s.calls && s.calls[c].Compensating?) then s
      else
        var id := s.calls[c].id;
        s.(rows := s.rows - {id}, index := s.index - KeyOf(s, id), calls := s.calls[c := Explaining])
    case Explain(c) =>
      if !(c in s.calls && s.calls[c].Explaining?) then s
      else s.(calls := s.calls[c := Failed(if s.status == Active then UsageLimitExceeded else InvalidOrExpired)])
    case SetStatus(status) => s.(status := status)
  }

  function Run(s: State, events: seq<Event>): State {
    if events == [] then s else Next(Run(s, events[..|events| - 1]), events[|events| - 1])
  }

  ghost predicate Initial(s: State) {
    s.useCount == 0 && s.rows == map[] && s.index == map[] && s.calls == map[] && s.counted == {} && s.used == {}
  }

  predicate Holding(call: Call) {
    call.Reserving? || call.Compensating?
  }

  /** The clients whose row is inserted but neither counted nor deleted. */
  ghost function Holders(s: State): set<ClientId> {
    set c | c in s.calls && Holding(s.calls[c])
  }

  ghost function HeldRow(s: State, c: ClientId): RowId
    requires c in Holders(s)
  {
    s.calls[c].id
  }

  /** Rows, their unique index, and the count of those whose capacity step succeeded. */
  ghost predicate TablesOk(s: State) {
    && s.rows.Keys <= s.used
    && s.counted <= s.rows.Keys
    && s.useCount == |s.counted|
    && (s.cap.Some? ==> s.useCount <= s.cap.value)
    && (forall id <- s.rows :: s.rows[id].key in s.index && s.index[s.rows[id].key] == id)
    && (forall key <- s.index :: s.index[key] in s.rows && s.rows[s.index[key]].key == key)
  }

  /** Every row not yet counted is held by exactly one call. */
  ghost predicate HoldersOk(s: State) {
    && (forall c <- Holders(s) :: HeldRow(s, c) in s.rows && HeldRow(s, c) !in s.counted)
    && (forall c, d | c in Holders(s) && d in Holders(s) && HeldRow(s, c) == HeldRow(s, d) :: c == d)
    && (forall id | id in s.rows && id !in s.counted :: exists c <- Holders(s) :: HeldRow(s, c) == id)
    && (forall c | c in s.calls && s.calls[c].Redeemed? :: s.calls[c].id in s.counted)
  }

  ghost predicate Inv(s: State) {
    TablesOk(s) && HoldersOk(s)
  }

  lemma JoinsHolders(s: State, t: State, c: ClientId, r: RowId)
    requires Inv(s) && r !in s.used && c !in Holders(s)
    requires t.calls == s.calls[c := Reserving(r)]
    ensures Holders(t) == Holders(s) + {c} && HeldRow(t, c) == r
    ensures forall d <- Holders(s) :: HeldRow(t, d) == HeldRow(s, d) != r
    ensures forall id | id in s.rows && id !in s.counted :: exists d <- Holders(t) :: HeldRow(t, d) == id
  {
    forall id | id in s.rows && id !in s.counted ensures exists d <- Holders(t) :: HeldRow(t, d) == id {
      var d :| d in Holders(s) && HeldRow(s, d) == id;
      assert d in Holders(t) && HeldRow(t, d) == id;
    }
  }

  lemma FreshRowIsIndexed(s: State, t: State, key: Key, id: RowId)
    requires TablesOk(s) && id !in s.used && !HasKey(s, key)
    requires t == s.(rows := s.rows[id := Row(key)], index := s.index[key := id], calls := t.calls, used := s.used + {id})
    ensures TablesOk(t)
  {
    assert id !in s.rows;
  }

  lemma FreshRowIsHeld(s: State, t: State, c: ClientId, key: Key, id: RowId)
    requires Inv(s) && id !in s.used && c !in Holders(s)
    requires t.rows == s.rows[id := Row(key)] && t.calls == s.calls[c := Reserving(id)] && t.counted == s.counted
    ensures HoldersOk(t)
  {
    JoinsHolders(s, t, c, id);
    assert id !in s.rows;
    forall r | r in t.rows && r !in t.counted ensures exists d <- Holders(t) :: HeldRow(t, d) == r {
      assert r == id ==> c in Holders(t) && HeldRow(t, c) == id;
    }
  }

  lemma FreshInsertKeeps(s: State, c: ClientId, key: Key, id: RowId)
    requires Inv(s) && id !in s.used && c !in Holders(s) && !HasKey(s, key)
    ensures Inv(s.(rows := s.rows[id := Row(key)], index := s.index[key := id],
                calls := s.calls[c := Reserving(id)], used := s.used + {id}))
  {
    FreshRowIsIndexed(s, s.(rows := s.rows[id := Row(key)], index := s.index[key := id],
                            calls := s.calls[c := Reserving(id)], used := s.used + {id}), key, id);
    FreshRowIsHeld(s, s.(rows := s.rows[id := Row(key)], index := s.index[key := id],
                         calls := s.calls[c := Reserving(id)], used := s.used + {id}), c, key, id);
  }

  lemma InsertKeeps(s: State, c: ClientId, key: Key, id: RowId)
    requires Inv(s)
    ensures Inv(Next(s, Insert(c, key, id)))
  {
    var t := Next(s, Insert(c, key, id));
    if (c in s.calls && InFlight(s.calls[c])) || id in s.used {
    } else if HasKey(s, key) {
      SameHolders(s, t);
    } else {
      FreshInsertKeeps(s, c, key, id);
    }
  }

  /** Steps that touch no row and no holder keep the invariant. */
  lemma SameHolders(s: State, t: State)
    requires Inv(s) && t.rows == s.rows && t.index == s.index && t.counted == s.counted && t.useCount == s.useCount
    requires t.used == s.used && t.cap == s.cap && s.calls.Keys <= t.calls.Keys
    requires forall c | c in t.calls ::
               if c in Holders(s) then c in Holders(t) && t.calls[c].id == s.calls[c].id else c !in Holders(t)
    requires forall c | c in t.calls && t.calls[c].Redeemed? :: c in s.calls && s.calls[c] == t.calls[c]
    ensures Inv(t) && Holders(t) == Holders(s)
  {
    assert Holders(t) == Holders(s);
    assert forall c <- Holders(s) :: HeldRow(t, c) == HeldRow(s, c);
    forall id | id in t.rows && id !in t.counted ensures exists d <- Holders(t) :: HeldRow(t, d) == id {
      var d :| d in Holders(s) && HeldRow(s, d) == id;
      assert d in Holders(t) && HeldRow(t, d) == id;
    }
  }

  lemma LeavesHolders(s: State, t: State, c: ClientId, r: RowId)
    requires Inv(s) && c in Holders(s) && HeldRow(s, c) == r
    requires t.calls.Keys == s.calls.Keys && c !in Holders(t)
    requires forall d | d in s.calls && d != c :: t.calls[d] == s.calls[d]
    ensures Holders(t) == Holders(s) - {c}
    ensures forall d <- Holders(t) :: HeldRow(t, d) == HeldRow(s, d) != r
    ensures forall id | id in s.rows && id !in s.counted && id != r ::
              exists d <- Holders(t) :: HeldRow(t, d) == id
  {
    forall id | id in s.rows && id !in s.counted && id != r
      ensures exists d <- Holders(t) :: HeldRow(t, d) == id
    {
      var d :| d in Holders(s) && HeldRow(s, d) == id;
      assert d in Holders(t) && HeldRow(t, d) == id;
    }
  }

  lemma CountingKeeps(s: State, c: ClientId)
    requires Inv(s) && c in s.calls && s.calls[c].Reserving? && HasCapacity(s)
    ensures Inv(Next(s, Reserve(c)))
  {
    var t, id := Next(s, Reserve(c)), s.calls[c].id;
    assert c in Holders(s) && HeldRow(s, c) == id;
    LeavesHolders(s, t, c, id);
    assert |t.counted| == |s.counted| + 1;
  }

  lemma ReserveKeeps(s: State, c: ClientId)
    requires Inv(s)
    ensures Inv(Next(s, Reserve(c)))
  {
    if c in s.calls && s.calls[c].Reserving? {
      if HasCapacity(s) {
        CountingKeeps(s, c);
      } else {
        SameHolders(s, Next(s, Reserve(c)));
      }
    }
  }

  lemma DeleteKeeps(s: State, c: ClientId)
    requires Inv(s)
    ensures Inv(Next(s, Delete(c)))
  {
    if c in s.calls && s.calls[c].Compensating? {
      assert c in Holders(s) && HeldRow(s, c) == s.calls[c].id;
      LeavesHolders(s, Next(s, Delete(c)), c, s.calls[c].id);
      DeletedRowLeavesTables(s, Next(s, Delete(c)), s.calls[c].id);
    }
  }

  lemma DeletedRowLeavesTables(s: State, t: State, id: RowId)
    requires TablesOk(s) && id in s.rows && id !in s.counted
    requires t == s.(rows := s.rows - {id}, index := s.index - KeyOf(s, id), calls := t.calls)
    ensures TablesOk(t)
  {
  }

  /** A call that holds no row goes on to one that holds none. */
  lemma ReaderKeeps(s: State, c: ClientId, call: Call)
    requires Inv(s) && c in s.calls && !Holding(s.calls[c]) && !Holding(call) && !call.Redeemed?
    ensures Inv(s.(calls := s.calls[c := call]))
  {
    SameHolders(s, s.(calls := s.calls[c := call]));
  }

  lemma StatusKeeps(s: State, status: Status)
    requires Inv(s)
    ensures Inv(s.(status := status))
  {
    SameHolders(s, s.(status := status));
  }

  lemma NextKeepsInv(s: State, e: Event)
    requires Inv(s)
    ensures Inv(Next(s, e))
  {
    match e
    case Insert(c, key, id) => InsertKeeps(s, c, key, id);
    case Reserve(c) => ReserveKeeps(s, c);
    case Delete(c) => DeleteKeeps(s, c);
    case FindExisting(c) =>
      if c in s.calls && s.calls[c].LookingUp? {
        ReaderKeeps(s, c, Next(s, e).calls[c]);
      }
    case Explain(c) =>
      if c in s.calls && s.calls[c].Explaining? {
        ReaderKeeps(s, c, Next(s, e).calls[c]);
      }
    case SetStatus(status) => StatusKeeps(s, status);
  }

  /** A counted redemption is for ever: it stays counted, its row stays, and its key stays. */
  ghost predicate KeepsCounted(s: State, t: State) {
    && s.counted <= t.counted
    && s.useCount <= t.useCount
    && t.cap == s.cap
    && forall id <- s.counted :: id in s.rows && id in t.rows && t.rows[id] == s.rows[id]
  }

  lemma NextKeepsCounted(s: State, e: Event)
    requires Inv(s)
    ensures KeepsCounted(s, Next(s, e))
  {
    if e.Delete? && e.client in s.calls && s.calls[e.client].Compensating? {
      assert e.client in Holders(s) && HeldRow(s, e.client) == s.calls[e.client].id;
    }
  }

  lemma {:induction false} RunKeepsInv(s: State, events: seq<Event>)
    requires Inv(s)
    ensures Inv(Run(s, events)) && KeepsCounted(s, Run(s, events))
  {
    if events != [] {
      var front := events[..|events| - 1];
      RunKeepsInv(s, front);
      NextKeepsInv(Run(s, front), events[|events| - 1]);
      NextKeepsCounted(Run(s, front), events[|events| - 1]);
    }
  }

  lemma {:induction false} InjectiveSize(m: map<ClientId, RowId>)
    requires forall c, d | c in m && d in m && m[c] == m[d] :: c == d
    ensures |m.Values| == |m|
  {
    if m != map[] {
      var c :| c in m;
      var rest := m - {c};
      InjectiveSize(rest);
      assert m.Values == rest.Values + {m[c]} by {
        forall r | r in m.Values ensures r in rest.Values + {m[c]} {
          var d :| d in m && m[d] == r;
          assert d != c ==> d in rest && rest[d] == r;
        }
      }
    }
  }

  ghost function Held(s: State): (held: map<ClientId, RowId>)
    ensures held.Keys == Holders(s)
  {
    map c | c in Holders(s) :: HeldRow(s, c)
  }

  lemma HeldRowsAreTheUncounted(s: State)
    requires Inv(s)
    ensures s.counted !! Held(s).Values
    ensures s.rows.Keys == s.counted + Held(s).Values
  {
    forall id | id in s.rows && id !in s.counted ensures id in Held(s).Values {
      var c :| c in Holders(s) && HeldRow(s, c) == id;
      assert Held(s)[c] == id;
    }
  }

  /** Rows not yet counted belong one to one to the calls still holding them. */
  lemma RowsAreCountedOrHeld(s: State)
    requires Inv(s)
    ensures |s.rows| == s.useCount + |Holders(s)|
  {
    HeldRowsAreTheUncounted(s);
    InjectiveSize(Held(s));
    DisjointSizes(s.counted, Held(s).Values);
    assert |Held(s)| == |Holders(s)| by {
      assert |Held(s)| == |Held(s).Keys|;
    }
    assert |s.rows| == |s.rows.Keys|;
  }

  lemma DisjointSizes(a: set<RowId>, b: set<RowId>)
    requires a !! b
    ensures |a + b| == |a| + |b|
  {
  }

  /**
   * The redemption guarantee, for any number of clients and any interleaving: the use count is the number of rows
   * whose capacity step succeeded, stays within the cap, counts no key twice, and equals the number of
   * rows whenever no call holds an uncounted one.
   */
  lemma RedemptionIsExact(s: State, events: seq<Event>)
    requires Initial(s)
    ensures var t := Run(s, events);
            && t.useCount == |t.counted|
            && t.counted <= t.rows.Keys
            && (t.cap.Some? ==> t.useCount <= t.cap.value)
            && (forall a, b | a in t.counted && b in t.counted :: t.rows[a].key == t.rows[b].key ==> a == b)
            && |t.rows| == t.useCount + |Holders(t)|
            && ((forall c <- t.calls :: !InFlight(t.calls[c])) ==> t.useCount == |t.rows|)
  {
    assert Holders(s) == {};
    RunKeepsInv(s, events);
    var t := Run(s, events);
    RowsAreCountedOrHeld(t);
    if forall c <- t.calls :: !InFlight(t.calls[c]) {
      assert Holders(t) == {};
    }
  }

  /** A counted key can never be counted again: any later call with it is a replay of a row that is there. */
  lemma CountedKeyOnlyReplays(s: State, events: seq<Event>, id: RowId, client: ClientId, fresh': RowId)
    requires Inv(s) && id in s.counted
    ensures var t := Run(s, events);
            && id in t.rows && t.rows[id].key == s.rows[id].key
            && Next(t, Insert(client, s.rows[id].key, fresh')).rows == t.rows
            && FindByKey(t, s.rows[id].key) == Some(id)
  {
    RunKeepsInv(s, events);
    var t := Run(s, events);
    assert t.rows[id] == s.rows[id] && t.rows[id].key in t.index;
  }

  /** Losing the capacity step and compensating takes away the call's own row and nothing else. */
  lemma CompensationUndoesTheInsert(s: State, c: ClientId, key: Key, id: RowId)
    requires s.rows.Keys <= s.used && id !in s.used && !HasKey(s, key) && !HasCapacity(s)
    requires c in s.calls ==> !InFlight(s.calls[c])
    ensures var t := Next(Next(Next(s, Insert(c, key, id)), Reserve(c)), Delete(c));
            t == s.(calls := s.calls[c := Explaining], used := s.used + {id})
  {
    assert id !in s.rows;
    var inserted := Next(s, Insert(c, key, id));
    assert inserted == s.(rows := s.rows[id := Row(key)], index := s.index[key := id],
                          calls := s.calls[c := Reserving(id)], used := s.used + {id});
    var refused := Next(inserted, Reserve(c));
    assert refused == inserted.(calls := inserted.calls[c := Compensating(id)]);
    var t := Next(refused, Delete(c));
    assert t.rows == s.rows && t.index == s.index && t.calls == s.calls[c := Explaining];
  }

  /** Insert by one client, conflicting insert by another, then the first is refused and its row deleted. */
  function RefusedUnderneath(first: ClientId, second: ClientId, key: Key, id: RowId, other: RowId): seq<Event> {
    [Insert(first, key, id), Insert(second, key, other), Reserve(first), Delete(first), FindExisting(second)]
  }

  /**
   * The branch the source calls unreachable is reachable whenever the coupon has no capacity left, or is no longer
   * active: another call with the same key loses its capacity step and deletes the row between this call's failed
   * insert and its look-up.
   */
  lemma RefusalUnderneathIsUnresolved(s: State, first: ClientId, second: ClientId, key: Key, id: RowId, other: RowId)
    requires s.rows.Keys <= s.used && !HasCapacity(s) && !HasKey(s, key)
    requires id !in s.used && other !in s.used && first != second && id != other
    requires (first in s.calls ==> !InFlight(s.calls[first])) && (second in s.calls ==> !InFlight(s.calls[second]))
    ensures var t := Run(s, RefusedUnderneath(first, second, key, id, other));
            second in t.calls && t.calls[second] == Failed(ConflictUnresolved)
  {
    var s1 := Next(s, Insert(first, key, id));
    assert s1.index == s.index[key := id] && s1.calls == s.calls[first := Reserving(id)];
    var s2 := Next(s1, Insert(second, key, other));
    assert s2 == s1.(calls := s1.calls[second := LookingUp(key)]);
    var s3 := Next(s2, Reserve(first));
    assert s3 == s2.(calls := s2.calls[first := Compensating(id)]);
    var s4 := Next(s3, Delete(first));
    assert s4.rows == s3.rows - {id} && id in s3.rows && s3.rows[id].key == key;
    assert key !in s4.index && s4.calls[second] == LookingUp(key);
    RunFive(s, RefusedUnderneath(first, second, key, id, other));
  }

  /** A run a deployed coupon can take: one use allowed, used once, then two calls share a key. */
  lemma UnresolvedConflictIsReachable(s: State, used: Key, key: Key)
    requires Initial(s) && s.cap == Some(1) && s.status == Active && used != key
    ensures var t := Run(Run(s, [Insert(0, used, 6), Reserve(0)]), RefusedUnderneath(1, 2, key, 7, 8));
            && Run(s, [Insert(0, used, 6), Reserve(0)]).useCount == 1
            && 2 in t.calls && t.calls[2] == Failed(ConflictUnresolved)
  {
    var one := [Insert(0, used, 6), Reserve(0)];
    assert one[..1][..0] == [] && Run(s, one[..1]) == Next(s, one[0]);
    var inserted := Next(s, one[0]);
    assert inserted.calls == map[0 := Reserving(6)] && inserted.rows == map[6 := Row(used)];
    assert inserted.index == map[used := 6] && inserted.used == {6};
    var full := Run(s, one);
    assert full == Next(inserted, one[1]);
    RefusalUnderneathIsUnresolved(full, 1, 2, key, 7, 8);
  }

  lemma RunFive(s: State, events: seq<Event>)
    requires |events| == 5
    ensures Run(s, events) ==
            Next(Next(Next(Next(Next(s, events[0]), events[1]), events[2]), events[3]), events[4])
  {
    assert events[..4][..3] == events[..3] && events[..3][..2] == events[..2];
    assert events[..2][..1] == events[..1] && events[..1][..0] == [];
    assert Run(s, events[..1]) == Next(s, events[0]);
    assert Run(s, events[..2]) == Next(Run(s, events[..1]), events[1]);
    assert Run(s, events[..3]) == Next(Run(s, events[..2]), events[2]);
  }

  lemma LookUpFailsIffRowGone(s: State, c: ClientId)
    requires c in s.calls && s.calls[c].LookingUp?
    ensures Next(s, FindExisting(c)).calls[c] == Failed(ConflictUnresolved) <==> !HasKey(s, s.calls[c].key)
  {
  }

  /** The step deletes the row of this key, which its client inserted and could not count. */
  predicate DeletesKey(s: State, e: Event, key: Key) {
    && e.Delete? && e.client in s.calls && s.calls[e.client].Compensating?
    && s.calls[e.client].id in s.rows && s.rows[s.calls[e.client].id].key == key
    && s.calls[e.client].id !in s.counted
  }

  /** The step inserts a row of this key. */
  predicate InsertsKey(s: State, e: Event, key: Key) {
    && e.Insert? && e.key == key && !HasKey(s, key) && e.id !in s.used
    && !(e.client in s.calls && InFlight(s.calls[e.client]))
  }

  lemma KeyMovesOnlyThere(s: State, e: Event, key: Key)
    requires Inv(s)
    ensures HasKey(Next(s, e), key) <==> (HasKey(s, key) && !DeletesKey(s, e, key)) || InsertsKey(s, e, key)
  {
    if e.Delete? && e.client in s.calls && s.calls[e.client].Compensating? {
      assert e.client in Holders(s) && HeldRow(s, e.client) == s.calls[e.client].id;
    }
  }

  /** At step `k` the key's row was deleted, uncounted, and no row of the key was inserted since. */
  ghost predicate DeletedSince(s: State, events: seq<Event>, key: Key, k: int) {
    && 0 <= k < |events|
    && DeletesKey(Run(s, events[..k]), events[k], key)
    && forall j | k < j < |events| :: !InsertsKey(Run(s, events[..j]), events[j], key)
  }

  lemma DeletedOneStepEarlier(s: State, events: seq<Event>, key: Key, k: int)
    requires events != [] && DeletedSince(s, events, key, k)
    ensures var front, last := events[..|events| - 1], events[|events| - 1];
            DeletesKey(Run(s, front), last, key) || (!InsertsKey(Run(s, front), last, key) && DeletedSince(s, front, key, k))
  {
    var n := |events| - 1;
    var front := events[..n];
    if k < n {
      assert front[..k] == events[..k];
      forall j | k < j < n ensures !InsertsKey(Run(s, front[..j]), front[j], key) {
        assert front[..j] == events[..j] && front[j] == events[j];
      }
    }
  }

  lemma DeletedOneStepLater(s: State, events: seq<Event>, key: Key, k: int)
    requires events != [] && DeletedSince(s, events[..|events| - 1], key, k)
    requires !InsertsKey(Run(s, events[..|events| - 1]), events[|events| - 1], key)
    ensures DeletedSince(s, events, key, k)
  {
    var n := |events| - 1;
    var front := events[..n];
    assert front[..k] == events[..k] && front[k] == events[k];
    forall j | k < j < |events| ensures !InsertsKey(Run(s, events[..j]), events[j], key) {
      if j < n {
        assert front[..j] == events[..j] && front[j] == events[j];
      }
    }
  }

  lemma OneStepMore(s: State, events: seq<Event>, key: Key)
    requires events != []
    ensures var front, last := events[..|events| - 1], events[|events| - 1];
            (exists k :: DeletedSince(s, events, key, k))
            <==> DeletesKey(Run(s, front), last, key)
                 || (!InsertsKey(Run(s, front), last, key) && exists k :: DeletedSince(s, front, key, k))
  {
    var n := |events| - 1;
    var front := events[..n];
    if DeletesKey(Run(s, front), events[n], key) {
      assert DeletedSince(s, events, key, n);
    }
    if k :| DeletedSince(s, front, key, k) {
      if !InsertsKey(Run(s, front), events[n], key) {
        DeletedOneStepLater(s, events, key, k);
      }
    }
    if k :| DeletedSince(s, events, key, k) {
      DeletedOneStepEarlier(s, events, key, k);
    }
  }

  lemma {:induction false} KeyGoneIffDeletedSince(s: State, events: seq<Event>, key: Key)
    requires Inv(s) && HasKey(s, key)
    ensures !HasKey(Run(s, events), key) <==> exists k :: DeletedSince(s, events, key, k)
  {
    if events != [] {
      var n := |events| - 1;
      var front, last := events[..n], events[n];
      KeyGoneIffDeletedSince(s, front, key);
      RunKeepsInv(s, front);
      var before := Run(s, front);
      KeyMovesOnlyThere(before, last, key);
      OneStepMore(s, events, key);
    }
  }

  /**
   * When a replay fails to find its row: a call whose insert met the key fails its look-up, whatever ran in
   * between, exactly if the key's row was deleted, uncounted, and none was inserted since; it never fails once the
   * row is counted.
   */
  lemma LookUpFailsIffDeletedSince(s: State, me: ClientId, key: Key, id: RowId, events: seq<Event>)
    requires Inv(s) && HasKey(s, key) && id !in s.used && (me in s.calls ==> !InFlight(s.calls[me]))
    requires forall e <- events :: !IsBy(e, me)
    ensures var met := Next(s, Insert(me, key, id));
            var t := Next(Run(met, events), FindExisting(me));
            && me in t.calls
            && (t.calls[me] == Failed(ConflictUnresolved) <==> exists k :: DeletedSince(met, events, key, k))
            && (s.index[key] in s.counted ==> t.calls[me] == Replayed(s.index[key]))
  {
    var met := Next(s, Insert(me, key, id));
    NextKeepsInv(s, Insert(me, key, id));
    assert met == s.(calls := s.calls[me := LookingUp(key)]);
    OthersKeep(met, events, me);
    KeyGoneIffDeletedSince(met, events, key);
    LookUpFailsIffRowGone(Run(met, events), me);
    RunKeepsInv(met, events);
  }

  // ---- The source's own sequence of statements -----------------------------------------------------

  predicate IsBy(e: Event, me: ClientId) {
    !e.SetStatus? && e.client == me
  }

  /** What a call may rely on while others run. */
  ghost predicate Undisturbed(s: State, t: State, me: ClientId) {
    && Inv(t) && KeepsCounted(s, t)
    && me in s.calls && me in t.calls && t.calls[me] == s.calls[me]
    && s.used <= t.used
    && forall id <- s.used :: id in t.rows ==> id in s.rows && t.rows[id] == s.rows[id]
  }

  lemma OtherStepUndisturbed(s: State, t: State, e: Event, me: ClientId)
    requires Undisturbed(s, t, me) && !IsBy(e, me)
    ensures Undisturbed(s, Next(t, e), me)
  {
    NextKeepsInv(t, e);
    NextKeepsCounted(t, e);
  }

  lemma {:induction false} OthersKeep(s: State, events: seq<Event>, me: ClientId)
    requires Inv(s) && me in s.calls && forall e <- events :: !IsBy(e, me)
    ensures Undisturbed(s, Run(s, events), me)
  {
    if events != [] {
      var front, last := events[..|events| - 1], events[|events| - 1];
      assert events == front + [last];
      OthersKeep(s, front, me);
      OtherStepUndisturbed(s, Run(s, front), last, me);
    }
  }

  lemma HolderHasRow(s: State, me: ClientId, id: RowId)
    requires Inv(s) && me in s.calls && s.calls[me] == Reserving(id)
    ensures id in s.rows && id in s.used
  {
    assert me in Holders(s) && HeldRow(s, me) == id;
  }

  lemma DeleteStep(s: State, me: ClientId, id: RowId)
    requires me in s.calls && s.calls[me] == Compensating(id)
    ensures var t := Next(s, Delete(me));
            id !in t.rows && t.used == s.used && me in t.calls && t.calls[me] == Explaining
  {
  }

  lemma ExplainStep(s: State, me: ClientId)
    requires me in s.calls && s.calls[me] == Explaining
    ensures var t := Next(s, Explain(me));
            && me in t.calls
            && t.calls[me] == Failed(if s.status == Active then UsageLimitExceeded else InvalidOrExpired)
            && t.status == s.status && t.rows == s.rows
  {
  }

  lemma InsertStep(s: State, me: ClientId, key: Key, id: RowId)
    requires id !in s.used && s.rows.Keys <= s.used && (me in s.calls ==> !InFlight(s.calls[me]))
    ensures var t := Next(s, Insert(me, key, id));
            && me in t.calls
            && t.calls[me] == (if HasKey(s, key) then LookingUp(key) else Reserving(id))
            && (HasKey(s, key) ==> t.rows == s.rows)
            && (!HasKey(s, key) ==> id in t.used && id in t.rows && t.rows[id] == Row(key))
  {
  }

  lemma ReserveStep(s: State, me: ClientId, id: RowId)
    requires me in s.calls && s.calls[me] == Reserving(id)
    ensures var t := Next(s, Reserve(me));
            && me in t.calls && t.rows == s.rows && t.used == s.used
            && t.calls[me] == (if HasCapacity(s) then Redeemed(id) else Compensating(id))
            && (HasCapacity(s) ==> id in t.counted)
  {
  }

  lemma FindStep(s: State, me: ClientId, key: Key)
    requires me in s.calls && s.calls[me] == LookingUp(key)
    ensures var t := Next(s, FindExisting(me));
            && me in t.calls && t.rows == s.rows && t.index == s.index
            && t.calls[me] == if HasKey(s, key) then Replayed(s.index[key]) else Failed(ConflictUnresolved)
  {
  }

  /** The coupon's two tables as one call sees them between its statements. */
  class CouponTables {
    var s: State

    constructor (status: Status, cap: Option<nat>)
      ensures Initial(s) && Inv(s)
    {
      s := State(status, cap, 0, map[], map[], map[], {}, {});
    }

    /**
     * Awaiting a statement: other clients may run. The caller learns only what OthersKeep proves of any
     * number of their steps.
     */
    method Await(me: ClientId)
      requires Inv(s) && me in s.calls
      modifies this
      ensures Undisturbed(old(s), s, me)
    {
    }

    method Execute(e: Event)
      requires Inv(s)
      modifies this
      ensures s == Next(old(s), e) && Inv(s) && KeepsCounted(old(s), s)
    {
      NextKeepsInv(s, e);
      NextKeepsCounted(s, e);
      s := Next(s, e);
    }

    /** The losing path: delete the row this call inserted, then read the coupon to name the reason. */
    method Compensate(me: ClientId, id: RowId) returns (error: RedeemError)
      requires Inv(s) && me in s.calls && s.calls[me] == Compensating(id) && id in s.used
      modifies this
      ensures Inv(s) && KeepsCounted(old(s), s)
      ensures me in s.calls && s.calls[me] == Failed(error)
      ensures id !in s.rows
      ensures error == if s.status == Active then UsageLimitExceeded else InvalidOrExpired
    {
      Await(me);
      DeleteStep(s, me, id);
      Execute(Delete(me));
      Await(me);
      ExplainStep(s, me);
      Execute(Explain(me));
      error := s.calls[me].error;
    }

    /** The capacity step of the row just inserted, and compensation when it fails. */
    method ReserveCapacity(me: ClientId, id: RowId) returns (error: Option<RedeemError>)
      requires Inv(s) && me in s.calls && s.calls[me] == Reserving(id) && id in s.used && id in s.rows
      modifies this
      ensures Inv(s) && KeepsCounted(old(s), s)
      ensures me in s.calls && !InFlight(s.calls[me])
      ensures error == None ==> id in s.counted && id in s.rows && s.rows[id] == old(s.rows)[id]
      ensures error.Some? ==> id !in s.rows && error.value != ConflictUnresolved
      ensures old(s).status == Active && old(s).cap == None ==> error == None
    {
      ReserveStep(s, me, id);
      Execute(Reserve(me));
      if s.calls[me].Compensating? {
        var reason := Compensate(me, id);
        return Some(reason);
      }
      return None;
    }

    /**
     * redeem, statement by statement. A redemption that is not a replay stays counted whatever the others
     * do; a call refused for capacity leaves no row of its own behind.
     */
    method Redeem(me: ClientId, key: Key, id: RowId) returns (r: Result<(RowId, bool), RedeemError>)
      requires Inv(s) && id !in s.used && (me in s.calls ==> !InFlight(s.calls[me]))
      modifies this
      ensures Inv(s) && KeepsCounted(old(s), s)
      ensures me in s.calls && !InFlight(s.calls[me])
      ensures r.Ok? && !r.value.1 ==> r.value.0 == id && id in s.counted && id in s.rows && s.rows[id] == Row(key)
      ensures r.Err? && r.error != ConflictUnresolved ==> id !in s.rows
      ensures old(HasKey(s, key)) <==> r == Err(ConflictUnresolved) || (r.Ok? && r.value.1)
    {
      InsertStep(s, me, key, id);
      Execute(Insert(me, key, id));
      Await(me);
      if s.calls[me] == LookingUp(key) {
        r := Replay(me, key);
      } else {
        HolderHasRow(s, me, id);
        var error := ReserveCapacity(me, id);
        if error.Some? {
          r := Err(error.value);
        } else {
          r := Ok((id, false));
        }
      }
    }

    method Replay(me: ClientId, key: Key) returns (r: Result<(RowId, bool), RedeemError>)
      requires Inv(s) && me in s.calls && s.calls[me] == LookingUp(key)
      modifies this
      ensures Inv(s) && KeepsCounted(old(s), s)
      ensures me in s.calls && !InFlight(s.calls[me])
      ensures s.rows == old(s.rows)
      ensures r == if HasKey(s, key) then Ok((s.index[key], true)) else Err(ConflictUnresolved)
    {
      FindStep(s, me, key);
      Execute(FindExisting(me));
      if s.calls[me].Replayed? {
        r := Ok((s.calls[me].id, true));
      } else {
        r := Err(ConflictUnresolved);
      }
    }
  }
}
