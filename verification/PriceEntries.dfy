/**
 * Versioned price book entries (backend/src/pricing/price-book.repository.ts, lines 191 to 304, and the
 * inheritance of omitted fields in price-book.service.ts, lines 264 to 286). A transaction is one atomic
 * step; inside it every statement checks the partial unique index by itself.
 */
module PriceEntries {
  import opened Outcome
  import PriceBooks

  type EntryId = nat

  datatype TaxMode = Inclusive | Exclusive

  /** The columns of the partial unique index, with a missing scope id coalesced. */
  datatype Slot = Slot(book: string, scopeType: string, scopeId: string, minQty: real)

  datatype Terms = Terms(unitPrice: real, allowZeroPrice: bool, taxPercent: real, taxMode: TaxMode, floorPrice: Option<real>)

  datatype Entry = Entry(slot: Slot, terms: Terms, version: int, supersededBy: Option<EntryId>, active: bool)

  /** `index` is PriceBookEntry_one_active_per_scope_qty: the active row of each slot. */
  datatype Table = Table(entries: map<EntryId, Entry>, index: map<Slot, EntryId>)

  datatype EntryError = NotFound | NotManageable | ScopeIdRequired | PriceNotAllowed | Immutable

  predicate ValidPrice(terms: Terms) {
    terms.unitPrice >= 0.0 && (terms.unitPrice == 0.0 ==> terms.allowZeroPrice)
  }

  /** Inserting an active row; None when a unique index rejects the statement. */
  function InsertRow(t: Table, id: EntryId, slot: Slot, terms: Terms, version: int): Option<Table> {
    if id in t.entries || slot in t.index then None
    else Some(Table(t.entries[id := Entry(slot, terms, version, None, true)], t.index[slot := id]))
  }

  /** The conditional update that takes a row out of the index; None when it matches no row. */
  function Demote(t: Table, id: EntryId, next: EntryId): Option<Table> {
    if id !in t.entries || !t.entries[id].active then None
    else Some(Table(t.entries[id := t.entries[id].(active := false, supersededBy := Some(next))],
                    t.index - {t.entries[id].slot}))
  }

  /** What a client saw of the entry it is about to supersede; it may have been read long before. */
  datatype Snapshot = Snapshot(id: EntryId, slot: Slot, version: int)

  type ClientId = nat

  /** The table and what each client last read. */
  datatype World = World(t: Table, seen: map<ClientId, Snapshot>)

  datatype Event =
    | Create(id: EntryId, slot: Slot, terms: Terms)
    | Read(client: ClientId, previousId: EntryId)
    | Supersede(client: ClientId, next: EntryId, terms: Terms)

  /** The supersede transaction: demote under the status condition, then insert the successor. */
  function Transaction(t: Table, read: Snapshot, next: EntryId, terms: Terms): Result<Table, EntryError> {
    var demoted := Demote(t, read.id, next);
    if demoted.None? then Err(Immutable)
    else
      var inserted := InsertRow(demoted.value, next, read.slot, terms, read.version + 1);
      if inserted.Some? then Ok(inserted.value) else Err(Immutable)
  }

  function Step(w: World, e: Event): Result<World, EntryError> {
    match e
    case Create(id, slot, terms) =>
      if !ValidPrice(terms) then Err(PriceNotAllowed)
      else
        var inserted := InsertRow(w.t, id, slot, terms, 1);
        if inserted.Some? then Ok(w.(t := inserted.value)) else Err(Immutable)
    case Read(client, id) =>
      if id !in w.t.entries then Err(NotFound)
      else if !w.t.entries[id].active then Err(Immutable)
      else Ok(w.(seen := w.seen[client := Snapshot(id, w.t.entries[id].slot, w.t.entries[id].version)]))
    case Supersede(client, next, terms) =>
      if client !in w.seen then Err(NotFound)
      else if !ValidPrice(terms) then Err(PriceNotAllowed)
      else
        match Transaction(w.t, w.seen[client], next, terms)
        case Ok(t) => Ok(w.(t := t))
        case Err(error) => Err(error)
  }

  /** A failed transaction rolls back. */
  function Next(w: World, e: Event): World {
    match Step(w, e)
    case Ok(after) => after
    case Err(_) => w
  }

  function Run(w: World, events: seq<Event>): World {
    if events == [] then w else Next(Run(w, events[..|events| - 1]), events[|events| - 1])
  }

  /** The abstract state: the entries of each slot from the first version to the active one. */
  type Chains = map<Slot, seq<EntryId>>

  /** Row `k` of a chain: version k + 1, linked to the row after it, active when it is the last. */
  ghost predicate AtPosition(t: Table, c: Chains, slot: Slot, k: int)
    requires slot in c && 0 <= k < |c[slot]|
  {
    var id, last := c[slot][k], k == |c[slot]| - 1;
    && id in t.entries
    && t.entries[id].slot == slot
    && t.entries[id].version == k + 1
    && t.entries[id].active == last
    && t.entries[id].supersededBy == (if last then None else Some(c[slot][k + 1]))
    && ValidPrice(t.entries[id].terms)
  }

  /** Every row stands in the chain of its slot, at the position its version names. */
  ghost predicate Stands(t: Table, c: Chains, id: EntryId)
    requires id in t.entries
  {
    var e := t.entries[id];
    e.slot in c && 1 <= e.version <= |c[e.slot]| && c[e.slot][e.version - 1] == id
  }

  /** The rows with their links and the index are exactly these chains. */
  ghost predicate Represents(t: Table, c: Chains) {
    && t.index.Keys == c.Keys
    && (forall slot <- c :: c[slot] != [] && t.index[slot] == c[slot][|c[slot]| - 1])
    && (forall slot, k {:trigger AtPosition(t, c, slot, k)} | slot in c && 0 <= k < |c[slot]| :: AtPosition(t, c, slot, k))
    && (forall id {:trigger Stands(t, c, id)} | id in t.entries :: Stands(t, c, id))
  }

  ghost predicate Inv(t: Table) {
    exists c :: Represents(t, c)
  }

  /** Rows are never rewritten: slot, price and version stay, and a superseded row keeps its successor. */
  ghost predicate Extends(t: Table, u: Table) {
    forall id <- t.entries ::
      && id in u.entries
      && u.entries[id].slot == t.entries[id].slot
      && u.entries[id].terms == t.entries[id].terms
      && u.entries[id].version == t.entries[id].version
      && (!t.entries[id].active ==> u.entries[id] == t.entries[id])
  }

  ghost predicate SnapshotIsTrue(t: Table, s: Snapshot) {
    s.id in t.entries && t.entries[s.id].slot == s.slot && t.entries[s.id].version == s.version
  }

  ghost predicate WorldInv(w: World) {
    Inv(w.t) && forall c <- w.seen :: SnapshotIsTrue(w.t, w.seen[c])
  }

  lemma CreateAppends(t: Table, c: Chains, id: EntryId, slot: Slot, terms: Terms)
    requires Represents(t, c) && ValidPrice(terms) && id !in t.entries && slot !in t.index
    ensures Represents(InsertRow(t, id, slot, terms, 1).value, c[slot := [id]])
  {
    var u, d := InsertRow(t, id, slot, terms, 1).value, c[slot := [id]];
    forall s, k | s in d && 0 <= k < |d[s]| ensures AtPosition(u, d, s, k) {
      assert s != slot ==> AtPosition(t, c, s, k);
    }
    forall a | a in u.entries ensures Stands(u, d, a) {
      assert a != id ==> Stands(t, c, a);
    }
  }

  /** The successor's row against the index of the demoted table. */
  function Superseded(t: Table, p: EntryId, next: EntryId, terms: Terms): Option<Table>
    requires p in t.entries && t.entries[p].active
  {
    InsertRow(Demote(t, p, next).value, next, t.entries[p].slot, terms, t.entries[p].version + 1)
  }

  lemma ActiveIsLast(t: Table, c: Chains, p: EntryId)
    requires Represents(t, c) && p in t.entries
    ensures var slot := t.entries[p].slot;
            && slot in c && 1 <= t.entries[p].version <= |c[slot]| && c[slot][t.entries[p].version - 1] == p
            && (t.entries[p].active <==> t.entries[p].version == |c[slot]|)
            && (t.entries[p].active <==> t.index[slot] == p)
  {
    assert Stands(t, c, p);
    var slot := t.entries[p].slot;
    assert AtPosition(t, c, slot, t.entries[p].version - 1);
    assert AtPosition(t, c, slot, |c[slot]| - 1);
  }

  lemma SupersedeAppends(t: Table, c: Chains, p: EntryId, next: EntryId, terms: Terms)
    requires Represents(t, c) && ValidPrice(terms) && p in t.entries && t.entries[p].active && next !in t.entries
    ensures Superseded(t, p, next, terms).Some?
    ensures t.entries[p].slot in c
    ensures Represents(Superseded(t, p, next, terms).value,
                       c[t.entries[p].slot := c[t.entries[p].slot] + [next]])
  {
    ActiveIsLast(t, c, p);
    var slot := t.entries[p].slot;
    var u, d := Superseded(t, p, next, terms).value, c[slot := c[slot] + [next]];
    forall s, k | s in d && 0 <= k < |d[s]| ensures AtPosition(u, d, s, k) {
      if s != slot || k < |c[slot]| {
        assert AtPosition(t, c, s, k);
        assert c[s][k] != p ==> u.entries[c[s][k]] == t.entries[c[s][k]];
        assert c[s][k] == p ==> s == slot && k == |c[slot]| - 1;
      }
    }
    forall a | a in u.entries ensures Stands(u, d, a) {
      assert a != next ==> Stands(t, c, a);
    }
  }

  lemma CreateKeeps(t: Table, id: EntryId, slot: Slot, terms: Terms)
    requires Inv(t) && ValidPrice(terms) && InsertRow(t, id, slot, terms, 1).Some?
    ensures Inv(InsertRow(t, id, slot, terms, 1).value) && Extends(t, InsertRow(t, id, slot, terms, 1).value)
  {
    var c :| Represents(t, c);
    CreateAppends(t, c, id, slot, terms);
  }

  lemma TransactionKeeps(t: Table, read: Snapshot, next: EntryId, terms: Terms)
    requires Inv(t) && ValidPrice(terms) && SnapshotIsTrue(t, read) && Transaction(t, read, next, terms).Ok?
    ensures Inv(Transaction(t, read, next, terms).value) && Extends(t, Transaction(t, read, next, terms).value)
  {
    var c :| Represents(t, c);
    SupersedeAppends(t, c, read.id, next, terms);
  }

  lemma NextKeeps(w: World, e: Event)
    requires WorldInv(w)
    ensures WorldInv(Next(w, e)) && Extends(w.t, Next(w, e).t)
  {
    if Step(w, e).Ok? {
      match e
      case Create(id, slot, terms) => CreateKeeps(w.t, id, slot, terms);
      case Read(client, id) =>
      case Supersede(client, next, terms) => TransactionKeeps(w.t, w.seen[client], next, terms);
    }
  }

  lemma ExtendsTransitive(t: Table, u: Table, v: Table)
    requires Extends(t, u) && Extends(u, v)
    ensures Extends(t, v)
  {
  }

  /** The chains survive any interleaving of reads and transactions, and no row is ever rewritten. */
  lemma {:induction false} RunKeeps(w: World, events: seq<Event>)
    requires WorldInv(w)
    ensures WorldInv(Run(w, events)) && Extends(w.t, Run(w, events).t)
  {
    if events != [] {
      var front := events[..|events| - 1];
      RunKeeps(w, front);
      NextKeeps(Run(w, front), events[|events| - 1]);
      ExtendsTransitive(w.t, Run(w, front).t, Run(w, events).t);
    }
  }

  // ---- What the invariant says about a slot --------------------------------------------------------

  /** The superseded_by links followed from `id`, at most `steps` times. */
  function Follow(t: Table, id: EntryId, steps: nat): EntryId
    decreases steps
  {
    if steps == 0 || id !in t.entries || t.entries[id].supersededBy == None then id
    else Follow(t, t.entries[id].supersededBy.value, steps - 1)
  }

  lemma {:induction false} FollowWalksTheChain(t: Table, c: Chains, slot: Slot, k: nat, steps: nat)
    requires Represents(t, c) && slot in c && k < |c[slot]|
    ensures Follow(t, c[slot][k], steps) == c[slot][if k + steps < |c[slot]| then k + steps else |c[slot]| - 1]
    decreases steps
  {
    assert AtPosition(t, c, slot, k);
    if steps > 0 && k + 1 < |c[slot]| {
      FollowWalksTheChain(t, c, slot, k + 1, steps - 1);
    }
  }

  /**
   * The links of the entries of a slot form one acyclic chain: following them from any entry raises the
   * version by one each time and ends, after active version minus own version steps, at the active entry.
   */
  lemma LinksEndAtActive(t: Table, id: EntryId, steps: nat)
    requires Inv(t) && id in t.entries
    ensures var slot := t.entries[id].slot;
            && slot in t.index && t.index[slot] in t.entries && t.entries[t.index[slot]].active
            && var distance := t.entries[t.index[slot]].version - t.entries[id].version;
            && distance >= 0
            && (steps >= distance ==> Follow(t, id, steps) == t.index[slot])
            && (steps <= distance ==>
                  && Follow(t, id, steps) in t.entries
                  && t.entries[Follow(t, id, steps)].slot == slot
                  && t.entries[Follow(t, id, steps)].version == t.entries[id].version + steps)
  {
    var c :| Represents(t, c);
    ActiveIsLast(t, c, id);
    var slot := t.entries[id].slot;
    assert AtPosition(t, c, slot, |c[slot]| - 1);
    FollowWalksTheChain(t, c, slot, t.entries[id].version - 1, steps);
    if t.entries[id].version - 1 + steps < |c[slot]| {
      assert AtPosition(t, c, slot, t.entries[id].version - 1 + steps);
    }
  }

  /** Versions run 1..n without gaps: each number up to the active version belongs to exactly one entry. */
  lemma VersionsHaveNoGaps(t: Table, slot: Slot, v: int)
    requires Inv(t) && slot in t.index
    ensures t.index[slot] in t.entries
    ensures 1 <= v <= t.entries[t.index[slot]].version <==>
            exists id <- t.entries :: t.entries[id].slot == slot && t.entries[id].version == v
    ensures forall a, b | a in t.entries && b in t.entries && t.entries[a].slot == t.entries[b].slot == slot
                          && t.entries[a].version == t.entries[b].version == v :: a == b
  {
    var c :| Represents(t, c);
    assert AtPosition(t, c, slot, |c[slot]| - 1);
    if 1 <= v <= |c[slot]| {
      assert AtPosition(t, c, slot, v - 1);
      assert c[slot][v - 1] in t.entries;
    }
    forall a | a in t.entries && t.entries[a].slot == slot ensures Stands(t, c, a) {}
  }

  /** Exactly one active entry in every slot that has any entry. */
  lemma ExactlyOneActive(t: Table, id: EntryId)
    requires Inv(t) && id in t.entries
    ensures exists a <- t.entries :: t.entries[a].slot == t.entries[id].slot && t.entries[a].active
    ensures forall a, b | a in t.entries && b in t.entries && t.entries[a].active && t.entries[b].active
                          && t.entries[a].slot == t.entries[b].slot :: a == b
  {
    LinksEndAtActive(t, id, 0);
    assert t.entries[t.index[t.entries[id].slot]].slot == t.entries[id].slot by {
      LinksEndAtActive(t, id, t.entries[t.index[t.entries[id].slot]].version - t.entries[id].version);
    }
    var c :| Represents(t, c);
    forall a, b | a in t.entries && b in t.entries && t.entries[a].active && t.entries[b].active
                  && t.entries[a].slot == t.entries[b].slot ensures a == b
    {
      ActiveIsLast(t, c, a);
      ActiveIsLast(t, c, b);
    }
  }

  /**
   * Statement order matters: against the index, inserting the successor while its predecessor is active is
   * always rejected, and demoting first never is.
   */
  lemma DemoteBeforeInsert(t: Table, p: EntryId, next: EntryId, terms: Terms)
    requires Inv(t) && p in t.entries && t.entries[p].active && next !in t.entries
    ensures InsertRow(t, next, t.entries[p].slot, terms, t.entries[p].version + 1) == None
    ensures Demote(t, p, next).Some? && Superseded(t, p, next, terms).Some?
  {
    var c :| Represents(t, c);
    ActiveIsLast(t, c, p);
  }

  /** Of two clients that read the same entry, only one supersedes it, whatever runs in between. */
  lemma SecondSupersedeIsRefused(w: World, e: Event, between: seq<Event>, f: Event)
    requires WorldInv(w) && e.Supersede? && Step(w, e).Ok?
    requires f.Supersede? && f.client in Run(Next(w, e), between).seen && ValidPrice(f.terms)
    requires Run(Next(w, e), between).seen[f.client].id == w.seen[e.client].id
    ensures Step(Run(Next(w, e), between), f) == Err(Immutable)
  {
    NextKeeps(w, e);
    RunKeeps(Next(w, e), between);
    assert !Next(w, e).t.entries[w.seen[e.client].id].active;
  }

  // ---- The repository and service methods ----------------------------------------------------------

  /** The fields a supersede request may leave out. */
  datatype Change = Change(unitPrice: real, allowZeroPrice: Option<bool>, taxPercent: Option<real>,
                           taxMode: Option<TaxMode>, floorPrice: Option<real>)

  function Or<T>(chosen: Option<T>, otherwise: T): T {
    if chosen.Some? then chosen.value else otherwise
  }

  /** Omitted fields are inherited from the entry being superseded. */
  function Merge(change: Change, previous: Terms): Terms {
    Terms(change.unitPrice,
          Or(change.allowZeroPrice, previous.allowZeroPrice),
          Or(change.taxPercent, previous.taxPercent),
          Or(change.taxMode, previous.taxMode),
          if change.floorPrice.Some? then change.floorPrice else previous.floorPrice)
  }

  /**
   * assertEntriesManageable on the status of the book that was read; `mayPublish` is the policy's answer for
   * pricing.price-book.activate.
   */
  predicate Manageable(book: PriceBooks.Status, mayPublish: bool) {
    book.Draft? || (book.Active? && mayPublish)
  }

  /** A create request; what it leaves out takes the service's defaults. */
  datatype NewEntry = NewEntry(book: string, scopeType: string, scopeId: Option<string>, minQty: Option<real>,
                               unitPrice: real, allowZeroPrice: Option<bool>, taxPercent: Option<real>,
                               taxMode: TaxMode, floorPrice: Option<real>)

  predicate HasScope(request: NewEntry) {
    request.scopeType == "global" || (request.scopeId.Some? && request.scopeId.value != "")
  }

  function SlotOf(request: NewEntry): Slot {
    Slot(request.book, request.scopeType, if request.scopeType == "global" then "" else Or(request.scopeId, ""),
         Or(request.minQty, 1.0))
  }

  function TermsOf(request: NewEntry): Terms {
    Terms(request.unitPrice, Or(request.allowZeroPrice, false), Or(request.taxPercent, 14.0), request.taxMode,
          request.floorPrice)
  }

  class PriceBookEntries {
    var t: Table

    constructor ()
      ensures Inv(t) && t.entries == map[]
    {
      t := Table(map[], map[]);
      new;
      assert Represents(t, map[]);
    }

    /** Other clients run between two statements; RunKeeps says what that preserves. */
    method Await()
      requires Inv(t)
      modifies this
      ensures Inv(t) && Extends(old(t), t)
    {
    }

    /** createEntry on the book that was read; each refusal in the source's order. */
    method CreateEntry(id: EntryId, book: Option<PriceBooks.Status>, mayPublish: bool, request: NewEntry)
      returns (r: Result<EntryId, EntryError>)
      requires Inv(t)
      modifies this
      ensures Inv(t) && Extends(old(t), t)
      ensures r.Ok? <==> book.Some? && Manageable(book.value, mayPublish) && HasScope(request) && ValidPrice(TermsOf(request))
                         && id !in old(t).entries && SlotOf(request) !in old(t).index
      ensures r.Ok? ==> r.value == id && id in t.entries
                        && t.entries[id] == Entry(SlotOf(request), TermsOf(request), 1, None, true)
      ensures r.Err? ==> t == old(t)
      ensures r.Err? ==> r.error == if book.None? then NotFound
                                    else if !Manageable(book.value, mayPublish) then NotManageable
                                    else if !HasScope(request) then ScopeIdRequired
                                    else if !ValidPrice(TermsOf(request)) then PriceNotAllowed
                                    else Immutable
    {
      if book.None? {
        return Err(NotFound);
      }
      if !Manageable(book.value, mayPublish) {
        return Err(NotManageable);
      }
      if request.scopeType != "global" && (request.scopeId.None? || request.scopeId.value == "") {
        return Err(ScopeIdRequired);
      }
      if !ValidPrice(TermsOf(request)) {
        return Err(PriceNotAllowed);
      }
      var inserted := InsertRow(t, id, SlotOf(request), TermsOf(request), 1);
      if inserted == None {
        return Err(Immutable);
      }
      CreateKeeps(t, id, SlotOf(request), TermsOf(request));
      t := inserted.value;
      return Ok(id);
    }

    /**
     * Read, then one transaction. Although the entry is read before other clients run, the successor it
     * creates inherits the terms its predecessor really has and takes the next version of its slot.
     */
    method SupersedeEntry(previousId: EntryId, book: PriceBooks.Status, mayPublish: bool, next: EntryId, change: Change)
      returns (r: Result<EntryId, EntryError>)
      requires Inv(t)
      modifies this
      ensures Inv(t) && Extends(old(t), t)
      ensures previousId !in old(t).entries ==> r == Err(NotFound)
      ensures r.Ok? ==> Manageable(book, mayPublish)
      ensures r.Ok? ==>
                && r.value == next && next in t.entries && previousId in t.entries
                && t.entries[previousId].supersededBy == Some(next) && !t.entries[previousId].active
                && t.entries[next] == Entry(t.entries[previousId].slot, Merge(change, t.entries[previousId].terms),
                                            t.entries[previousId].version + 1, None, true)
    {
      if previousId !in t.entries {
        return Err(NotFound);
      }
      var read := t.entries[previousId];
      if !Manageable(book, mayPublish) {
        return Err(NotManageable);
      }
      var terms := Merge(change, read.terms);
      if !ValidPrice(terms) {
        return Err(PriceNotAllowed);
      }
      if !read.active {
        return Err(Immutable);
      }
      Await();
      var demoted := Demote(t, previousId, next);
      if demoted == None {
        return Err(Immutable);
      }
      var inserted := InsertRow(demoted.value, next, read.slot, terms, read.version + 1);
      if inserted == None {
        return Err(Immutable);
      }
      TransactionKeeps(t, Snapshot(previousId, read.slot, read.version), next, terms);
      t := inserted.value;
      return Ok(next);
    }
  }
}
