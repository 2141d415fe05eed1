/**
 * The result-count cache of the product list (backend/src/products/products.service.ts, lines 122 to 145).
 * Callbacks run one at a time, so look-ups, completions, failures and invalidations interleave as whole steps.
 */
module CountCache {
  import opened Outcome
  import opened Text

  type Key = string
  type PromiseId = nat

  const MAX_KEYS := 200

  /** A pending count never expires by time. */
  datatype Slot = Slot(expiresAt: Option<int>, promise: PromiseId)

  /** What a promise's number will be: a count for `key` whose query began after `epoch` invalidations. */
  datatype Origin = Origin(key: Key, epoch: nat)

  /**
   * The Map is `slots` with its keys in insertion order. `pending` are the queries in flight. `origins` and
   * `epoch` are history.
   */
  datatype State = State(
    order: seq<Key>,
    slots: map<Key, Slot>,
    pending: set<PromiseId>,
    origins: map<PromiseId, Origin>,
    epoch: nat)

  datatype Event =
    | Lookup(key: Key, now: int, promise: PromiseId)
    | Complete(promise: PromiseId, now: int, ttl: nat, resolved: PromiseId)
    | Fail(promise: PromiseId)
    | Invalidate

  /** Map.set: an existing key keeps its place. */
  function Set(s: State, key: Key, slot: Slot): State {
    s.(order := if key in s.slots then s.order else s.order + [key], slots := s.slots[key := slot])
  }

  function Without(order: seq<Key>, key: Key): seq<Key> {
    if order == [] then []
    else if order[0] == key then Without(order[1..], key)
    else [order[0]] + Without(order[1..], key)
  }

  function Remove(s: State, key: Key): State {
    s.(order := Without(s.order, key), slots := s.slots - {key})
  }

  predicate Hit(s: State, key: Key, now: int) {
    key in s.slots && (s.slots[key].expiresAt == None || s.slots[key].expiresAt.value > now)
  }

  function Evict(s: State): State {
    if |s.order| > MAX_KEYS then Remove(s, s.order[0]) else s
  }

  /** The slot still holds this very promise. */
  predicate Installed(s: State, p: PromiseId)
    requires p in s.origins
  {
    var key := s.origins[p].key;
    key in s.slots && s.slots[key].promise == p
  }

  /** Steps with a promise id that is not new, or not in flight, do nothing. */
  function Next(s: State, e: Event): State {
    match e
    case Lookup(key, now, p) =>
      if Hit(s, key, now) || p in s.origins then s
      else Evict(Set(s.(pending := s.pending + {p}, origins := s.origins[p := Origin(key, s.epoch)]), key, Slot(None, p)))
    case Complete(p, now, ttl, resolved) =>
      if p !in s.pending || p !in s.origins || resolved in s.origins then s
      else
        var done := s.(pending := s.pending - {p});
        if Installed(s, p)
        then Set(done.(origins := s.origins[resolved := s.origins[p]]), s.origins[p].key, Slot(Some(now + ttl), resolved))
        else done
    case Fail(p) =>
      if p !in s.pending || p !in s.origins then s
      else
        var done := s.(pending := s.pending - {p});
        if Installed(s, p) then Remove(done, s.origins[p].key) else done
    case Invalidate => s.(order := [], slots := map[], epoch := s.epoch + 1)
  }

  function Run(s: State, events: seq<Event>): State {
    if events == [] then s else Next(Run(s, events[..|events| - 1]), events[|events| - 1])
  }

  const EMPTY := State([], map[], {}, map[], 0)

  predicate Distinct(order: seq<Key>) {
    forall i, j | 0 <= i < j < |order| :: order[i] != order[j]
  }

  function KeySet(order: seq<Key>): set<Key> {
    set k <- order
  }

  /** Every cached promise counts its own key and began after the latest invalidation. */
  ghost predicate Fresh(s: State) {
    forall key <- s.slots ::
      s.slots[key].promise in s.origins && s.origins[s.slots[key].promise] == Origin(key, s.epoch)
  }

  ghost predicate Ordered(s: State) {
    Distinct(s.order) && s.slots.Keys == KeySet(s.order)
  }

  ghost predicate Inv(s: State) {
    && Ordered(s)
    && Fresh(s)
    && |s.order| <= MAX_KEYS
    && (forall p <- s.origins :: s.origins[p].epoch <= s.epoch)
    && (forall key <- s.slots | s.slots[key].expiresAt == None :: s.slots[key].promise in s.pending)
  }

  lemma {:induction false} WithoutKey(order: seq<Key>, key: Key)
    requires Distinct(order)
    ensures Distinct(Without(order, key))
    ensures KeySet(Without(order, key)) == KeySet(order) - {key}
    ensures |Without(order, key)| == if key in order then |order| - 1 else |order|
  {
    if order != [] {
      WithoutKey(order[1..], key);
      assert order == [order[0]] + order[1..];
      if order[0] != key {
        var rest := Without(order[1..], key);
        assert forall k :: k in rest <==> k in KeySet(rest);
        assert order[0] !in KeySet(order[1..]) && order[0] !in rest;
      } else {
        assert key !in order[1..];
      }
    }
  }

  lemma SetKeeps(s: State, key: Key, slot: Slot)
    requires Ordered(s)
    ensures Ordered(Set(s, key, slot))
    ensures |Set(s, key, slot).order| == |s.order| + if key in s.slots then 0 else 1
  {
    if key !in s.slots {
      assert key !in s.order by {
        assert key !in KeySet(s.order);
      }
    }
  }

  lemma LookupKeeps(s: State, key: Key, now: int, p: PromiseId)
    requires Inv(s)
    ensures Inv(Next(s, Lookup(key, now, p)))
  {
    if !Hit(s, key, now) && p !in s.origins {
      var started := s.(pending := s.pending + {p}, origins := s.origins[p := Origin(key, s.epoch)]);
      SetKeeps(started, key, Slot(None, p));
      var stored := Set(started, key, Slot(None, p));
      assert Fresh(stored);
      if |stored.order| > MAX_KEYS {
        WithoutKey(stored.order, stored.order[0]);
      }
    }
  }

  lemma CompleteKeeps(s: State, p: PromiseId, now: int, ttl: nat, resolved: PromiseId)
    requires Inv(s)
    ensures Inv(Next(s, Complete(p, now, ttl, resolved)))
  {
    if p in s.pending && p in s.origins && resolved !in s.origins && Installed(s, p) {
      var done := s.(pending := s.pending - {p}, origins := s.origins[resolved := s.origins[p]]);
      SetKeeps(done, s.origins[p].key, Slot(Some(now + ttl), resolved));
      OnlyOneSlotHolds(s, p);
    } else if p in s.origins && !Installed(s, p) {
      StaleIsIgnored(s, p);
    }
  }

  /** A promise sits under its own key or nowhere. */
  lemma OnlyOneSlotHolds(s: State, p: PromiseId)
    requires Inv(s) && p in s.origins
    ensures forall key <- s.slots | s.slots[key].promise == p :: key == s.origins[p].key
  {
  }

  lemma StaleIsIgnored(s: State, p: PromiseId)
    requires Inv(s) && p in s.origins && !Installed(s, p)
    ensures forall key <- s.slots :: s.slots[key].promise != p
  {
    OnlyOneSlotHolds(s, p);
  }

  lemma FailKeeps(s: State, p: PromiseId)
    requires Inv(s)
    ensures Inv(Next(s, Fail(p)))
  {
    if p in s.pending && p in s.origins {
      OnlyOneSlotHolds(s, p);
      if Installed(s, p) {
        WithoutKey(s.order, s.origins[p].key);
      }
    }
  }

  lemma NextKeeps(s: State, e: Event)
    requires Inv(s)
    ensures Inv(Next(s, e))
  {
    match e
    case Lookup(key, now, p) => LookupKeeps(s, key, now, p);
    case Complete(p, now, ttl, resolved) => CompleteKeeps(s, p, now, ttl, resolved);
    case Fail(p) => FailKeeps(s, p);
    case Invalidate =>
  }

  /**
   * Over any interleaving: every cached count is for its own key and was started after the latest
   * invalidation, and the Map never holds more than 200 keys after a step.
   */
  lemma {:induction false} CacheIsFresh(events: seq<Event>)
    ensures var s := Run(EMPTY, events);
            && Inv(s)
            && |s.slots| <= MAX_KEYS
            && forall key <- s.slots :: s.origins[s.slots[key].promise] == Origin(key, s.epoch)
  {
    if events != [] {
      CacheIsFresh(events[..|events| - 1]);
      NextKeeps(Run(EMPTY, events[..|events| - 1]), events[|events| - 1]);
    }
    OrderLists(Run(EMPTY, events));
  }

  lemma OrderLists(s: State)
    requires Inv(s)
    ensures |s.slots| == |s.order|
  {
    DistinctSize(s.order);
    assert |s.slots| == |s.slots.Keys|;
  }

  lemma {:induction false} DistinctSize(order: seq<Key>)
    requires Distinct(order)
    ensures |KeySet(order)| == |order|
  {
    if order != [] {
      DistinctSize(order[1..]);
      assert KeySet(order) == {order[0]} + KeySet(order[1..]);
      assert order[0] !in KeySet(order[1..]);
    }
  }

  /** A slow count from before an invalidation is never reinstalled, however late it completes or fails. */
  lemma SlowCountIsDropped(events: seq<Event>, p: PromiseId, now: int, ttl: nat, resolved: PromiseId)
    requires var s := Run(EMPTY, events); p in s.origins && s.origins[p].epoch < s.epoch
    ensures var s := Run(EMPTY, events);
            && Next(s, Complete(p, now, ttl, resolved)).slots == s.slots
            && Next(s, Fail(p)).slots == s.slots
  {
    CacheIsFresh(events);
  }

  // ---- The service's methods -----------------------------------------------------------------------

  class ProductCounts {
    var s: State

    constructor ()
      ensures s == EMPTY && Inv(s)
    {
      s := EMPTY;
    }

    /** cachedCount up to its return: the cached promise, or a new query's `promise`. */
    method CachedCount(key: Key, now: int, promise: PromiseId) returns (value: PromiseId)
      requires Inv(s) && promise !in s.origins
      modifies this
      ensures s == Next(old(s), Lookup(key, now, promise)) && Inv(s)
      ensures Hit(old(s), key, now) ==> value == old(s).slots[key].promise && s == old(s)
      ensures !Hit(old(s), key, now) ==> value == promise && promise in s.pending
      ensures value in s.origins && s.origins[value] == Origin(key, s.epoch)
    {
      NextKeeps(s, Lookup(key, now, promise));
      if key in s.slots {
        var cached := s.slots[key];
        if cached.expiresAt == None || cached.expiresAt.value > now {
          return cached.promise;
        }
      }
      s := s.(pending := s.pending + {promise}, origins := s.origins[promise := Origin(key, s.epoch)]);
      if key !in s.slots {
        s := s.(order := s.order + [key]);
      }
      s := s.(slots := s.slots[key := Slot(None, promise)]);
      if |s.order| > MAX_KEYS {
        var oldest := s.order[0];
        s := s.(order := Without(s.order, oldest), slots := s.slots - {oldest});
      }
      return promise;
    }

    /** The then callback: install the number only while the slot still holds this promise. */
    method Resolve(p: PromiseId, now: int, ttl: nat, resolved: PromiseId)
      requires Inv(s) && p in s.pending && p in s.origins && resolved !in s.origins
      modifies this
      ensures s == Next(old(s), Complete(p, now, ttl, resolved)) && Inv(s)
      ensures old(s).origins[p].epoch < old(s).epoch ==> s.slots == old(s).slots
    {
      NextKeeps(s, Complete(p, now, ttl, resolved));
      var key := s.origins[p].key;
      if key in s.slots && s.slots[key].promise == p {
        s := s.(slots := s.slots[key := Slot(Some(now + ttl), resolved)], origins := s.origins[resolved := s.origins[p]]);
      }
      s := s.(pending := s.pending - {p});
    }

    /** The catch callback: forget the key only while the slot still holds this promise. */
    method Reject(p: PromiseId)
      requires Inv(s) && p in s.pending && p in s.origins
      modifies this
      ensures s == Next(old(s), Fail(p)) && Inv(s)
    {
      NextKeeps(s, Fail(p));
      var key := s.origins[p].key;
      if key in s.slots && s.slots[key].promise == p {
        s := s.(order := Without(s.order, key), slots := s.slots - {key});
      }
      s := s.(pending := s.pending - {p});
    }

    method InvalidateCounts()
      requires Inv(s)
      modifies this
      ensures s == Next(old(s), Invalidate) && Inv(s) && s.slots == map[]
    {
      NextKeeps(s, Invalidate);
      s := s.(order := [], slots := map[], epoch := s.epoch + 1);
    }
  }

  // ---- The key -------------------------------------------------------------------------------------

  function CacheKey(tenantId: string, query: string): Key {
    tenantId + ":" + query
  }

  /** Tenant ids are UUIDs, so no two tenants share a key. */
  lemma KeysContainTenant(tenant: string, query: string, tenant': string, query': string)
    requires ':' !in tenant && ':' !in tenant'
    ensures CacheKey(tenant, query) == CacheKey(tenant', query') <==> tenant == tenant' && query == query'
  {
    var k, l := CacheKey(tenant, query), CacheKey(tenant', query');
    IndexOfSeam(tenant, ':', query);
    IndexOfSeam(tenant', ':', query');
    assert k[..|tenant|] == tenant && k[|tenant| + 1..] == query;
    assert l[..|tenant'|] == tenant' && l[|tenant'| + 1..] == query';
  }
}
