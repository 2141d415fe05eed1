/** Sums over sequences, and the sort that Array.prototype.sort performs with a comparator. */
module Sequences {

  function SumBy<T>(f: T -> int, xs: seq<T>): int {
    if xs == [] then 0 else SumBy(f, xs[..|xs| - 1]) + f(xs[|xs| - 1])
  }

  lemma SumOfOne<T>(f: T -> int, x: T)
    ensures SumBy(f, [x]) == f(x)
  {
    assert [x][..0] == [];
  }

  lemma {:induction false} SumByConcat<T>(f: T -> int, xs: seq<T>, ys: seq<T>)
    ensures SumBy(f, xs + ys) == SumBy(f, xs) + SumBy(f, ys)
  {
    if ys == [] {
      assert xs + ys == xs;
    } else {
      SumByConcat(f, xs, ys[..|ys| - 1]);
      assert (xs + ys)[..|xs + ys| - 1] == xs + ys[..|ys| - 1];
    }
  }

  lemma SumByRemove<T>(f: T -> int, xs: seq<T>, k: nat)
    requires k < |xs|
    ensures SumBy(f, xs) == SumBy(f, xs[..k] + xs[k + 1..]) + f(xs[k])
  {
    assert xs == xs[..k] + xs[k..] && xs[k..] == [xs[k]] + xs[k + 1..];
    SumByConcat(f, xs[..k], xs[k..]);
    SumByConcat(f, [xs[k]], xs[k + 1..]);
    SumByConcat(f, xs[..k], xs[k + 1..]);
    SumByOne(f, xs[k]);
  }

  lemma SumByOne<T>(f: T -> int, x: T)
    ensures SumBy(f, [x]) == f(x)
  {
    assert [x][..0] == [];
  }

  lemma Without<T>(xs: seq<T>, k: nat)
    requires k < |xs|
    ensures multiset(xs[..k] + xs[k + 1..]) == multiset(xs) - multiset{xs[k]}
  {
    assert xs == xs[..k] + ([xs[k]] + xs[k + 1..]);
    assert multiset(xs) == multiset(xs[..k]) + multiset([xs[k]] + xs[k + 1..]);
    assert multiset([xs[k]] + xs[k + 1..]) == multiset{xs[k]} + multiset(xs[k + 1..]);
  }

  /** Where the last member of a permutation stands in the other, and what is left. */
  lemma Partner<T>(xs: seq<T>, ys: seq<T>) returns (k: nat)
    requires multiset(xs) == multiset(ys) && xs != []
    ensures k < |ys| && ys[k] == xs[|xs| - 1]
    ensures multiset(xs[..|xs| - 1]) == multiset(ys[..k] + ys[k + 1..])
  {
    var n := |xs| - 1;
    assert xs[n] in multiset(xs);
    assert xs[n] in multiset(ys);
    k :| 0 <= k < |ys| && ys[k] == xs[n];
    Without(xs, n);
    assert xs[..n] + xs[n + 1..] == xs[..n];
    Without(ys, k);
  }

  lemma {:induction false} SumByPermutation<T>(f: T -> int, xs: seq<T>, ys: seq<T>)
    requires multiset(xs) == multiset(ys)
    ensures SumBy(f, xs) == SumBy(f, ys)
    decreases |xs|
  {
    if xs == [] {
      assert |multiset(ys)| == |ys|;
    } else {
      var k := Partner(xs, ys);
      SumByRemove(f, ys, k);
      SumByPermutation(f, xs[..|xs| - 1], ys[..k] + ys[k + 1..]);
    }
  }

  lemma SameMembers<T(!new)>(xs: seq<T>, ys: seq<T>)
    requires multiset(xs) == multiset(ys)
    ensures forall x :: x in xs <==> x in ys
  {
    forall x ensures x in xs <==> x in ys {
      assert x in multiset(xs) <==> x in multiset(ys);
    }
  }

  lemma {:induction false} SumByAgree<T>(f: T -> int, g: T -> int, xs: seq<T>)
    requires forall x <- xs :: f(x) == g(x)
    ensures SumBy(f, xs) == SumBy(g, xs)
  {
    if xs != [] {
      SumByAgree(f, g, xs[..|xs| - 1]);
    }
  }

  lemma {:induction false} SumByPlus<T>(f: T -> int, g: T -> int, h: T -> int, xs: seq<T>)
    requires forall x <- xs :: h(x) == f(x) + g(x)
    ensures SumBy(h, xs) == SumBy(f, xs) + SumBy(g, xs)
  {
    if xs != [] {
      SumByPlus(f, g, h, xs[..|xs| - 1]);
    }
  }

  /** `f` on the members whose key is `k`, zero elsewhere. */
  function Only<T, K(==)>(f: T -> int, key: T -> K, k: K): T -> int {
    (x: T) => if key(x) == k then f(x) else 0
  }

  function GroupSum<T, K(==)>(f: T -> int, key: T -> K, xs: seq<T>): K -> int {
    (k: K) => SumBy(Only(f, key, k), xs)
  }

  function ShareOf<T, K(==)>(f: T -> int, key: T -> K, x: T): K -> int {
    (k: K) => if key(x) == k then f(x) else 0
  }

  lemma {:induction false} OneGroupTakesIt<T, K>(f: T -> int, key: T -> K, x: T, keys: seq<K>)
    requires forall i, j | 0 <= i < j < |keys| :: keys[i] != keys[j]
    ensures SumBy(ShareOf(f, key, x), keys) == if key(x) in keys then f(x) else 0
  {
    if keys != [] {
      var front, last := keys[..|keys| - 1], keys[|keys| - 1];
      OneGroupTakesIt(f, key, x, front);
      assert keys == front + [last];
      assert last !in front;
    }
  }

  lemma {:induction false} EmptyGroups<T, K>(f: T -> int, key: T -> K, keys: seq<K>)
    ensures SumBy(GroupSum(f, key, []), keys) == 0
  {
    if keys != [] {
      EmptyGroups(f, key, keys[..|keys| - 1]);
    }
  }

  /** Grouping by key neither loses nor invents anything. */
  lemma {:induction false} GroupingConserves<T, K>(f: T -> int, key: T -> K, xs: seq<T>, keys: seq<K>)
    requires forall i, j | 0 <= i < j < |keys| :: keys[i] != keys[j]
    requires forall x <- xs :: key(x) in keys
    ensures SumBy(GroupSum(f, key, xs), keys) == SumBy(f, xs)
  {
    if xs == [] {
      EmptyGroups(f, key, keys);
    } else {
      var front, last := xs[..|xs| - 1], xs[|xs| - 1];
      assert xs == front + [last];
      GroupingConserves(f, key, front, keys);
      OneGroupTakesIt(f, key, last, keys);
      SumByPlus(GroupSum(f, key, front), ShareOf(f, key, last), GroupSum(f, key, xs), keys);
    }
  }

  function Filter<T>(p: T -> bool, xs: seq<T>): seq<T> {
    if xs == [] then []
    else
      var front, last := Filter(p, xs[..|xs| - 1]), xs[|xs| - 1];
      if p(last) then front + [last] else front
  }

  /** A sum over a disjoint union of selections is the sum of the sums. */
  lemma {:induction false} SumOfSplitSelection<T>(f: T -> int, p: T -> bool, q: T -> bool, r: T -> bool, xs: seq<T>)
    requires forall x <- xs :: (r(x) <==> p(x) || q(x)) && !(p(x) && q(x))
    ensures SumBy(f, Filter(r, xs)) == SumBy(f, Filter(p, xs)) + SumBy(f, Filter(q, xs))
    ensures |Filter(r, xs)| == |Filter(p, xs)| + |Filter(q, xs)|
  {
    if xs != [] {
      var front, last := xs[..|xs| - 1], xs[|xs| - 1];
      SumOfSplitSelection(f, p, q, r, front);
      SumByConcat(f, Filter(p, front), [last]);
      SumByConcat(f, Filter(q, front), [last]);
      SumByConcat(f, Filter(r, front), [last]);
      assert [last][..0] == [];
    }
  }

  function Insert<T>(before: (T, T) -> bool, x: T, xs: seq<T>): seq<T> {
    if xs == [] || before(x, xs[0]) then [x] + xs else [xs[0]] + Insert(before, x, xs[1..])
  }

  function Sort<T>(before: (T, T) -> bool, xs: seq<T>): seq<T> {
    if xs == [] then [] else Insert(before, xs[0], Sort(before, xs[1..]))
  }

  ghost predicate Ordered<T>(before: (T, T) -> bool, xs: seq<T>) {
    forall i, j | 0 <= i < j < |xs| :: before(xs[i], xs[j])
  }

  /** `before` is a strict order on the members of `xs` that decides every two distinct ones. */
  ghost predicate Decides<T>(before: (T, T) -> bool, xs: seq<T>) {
    && (forall i, j | 0 <= i < j < |xs| :: before(xs[i], xs[j]) || before(xs[j], xs[i]))
    && (forall x, y, z | x in xs && y in xs && z in xs && before(x, y) && before(y, z) :: before(x, z))
  }

  lemma {:induction false} InsertKeeps<T>(before: (T, T) -> bool, x: T, xs: seq<T>)
    ensures multiset(Insert(before, x, xs)) == multiset([x]) + multiset(xs)
    ensures |Insert(before, x, xs)| == |xs| + 1
  {
    if xs != [] && !before(x, xs[0]) {
      InsertKeeps(before, x, xs[1..]);
      assert xs == [xs[0]] + xs[1..];
    }
  }

  lemma {:induction false} InsertOrders<T>(before: (T, T) -> bool, x: T, xs: seq<T>)
    requires Ordered(before, xs)
    requires forall y <- xs :: before(x, y) || before(y, x)
    requires forall y, z | y in xs && z in xs && before(x, y) && before(y, z) :: before(x, z)
    ensures Ordered(before, Insert(before, x, xs))
  {
    if xs != [] && !before(x, xs[0]) {
      InsertOrders(before, x, xs[1..]);
      InsertKeeps(before, x, xs[1..]);
      var rest := Insert(before, x, xs[1..]);
      forall j | 0 <= j < |rest| ensures before(xs[0], rest[j]) {
        assert rest[j] in multiset(rest);
        assert rest[j] == x || rest[j] in xs[1..];
      }
    } else if xs != [] {
      forall j | 0 <= j < |xs| ensures before(x, xs[j]) {
        assert xs[j] in xs && xs[0] in xs;
      }
    }
  }

  lemma {:induction false} SortSorts<T>(before: (T, T) -> bool, xs: seq<T>)
    requires Decides(before, xs)
    ensures multiset(Sort(before, xs)) == multiset(xs)
    ensures |Sort(before, xs)| == |xs|
    ensures Ordered(before, Sort(before, xs))
  {
    if xs != [] {
      var tail := Sort(before, xs[1..]);
      SortSorts(before, xs[1..]);
      InsertKeeps(before, xs[0], tail);
      assert xs == [xs[0]] + xs[1..];
      forall y | y in tail ensures y in xs[1..] && (before(xs[0], y) || before(y, xs[0])) {
        assert y in multiset(tail);
        var k :| 0 <= k < |xs[1..]| && xs[1..][k] == y;
        assert xs[k + 1] == y;
      }
      InsertOrders(before, xs[0], tail);
    }
  }

  /** A transitive relation between neighbours holds between any earlier and later member. */
  lemma {:induction false} NeighboursReachAll<T(!new)>(related: (T, T) -> bool, xs: seq<T>, i: nat, j: nat)
    requires forall a, b, c :: related(a, b) && related(b, c) ==> related(a, c)
    requires forall k {:trigger xs[k]} | 0 < k < |xs| :: related(xs[k - 1], xs[k])
    requires i < j < |xs|
    ensures related(xs[i], xs[j])
    decreases j - i
  {
    if i < j - 1 {
      NeighboursReachAll(related, xs, i, j - 1);
    }
  }
}
