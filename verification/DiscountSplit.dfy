/**
 * The largest-remainder split of a receipt discount over its lines
 * (backend/src/purchasing/purchasing-accounting.ts, lines 165 to 232).
 */
module DiscountSplit {
  import opened Arithmetic
  import opened Sequences
  import opened Purchasing

  function Gross(line: RawLine): int {
    line.gross
  }

  /** numerator / subtotalCents, and zero on a receipt that costs nothing. */
  function Floor(discount: nat, subtotal: nat, line: RawLine): int {
    if subtotal == 0 then 0 else discount * line.gross / subtotal
  }

  function Remainder(discount: nat, subtotal: nat, line: RawLine): int {
    if subtotal == 0 then 0 else discount * line.gross % subtotal
  }

  /** The comparator of the second sort: larger remainders first, then variant order. */
  predicate ByRemainder(discount: nat, subtotal: nat, a: RawLine, b: RawLine) {
    var x, y := Remainder(discount, subtotal, a), Remainder(discount, subtotal, b);
    if x == y then a.variant < b.variant else x > y
  }

  function Subtotal(lines: seq<RawLine>): int {
    SumBy(Gross, lines)
  }

  function Total(shares: seq<int>): int {
    SumBy((x: int) => x, shares)
  }

  predicate DistinctVariants(lines: seq<RawLine>) {
    forall i, j | 0 <= i < j < |lines| :: lines[i].variant != lines[j].variant
  }

  predicate Splittable(lines: seq<RawLine>, discount: nat) {
    && DistinctVariants(lines)
    && (forall line <- lines :: line.gross >= 0)
    && discount <= Subtotal(lines)
  }

  /** Line `i` receives one cent more than the floor of its exact share. */
  predicate Extra(lines: seq<RawLine>, discount: nat, shares: seq<int>, i: nat)
    requires i < |lines| == |shares|
    requires Subtotal(lines) >= 0
  {
    shares[i] == Floor(discount, Subtotal(lines), lines[i]) + 1
  }

  /**
   * The largest-remainder property: the shares add up to the discount, each is the floor of its exact
   * share or, only where there is a remainder, one more, and whoever gets the extra cent comes before
   * everyone who does not in the remainder order.
   */
  ghost predicate IsLargestRemainderSplit(lines: seq<RawLine>, discount: nat, shares: seq<int>)
    requires Subtotal(lines) >= 0
  {
    var subtotal := Subtotal(lines);
    && |shares| == |lines|
    && Total(shares) == discount
    && (forall i | 0 <= i < |lines| ::
          shares[i] == Floor(discount, subtotal, lines[i]) || Extra(lines, discount, shares, i))
    && (forall i | 0 <= i < |lines| && Extra(lines, discount, shares, i) ::
          Remainder(discount, subtotal, lines[i]) > 0)
    && (forall i, j | 0 <= i < |lines| && 0 <= j < |lines|
                      && Extra(lines, discount, shares, i) && !Extra(lines, discount, shares, j) ::
          ByRemainder(discount, subtotal, lines[i], lines[j]))
  }

  lemma {:induction false} SubtotalNonNegative(lines: seq<RawLine>)
    requires forall line <- lines :: line.gross >= 0
    ensures Subtotal(lines) >= 0
    ensures forall line <- lines :: line.gross <= Subtotal(lines)
  {
    if lines != [] {
      var front := lines[..|lines| - 1];
      assert lines == front + [lines[|lines| - 1]];
      SubtotalNonNegative(front);
    }
  }

  lemma DivMod(x: nat, s: nat)
    requires s > 0
    ensures x == x / s * s + x % s && 0 <= x % s < s && x / s >= 0
  {
  }

  lemma FloorAndRemainder(discount: nat, subtotal: nat, line: RawLine)
    requires subtotal > 0 && line.gross >= 0
    ensures discount * line.gross ==
            Floor(discount, subtotal, line) * subtotal + Remainder(discount, subtotal, line)
    ensures 0 <= Remainder(discount, subtotal, line) < subtotal && Floor(discount, subtotal, line) >= 0
  {
    MulMonotone(0, line.gross, discount);
    DivMod(discount * line.gross, subtotal);
  }

  /** Summed over the lines, quotients and remainders account for the whole discount. */
  lemma {:induction false} RemaindersAddUp(discount: nat, subtotal: nat, lines: seq<RawLine>)
    requires subtotal > 0 && forall line <- lines :: line.gross >= 0
    ensures discount * Subtotal(lines) ==
            SumBy(l => Floor(discount, subtotal, l), lines) * subtotal
            + SumBy(l => Remainder(discount, subtotal, l), lines)
  {
    if lines != [] {
      var front, last := lines[..|lines| - 1], lines[|lines| - 1];
      assert lines == front + [last];
      RemaindersAddUp(discount, subtotal, front);
      FloorAndRemainder(discount, subtotal, last);
      var a := SumBy(l => Floor(discount, subtotal, l), front);
      AddProducts(discount, Subtotal(front), last.gross);
      AddProducts(subtotal, a, Floor(discount, subtotal, last));
    }
  }

  lemma AddProducts(c: int, x: int, y: int)
    ensures c * (x + y) == c * x + c * y && (x + y) * c == x * c + y * c
  {
  }

  /** If line `k` of the remainder order has no remainder, the remainders before it are all there is. */
  lemma {:induction false} RemaindersBelow(discount: nat, subtotal: nat, sorted: seq<RawLine>, k: nat)
    requires subtotal > 0 && k <= |sorted| && forall line <- sorted :: line.gross >= 0
    requires forall j | k <= j < |sorted| :: Remainder(discount, subtotal, sorted[j]) == 0
    ensures SumBy(l => Remainder(discount, subtotal, l), sorted) <= k * (subtotal - 1)
  {
    if sorted != [] {
      var front, last := sorted[..|sorted| - 1], sorted[|sorted| - 1];
      assert sorted == front + [last];
      FloorAndRemainder(discount, subtotal, last);
      if k == |sorted| {
        RemaindersBelow(discount, subtotal, front, k - 1);
        AddProducts(subtotal - 1, k - 1, 1);
      } else {
        RemaindersBelow(discount, subtotal, front, k);
      }
    }
  }

  ghost predicate RemainderOrdered(discount: nat, subtotal: nat, sorted: seq<RawLine>) {
    forall i, j | 0 <= i < j < |sorted| :: ByRemainder(discount, subtotal, sorted[i], sorted[j])
  }

  lemma LaterRemaindersAreSmaller(discount: nat, subtotal: nat, sorted: seq<RawLine>, i: nat, j: nat)
    requires RemainderOrdered(discount, subtotal, sorted) && i <= j < |sorted|
    ensures Remainder(discount, subtotal, sorted[j]) <= Remainder(discount, subtotal, sorted[i])
  {
    if i < j {
      assert ByRemainder(discount, subtotal, sorted[i], sorted[j]);
    }
  }

  /** Flooring loses exactly the remainders. */
  lemma LeftoverIsRemainders(discount: nat, lines: seq<RawLine>, sorted: seq<RawLine>, leftover: int)
    requires Splittable(lines, discount) && multiset(sorted) == multiset(lines) && Subtotal(lines) > 0
    requires leftover == discount - SumBy(l => Floor(discount, Subtotal(lines), l), lines)
    ensures leftover * Subtotal(lines) == SumBy(l => Remainder(discount, Subtotal(lines), l), sorted)
    ensures SumBy(l => Remainder(discount, Subtotal(lines), l), sorted) >= 0
  {
    var subtotal := Subtotal(lines);
    RemaindersAddUp(discount, subtotal, lines);
    SumOfNonNegative(discount, subtotal, lines);
    SumByPermutation(l => Remainder(discount, subtotal, l), sorted, lines);
    LeftoverTimes(discount, subtotal, SumBy(l => Floor(discount, subtotal, l), lines),
                  SumBy(l => Remainder(discount, subtotal, l), lines), leftover);
  }

  lemma LeftoverTimes(discount: int, subtotal: int, floors: int, remainders: int, leftover: int)
    requires discount * subtotal == floors * subtotal + remainders && leftover == discount - floors
    ensures leftover * subtotal == remainders
  {
    AddProducts(subtotal, discount, -floors);
  }

  /** The cents left after flooring are non-negative and every line they can reach has a remainder. */
  lemma LeftoverFits(discount: nat, lines: seq<RawLine>, sorted: seq<RawLine>, leftover: int)
    requires Splittable(lines, discount) && multiset(sorted) == multiset(lines)
    requires Subtotal(lines) >= 0 && RemainderOrdered(discount, Subtotal(lines), sorted)
    requires leftover == discount - SumBy(l => Floor(discount, Subtotal(lines), l), lines)
    ensures 0 <= leftover <= |sorted|
    ensures forall k | 0 <= k < leftover :: Remainder(discount, Subtotal(lines), sorted[k]) > 0
  {
    SameMembers(sorted, lines);
    var subtotal := Subtotal(lines);
    if subtotal == 0 {
      SumOfZeroes(l => Floor(discount, subtotal, l), lines);
    } else {
      LeftoverIsRemainders(discount, lines, sorted, leftover);
      var remainders := SumBy(l => Remainder(discount, subtotal, l), sorted);
      RemaindersBelow(discount, subtotal, sorted, |sorted|);
      LeftoverBound(leftover, |sorted|, subtotal, remainders);
      forall k | 0 <= k < leftover ensures Remainder(discount, subtotal, sorted[k]) > 0 {
        ReachedLineHasRemainder(discount, subtotal, sorted, leftover, k);
      }
    }
  }

  lemma ReachedLineHasRemainder(discount: nat, subtotal: nat, sorted: seq<RawLine>, leftover: int, k: nat)
    requires subtotal > 0 && RemainderOrdered(discount, subtotal, sorted)
    requires forall line <- sorted :: line.gross >= 0
    requires k < leftover <= |sorted|
    requires leftover * subtotal == SumBy(l => Remainder(discount, subtotal, l), sorted) >= 0
    ensures Remainder(discount, subtotal, sorted[k]) > 0
  {
    FloorAndRemainder(discount, subtotal, sorted[k]);
    if Remainder(discount, subtotal, sorted[k]) == 0 {
      forall j | k <= j < |sorted| ensures Remainder(discount, subtotal, sorted[j]) == 0 {
        LaterRemaindersAreSmaller(discount, subtotal, sorted, k, j);
        FloorAndRemainder(discount, subtotal, sorted[j]);
      }
      RemaindersBelow(discount, subtotal, sorted, k);
      LeftoverBound(leftover, k, subtotal, SumBy(l => Remainder(discount, subtotal, l), sorted));
    }
  }

  lemma LeftoverBound(leftover: int, k: nat, subtotal: nat, remainders: int)
    requires subtotal > 0 && leftover * subtotal == remainders && 0 <= remainders <= k * (subtotal - 1)
    ensures 0 <= leftover <= k
  {
    if leftover > k {
      MulMonotone(k + 1, leftover, subtotal);
      AddProducts(subtotal, k, 1);
      AddProducts(k, subtotal, -1);
    }
  }

  lemma {:induction false} SumOfZeroes(f: RawLine -> int, lines: seq<RawLine>)
    requires forall line <- lines :: f(line) == 0
    ensures SumBy(f, lines) == 0
  {
    if lines != [] {
      SumOfZeroes(f, lines[..|lines| - 1]);
    }
  }

  lemma {:induction false} SumOfNonNegative(discount: nat, subtotal: nat, lines: seq<RawLine>)
    requires subtotal > 0 && forall line <- lines :: line.gross >= 0
    ensures SumBy(l => Remainder(discount, subtotal, l), lines) >= 0
  {
    if lines != [] {
      FloorAndRemainder(discount, subtotal, lines[|lines| - 1]);
      SumOfNonNegative(discount, subtotal, lines[..|lines| - 1]);
    }
  }

  lemma SumByValues<T>(f: T -> int, xs: seq<T>, values: seq<int>)
    requires |values| == |xs| && forall i | 0 <= i < |xs| :: values[i] == f(xs[i])
    ensures Total(values) == SumBy(f, xs)
  {
    if xs != [] {
      SumByValues(f, xs[..|xs| - 1], values[..|xs| - 1]);
    }
  }

  /** The allocation of one variant, read back from the Map built after the loop. */
  function AllocationOf(allocations: map<VariantId, int>): RawLine -> int {
    (line: RawLine) => if line.variant in allocations then allocations[line.variant] else 0
  }

  /** Each line of the remainder order with what the loop left it. */
  ghost predicate Distributed(discount: nat, subtotal: nat, sorted: seq<RawLine>, leftover: int,
                              allocations: map<VariantId, int>) {
    forall k | 0 <= k < |sorted| ::
      && sorted[k].variant in allocations
      && allocations[sorted[k].variant] == Floor(discount, subtotal, sorted[k]) + if k < leftover then 1 else 0
  }

  lemma {:induction false} DistributedTotal(discount: nat, subtotal: nat, sorted: seq<RawLine>, leftover: nat,
                                            allocations: map<VariantId, int>, k: nat)
    requires Distributed(discount, subtotal, sorted, leftover, allocations) && k <= |sorted|
    ensures SumBy(AllocationOf(allocations), sorted[..k]) ==
            SumBy(l => Floor(discount, subtotal, l), sorted[..k]) + if k < leftover then k else leftover
  {
    if k > 0 {
      DistributedTotal(discount, subtotal, sorted, leftover, allocations, k - 1);
      assert sorted[..k][..k - 1] == sorted[..k - 1];
    } else {
      assert sorted[..0] == [];
    }
  }

  lemma DistributionIsSplit(lines: seq<RawLine>, discount: nat, sorted: seq<RawLine>, leftover: nat,
                            allocations: map<VariantId, int>, shares: seq<int>)
    requires Splittable(lines, discount) && multiset(sorted) == multiset(lines)
    requires Subtotal(lines) >= 0 && RemainderOrdered(discount, Subtotal(lines), sorted)
    requires leftover == discount - SumBy(l => Floor(discount, Subtotal(lines), l), lines)
    requires Distributed(discount, Subtotal(lines), sorted, leftover, allocations)
    requires |shares| == |lines| && forall i | 0 <= i < |lines| :: shares[i] == AllocationOf(allocations)(lines[i])
    ensures IsLargestRemainderSplit(lines, discount, shares)
  {
    var subtotal := Subtotal(lines);
    SameMembers(sorted, lines);
    LeftoverFits(discount, lines, sorted, leftover);
    DistributedTotal(discount, subtotal, sorted, leftover, allocations, |sorted|);
    assert sorted[..|sorted|] == sorted;
    SumByPermutation(AllocationOf(allocations), sorted, lines);
    SumByPermutation(l => Floor(discount, subtotal, l), sorted, lines);
    SumByValues(AllocationOf(allocations), lines, shares);
    forall i | 0 <= i < |lines|
      ensures exists k :: 0 <= k < |sorted| && sorted[k] == lines[i]
                          && (k < leftover <==> Extra(lines, discount, shares, i))
      ensures shares[i] == Floor(discount, subtotal, lines[i]) || Extra(lines, discount, shares, i)
    {
      assert lines[i] in sorted;
      var k :| 0 <= k < |sorted| && sorted[k] == lines[i];
    }
  }

  /** The source's loop: hand the leftover cents to the first lines of the remainder order. */
  method Distribute(discount: nat, subtotal: nat, byRemainder: seq<RawLine>, leftover: nat)
    returns (allocations: map<VariantId, int>)
    requires DistinctVariants(byRemainder) && leftover <= |byRemainder|
    ensures Distributed(discount, subtotal, byRemainder, leftover, allocations)
  {
    var allocatedCents := new int[|byRemainder|](i requires 0 <= i < |byRemainder| =>
      Floor(discount, subtotal, byRemainder[i]));
    var undistributed: int := leftover;
    var k := 0;
    while k < |byRemainder|
      invariant 0 <= k <= |byRemainder| && k + undistributed == leftover && undistributed >= 0
      invariant forall j | 0 <= j < |byRemainder| ::
                  allocatedCents[j] == Floor(discount, subtotal, byRemainder[j]) + if j < k then 1 else 0
    {
      if undistributed <= 0 {
        break;
      }
      allocatedCents[k] := allocatedCents[k] + 1;
      undistributed := undistributed - 1;
      k := k + 1;
    }
    assert undistributed == 0;

    allocations := map[];
    for j := 0 to |byRemainder|
      invariant forall m | 0 <= m < j ::
                  byRemainder[m].variant in allocations && allocations[byRemainder[m].variant] == allocatedCents[m]
    {
      allocations := allocations[byRemainder[j].variant := allocatedCents[j]];
    }
  }

  lemma RemainderSort(lines: seq<RawLine>, discount: nat, subtotal: nat, before: (RawLine, RawLine) -> bool)
    requires DistinctVariants(lines)
    requires forall a, b :: before(a, b) == ByRemainder(discount, subtotal, a, b)
    ensures multiset(Sort(before, lines)) == multiset(lines)
    ensures RemainderOrdered(discount, subtotal, Sort(before, lines))
    ensures DistinctVariants(Sort(before, lines))
  {
    SortSorts(before, lines);
    var sorted := Sort(before, lines);
    forall i, j | 0 <= i < j < |sorted| ensures ByRemainder(discount, subtotal, sorted[i], sorted[j])
      ensures sorted[i].variant != sorted[j].variant
    {
      assert before(sorted[i], sorted[j]);
      OrderedVariantsDiffer(discount, subtotal, lines, sorted, i, j);
    }
  }

  lemma OrderedVariantsDiffer(discount: nat, subtotal: nat, lines: seq<RawLine>, sorted: seq<RawLine>, i: nat, j: nat)
    requires DistinctVariants(lines) && multiset(sorted) == multiset(lines)
    requires i < j < |sorted| && ByRemainder(discount, subtotal, sorted[i], sorted[j])
    ensures sorted[i].variant != sorted[j].variant
  {
    SameMembers(sorted, lines);
    assert sorted[i] in lines && sorted[j] in lines;
  }

  method Split(lines: seq<RawLine>, discount: nat) returns (shares: seq<int>)
    requires Splittable(lines, discount)
    ensures Subtotal(lines) >= 0 && IsLargestRemainderSplit(lines, discount, shares)
  {
    SubtotalNonNegative(lines);
    var subtotal := Subtotal(lines);
    var before := (a: RawLine, b: RawLine) => ByRemainder(discount, subtotal, a, b);
    RemainderSort(lines, discount, subtotal, before);
    var byRemainder := Sort(before, lines);
    var undistributed := discount - SumBy(l => Floor(discount, subtotal, l), lines);
    LeftoverFits(discount, lines, byRemainder, undistributed);
    var allocations := Distribute(discount, subtotal, byRemainder, undistributed);
    shares := seq(|lines|, i requires 0 <= i < |lines| => AllocationOf(allocations)(lines[i]));
    DistributionIsSplit(lines, discount, byRemainder, undistributed, allocations, shares);
  }

  lemma ShareBelowGross(discount: nat, subtotal: nat, line: RawLine, share: int)
    requires subtotal > 0 && discount <= subtotal && line.gross >= 0
    requires share == Floor(discount, subtotal, line)
             || (share == Floor(discount, subtotal, line) + 1 && Remainder(discount, subtotal, line) > 0)
    ensures 0 <= share <= line.gross
  {
    FloorAndRemainder(discount, subtotal, line);
    var floor := Floor(discount, subtotal, line);
    MulMonotone(discount, subtotal, line.gross);
    if share > line.gross {
      MulMonotone(line.gross, floor, subtotal);
      if share == floor {
        MulMonotone(line.gross + 1, floor, subtotal);
        AddProducts(subtotal, line.gross, 1);
      }
    }
  }

  /** Every share lies between zero and its line, less than one cent from the exact proportion. */
  lemma SplitBounds(lines: seq<RawLine>, discount: nat, shares: seq<int>, i: nat)
    requires Splittable(lines, discount) && i < |lines|
    requires Subtotal(lines) >= 0 && IsLargestRemainderSplit(lines, discount, shares)
    ensures 0 <= shares[i] <= lines[i].gross
    ensures Subtotal(lines) > 0 ==>
              (shares[i] - 1) * Subtotal(lines) < discount * lines[i].gross < (shares[i] + 1) * Subtotal(lines)
  {
    var subtotal := Subtotal(lines);
    SubtotalNonNegative(lines);
    if subtotal > 0 {
      ShareBelowGross(discount, subtotal, lines[i], shares[i]);
      FloorAndRemainder(discount, subtotal, lines[i]);
      var floor := Floor(discount, subtotal, lines[i]);
      AddProducts(subtotal, floor, 1);
      AddProducts(subtotal, floor, -1);
      AddProducts(subtotal, floor, 2);
    }
  }

  lemma {:induction false} DominatedSplitsAgree(a: seq<int>, b: seq<int>)
    requires |a| == |b| && forall i | 0 <= i < |a| :: a[i] <= b[i]
    ensures Total(a) <= Total(b)
    ensures Total(a) == Total(b) ==> a == b
  {
    if a != [] {
      DominatedSplitsAgree(a[..|a| - 1], b[..|b| - 1]);
      assert a == a[..|a| - 1] + [a[|a| - 1]] && b == b[..|b| - 1] + [b[|b| - 1]];
    }
  }

  /** Two splits cannot each favour a line the other does not. */
  lemma NotBothWays(lines: seq<RawLine>, discount: nat, a: seq<int>, b: seq<int>, i: nat, j: nat)
    requires Subtotal(lines) >= 0 && i < |lines| && j < |lines|
    requires IsLargestRemainderSplit(lines, discount, a) && IsLargestRemainderSplit(lines, discount, b)
    ensures a[i] <= b[i] || b[j] <= a[j]
  {
    assert Extra(lines, discount, a, i) && !Extra(lines, discount, a, j)
           ==> ByRemainder(discount, Subtotal(lines), lines[i], lines[j]);
    assert Extra(lines, discount, b, j) && !Extra(lines, discount, b, i)
           ==> ByRemainder(discount, Subtotal(lines), lines[j], lines[i]);
  }

  /** The property leaves no choice: a receipt has exactly one largest-remainder split. */
  lemma SplitIsUnique(lines: seq<RawLine>, discount: nat, a: seq<int>, b: seq<int>)
    requires Subtotal(lines) >= 0
    requires IsLargestRemainderSplit(lines, discount, a) && IsLargestRemainderSplit(lines, discount, b)
    ensures a == b
  {
    if i :| 0 <= i < |a| && a[i] > b[i] {
      forall j | 0 <= j < |a| ensures b[j] <= a[j] {
        NotBothWays(lines, discount, a, b, i, j);
      }
      DominatedSplitsAgree(b, a);
    } else {
      DominatedSplitsAgree(a, b);
    }
  }
}
