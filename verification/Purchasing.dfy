/**
 * Purchase receipts (backend/src/purchasing/purchasing-accounting.ts): aggregation by variant and the
 * cent-exact largest-remainder split of the receipt discount.
 *
 * Amounts are integer cents, unit costs with six decimals are millionths. Variant ids are named by their
 * rank in the localeCompare order, so `<` on them is that order.
 */
module Purchasing {
  import opened Outcome
  import opened Sequences

  type VariantId = int

  datatype Item = Item(variant: VariantId, qty: int, unitCost: int)

  datatype Header = Header(
    supplier: string,
    branch: string,
    invoiceDate: Option<string>,
    receivedAt: Option<string>,
    ocrSource: Option<string>)

  /** `discountAmount` in cents, `discountPercent` in hundredths of a percent; `invoiceNumber` is normalized. */
  datatype Command = Command(
    header: Header,
    commandId: Option<string>,
    invoiceNumber: Option<string>,
    discountAmount: Option<int>,
    discountPercent: Option<int>,
    items: seq<Item>)

  const MAX_QUANTITY := 2147483647
  const MAX_SUBTOTAL := 999999999999999999

  /** What ReceivePurchaseDto lets through. */
  predicate Validated(command: Command) {
    && (forall item <- command.items :: 1 <= item.qty <= MAX_QUANTITY && 0 <= item.unitCost <= 999999999999)
    && (command.discountAmount.Some? ==> command.discountAmount.value >= 0)
    && (command.discountPercent.Some? ==> 0 <= command.discountPercent.value <= 10000)
  }

  datatype ReceiptError =
    | QuantityRange
    | SubtotalRange
    | DiscountExceedsSubtotal
    | CommandIdRequired

  /** One variant's summed quantity and gross cost. */
  datatype RawLine = RawLine(variant: VariantId, qty: int, gross: int)

  datatype Line = Line(
    variant: VariantId,
    qty: int,
    unitCost: int,
    subtotal: int,
    allocatedDiscount: int,
    netTotal: int,
    netUnitCost: int)

  datatype CanonicalItem = CanonicalItem(variant: VariantId, qty: int, subtotal: int, share: int, net: int)

  /** The record whose JSON text is hashed into the command fingerprint. */
  datatype Canonical = Canonical(
    version: int,
    header: Header,
    invoiceNumber: Option<string>,
    discountAmount: int,
    discountPercent: Option<int>,
    items: seq<CanonicalItem>)

  datatype IdempotencyKey = PurchaseCommand(id: string) | PurchaseInvoice(supplier: string, number: string)

  datatype Receipt = Receipt(
    subtotal: int,
    discount: int,
    total: int,
    lines: seq<Line>,
    canonical: Canonical,
    key: IdempotencyKey)

  /** Decimal's toDecimalPlaces with ROUND_HALF_UP, on a non-negative quotient. */
  function RoundHalfUp(numerator: nat, denominator: nat): nat
    requires denominator > 0
  {
    (2 * numerator + denominator) / (2 * denominator)
  }

  // ---- Aggregation -------------------------------------------------------------------------------

  function QtyOf(v: VariantId): Item -> int {
    (item: Item) => if item.variant == v then item.qty else 0
  }

  function GrossOf(v: VariantId): Item -> int {
    (item: Item) => if item.variant == v then item.unitCost * item.qty else 0
  }

  function TotalQty(items: seq<Item>, v: VariantId): int {
    SumBy(QtyOf(v), items)
  }

  function TotalGross(items: seq<Item>, v: VariantId): int {
    SumBy(GrossOf(v), items)
  }

  function Variants(items: seq<Item>): set<VariantId> {
    set item <- items :: item.variant
  }

  function LineVariants(lines: seq<RawLine>): set<VariantId> {
    set line <- lines :: line.variant
  }

  /** One line per variant, in variant order, carrying the variant's totals. */
  ghost predicate IsSummary(items: seq<Item>, lines: seq<RawLine>) {
    && (forall i, j | 0 <= i < j < |lines| :: lines[i].variant < lines[j].variant)
    && LineVariants(lines) == Variants(items)
    && (forall line <- lines :: line.qty == TotalQty(items, line.variant) && line.gross == TotalGross(items, line.variant))
  }

  /** Two item lists that no receipt can tell apart. */
  ghost predicate SameTotals(a: seq<Item>, b: seq<Item>) {
    && Variants(a) == Variants(b)
    && forall v :: TotalQty(a, v) == TotalQty(b, v) && TotalGross(a, v) == TotalGross(b, v)
  }

  lemma TotalsGrow(items: seq<Item>, i: nat, v: VariantId)
    requires i < |items|
    ensures TotalQty(items[..i + 1], v) == TotalQty(items[..i], v) + QtyOf(v)(items[i])
    ensures TotalGross(items[..i + 1], v) == TotalGross(items[..i], v) + GrossOf(v)(items[i])
  {
    assert items[..i + 1][..i] == items[..i];
  }

  lemma {:induction false} PartialQtyBelowTotal(items: seq<Item>, i: nat, v: VariantId)
    requires i <= |items| && forall item <- items :: item.qty >= 0
    ensures TotalQty(items[..i], v) <= TotalQty(items, v)
    decreases |items| - i
  {
    if i == |items| {
      assert items[..i] == items;
    } else {
      TotalsGrow(items, i, v);
      PartialQtyBelowTotal(items, i + 1, v);
    }
  }

  lemma {:induction false} TotalsNonNegative(items: seq<Item>, v: VariantId)
    requires forall item <- items :: item.qty >= 1 && item.unitCost >= 0
    ensures TotalGross(items, v) >= 0
    ensures TotalQty(items, v) >= if v in Variants(items) then 1 else 0
  {
    if items != [] {
      var front, last := items[..|items| - 1], items[|items| - 1];
      TotalsNonNegative(front, v);
      assert items == front + [last];
    }
  }

  lemma {:induction false} AbsentVariant(items: seq<Item>, v: VariantId)
    requires v !in Variants(items)
    ensures TotalQty(items, v) == 0 && TotalGross(items, v) == 0
  {
    if items != [] {
      var front, last := items[..|items| - 1], items[|items| - 1];
      assert items == front + [last];
      AbsentVariant(front, v);
    }
  }

  /** The Map after some items: one key per variant seen, holding the totals so far. */
  ghost predicate Fills(items: seq<Item>, aggregated: map<VariantId, (int, int)>) {
    && aggregated.Keys == Variants(items)
    && forall v <- aggregated :: aggregated[v] == (TotalQty(items, v), TotalGross(items, v))
  }

  /** What the Map holds for a variant; nothing yet counts as zero. */
  function Current(aggregated: map<VariantId, (int, int)>, v: VariantId): (int, int) {
    if v in aggregated then aggregated[v] else (0, 0)
  }

  lemma CurrentIsTotal(items: seq<Item>, aggregated: map<VariantId, (int, int)>, v: VariantId)
    requires Fills(items, aggregated)
    ensures Current(aggregated, v) == (TotalQty(items, v), TotalGross(items, v))
  {
    if v !in aggregated {
      AbsentVariant(items, v);
    }
  }

  lemma FillsOneMore(items: seq<Item>, i: nat, aggregated: map<VariantId, (int, int)>, qty: int, gross: int)
    requires i < |items| && Fills(items[..i], aggregated)
    requires qty == Current(aggregated, items[i].variant).0 + items[i].qty
    requires gross == Current(aggregated, items[i].variant).1 + items[i].unitCost * items[i].qty
    ensures Fills(items[..i + 1], aggregated[items[i].variant := (qty, gross)])
  {
    assert items[..i + 1] == items[..i] + [items[i]];
    CurrentIsTotal(items[..i], aggregated, items[i].variant);
    forall u ensures TotalQty(items[..i + 1], u) == TotalQty(items[..i], u) + QtyOf(u)(items[i])
      ensures TotalGross(items[..i + 1], u) == TotalGross(items[..i], u) + GrossOf(u)(items[i])
    {
      TotalsGrow(items, i, u);
    }
  }

  /** What the source's Map lists, in any order: each variant once, with its totals. */
  ghost predicate ListsTotals(items: seq<Item>, lines: seq<RawLine>) {
    && (forall i, j | 0 <= i < j < |lines| :: lines[i].variant != lines[j].variant)
    && LineVariants(lines) == Variants(items)
    && (forall line <- lines :: line.qty == TotalQty(items, line.variant) && line.gross == TotalGross(items, line.variant))
  }

  function Entries(order: seq<VariantId>, aggregated: map<VariantId, (int, int)>): (lines: seq<RawLine>)
    requires forall i | 0 <= i < |order| :: order[i] in aggregated
    ensures |lines| == |order|
    ensures forall i | 0 <= i < |order| ::
              lines[i] == RawLine(order[i], aggregated[order[i]].0, aggregated[order[i]].1)
    ensures LineVariants(lines) == set v <- order
  {
    if order == [] then []
    else
      var front := Entries(order[..|order| - 1], aggregated);
      var v := order[|order| - 1];
      assert order == order[..|order| - 1] + [v];
      front + [RawLine(v, aggregated[v].0, aggregated[v].1)]
  }

  /** A Map's keys in the order they were first set. */
  ghost predicate InsertionOrder(order: seq<VariantId>, keys: set<VariantId>) {
    && (forall j, k | 0 <= j < k < |order| :: order[j] != order[k])
    && keys == set v <- order
  }

  lemma EntriesListTotals(items: seq<Item>, order: seq<VariantId>, aggregated: map<VariantId, (int, int)>)
    requires Fills(items, aggregated) && InsertionOrder(order, aggregated.Keys)
    ensures forall i | 0 <= i < |order| :: order[i] in aggregated
    ensures ListsTotals(items, Entries(order, aggregated))
  {
    assert forall i | 0 <= i < |order| :: order[i] in aggregated.Keys;
  }

  lemma OverflowIsReal(items: seq<Item>, i: nat, aggregated: map<VariantId, (int, int)>)
    requires i < |items| && Fills(items[..i], aggregated) && forall item <- items :: item.qty >= 1
    ensures items[i].variant in Variants(items)
    ensures Current(aggregated, items[i].variant).0 + items[i].qty <= TotalQty(items, items[i].variant)
  {
    CurrentIsTotal(items[..i], aggregated, items[i].variant);
    TotalsGrow(items, i, items[i].variant);
    PartialQtyBelowTotal(items, i + 1, items[i].variant);
  }

  lemma OrderGrows(order: seq<VariantId>, keys: set<VariantId>, v: VariantId)
    requires InsertionOrder(order, keys)
    ensures InsertionOrder(if v in keys then order else order + [v], keys + {v})
  {
    if v in keys {
      assert keys + {v} == keys;
    } else {
      assert forall j | 0 <= j < |order| :: order[j] in keys;
      assert (set u <- order + [v]) == (set u <- order) + {v};
    }
  }

  lemma WithinRange(items: seq<Item>, aggregated: map<VariantId, (int, int)>)
    requires Fills(items, aggregated) && forall v <- aggregated :: aggregated[v].0 <= MAX_QUANTITY
    ensures forall v <- Variants(items) :: TotalQty(items, v) <= MAX_QUANTITY
  {
    assert forall v <- Variants(items) :: v in aggregated.Keys;
  }

  /**
   * The Map the source fills item by item. `order` is the Map's insertion order. It fails exactly when
   * some variant's total leaves the supported range.
   */
  method Aggregate(items: seq<Item>) returns (r: Result<seq<RawLine>, ReceiptError>)
    requires forall item <- items :: item.qty >= 1
    ensures r.Err? <==> exists v <- Variants(items) :: TotalQty(items, v) > MAX_QUANTITY
    ensures r.Err? ==> r.error == QuantityRange
    ensures r.Ok? ==> ListsTotals(items, r.value)
  {
    var order: seq<VariantId> := [];
    var aggregated: map<VariantId, (int, int)> := map[];
    for i := 0 to |items|
      invariant InsertionOrder(order, aggregated.Keys)
      invariant Fills(items[..i], aggregated)
      invariant forall v <- aggregated :: aggregated[v].0 <= MAX_QUANTITY
    {
      var item := items[i];
      var current := if item.variant in aggregated then aggregated[item.variant] else (0, 0);
      var nextQty := current.0 + item.qty;
      if nextQty > MAX_QUANTITY {
        OverflowIsReal(items, i, aggregated);
        return Err(QuantityRange);
      }
      OrderGrows(order, aggregated.Keys, item.variant);
      if item.variant !in aggregated {
        order := order + [item.variant];
      }
      var nextGross := current.1 + item.unitCost * item.qty;
      FillsOneMore(items, i, aggregated, nextQty, nextGross);
      aggregated := aggregated[item.variant := (nextQty, nextGross)];
    }
    assert items[..|items|] == items;
    WithinRange(items, aggregated);
    EntriesListTotals(items, order, aggregated);
    r := Ok(Entries(order, aggregated));
  }

  function ByVariant(a: RawLine, b: RawLine): bool {
    a.variant < b.variant
  }

  /** Sorting any listing of the totals gives the summary. */
  lemma SortedIsSummary(items: seq<Item>, lines: seq<RawLine>)
    requires ListsTotals(items, lines)
    ensures IsSummary(items, Sort(ByVariant, lines))
  {
    var sorted := Sort(ByVariant, lines);
    SortSorts(ByVariant, lines);
    SameMembers(sorted, lines);
    forall i, j | 0 <= i < j < |sorted| ensures sorted[i].variant < sorted[j].variant {
      assert ByVariant(sorted[i], sorted[j]);
    }
  }

  /** The summary depends on the totals alone. */
  lemma SummaryIsUnique(a: seq<Item>, b: seq<Item>, xs: seq<RawLine>, ys: seq<RawLine>)
    requires SameTotals(a, b) && IsSummary(a, xs) && IsSummary(b, ys)
    ensures xs == ys
  {
    SameVariantsSameOrder(xs, ys);
  }

  lemma TailVariants(xs: seq<RawLine>)
    requires xs != [] && forall i, j | 0 <= i < j < |xs| :: xs[i].variant < xs[j].variant
    ensures LineVariants(xs[1..]) == LineVariants(xs) - {xs[0].variant}
    ensures forall v <- LineVariants(xs) :: xs[0].variant <= v
  {
    assert xs == [xs[0]] + xs[1..];
  }

  lemma {:induction false} SameVariantsSameOrder(xs: seq<RawLine>, ys: seq<RawLine>)
    requires forall i, j | 0 <= i < j < |xs| :: xs[i].variant < xs[j].variant
    requires forall i, j | 0 <= i < j < |ys| :: ys[i].variant < ys[j].variant
    requires LineVariants(xs) == LineVariants(ys)
    requires forall x <- xs, y <- ys | x.variant == y.variant :: x == y
    ensures xs == ys
  {
    assert ys != [] ==> ys[0].variant in LineVariants(ys);
    if xs != [] {
      assert xs[0].variant in LineVariants(ys) && ys[0].variant in LineVariants(xs);
      TailVariants(xs);
      TailVariants(ys);
      SameVariantsSameOrder(xs[1..], ys[1..]);
    }
  }

  // ---- Rearranging a receipt ---------------------------------------------------------------------

  lemma PermutingKeepsTotals(a: seq<Item>, b: seq<Item>)
    requires multiset(a) == multiset(b)
    ensures SameTotals(a, b)
  {
    forall v ensures TotalQty(a, v) == TotalQty(b, v) && TotalGross(a, v) == TotalGross(b, v) {
      SumByPermutation(QtyOf(v), a, b);
      SumByPermutation(GrossOf(v), a, b);
    }
    SameMembers(a, b);
  }

  /** A sum with one summand replaced by two of the same weight. */
  lemma SumWithOneSplit(f: Item -> int, before: seq<Item>, after: seq<Item>, whole: Item, first: Item, second: Item)
    requires f(whole) == f(first) + f(second)
    ensures SumBy(f, before + [whole] + after) == SumBy(f, before + [first, second] + after)
  {
    SumByConcat(f, before + [whole], after);
    SumByConcat(f, before, [whole]);
    SumByConcat(f, before + [first, second], after);
    SumByConcat(f, before, [first, second]);
    assert [first, second] == [first] + [second];
    SumByConcat(f, [first], [second]);
    SumByOne(f, whole);
    SumByOne(f, first);
    SumByOne(f, second);
  }

  lemma VariantsWithOneSplit(before: seq<Item>, after: seq<Item>, whole: Item, first: Item, second: Item)
    requires whole.variant == first.variant == second.variant
    ensures Variants(before + [whole] + after) == Variants(before + [first, second] + after)
  {
    assert Variants(before + [whole] + after) == Variants(before) + {whole.variant} + Variants(after);
    assert Variants(before + [first, second] + after) == Variants(before) + {whole.variant} + Variants(after);
  }

  lemma CostOfSum(cost: int, p: int, q: int)
    ensures cost * (p + q) == cost * p + cost * q
  {
  }

  /** Splitting one line of a variant and unit cost in two, read backwards merging two into one. */
  lemma SplittingKeepsTotals(before: seq<Item>, after: seq<Item>, v: VariantId, p: int, q: int, cost: int)
    ensures SameTotals(before + [Item(v, p + q, cost)] + after, before + [Item(v, p, cost), Item(v, q, cost)] + after)
  {
    var whole, first, second := Item(v, p + q, cost), Item(v, p, cost), Item(v, q, cost);
    CostOfSum(cost, p, q);
    forall u ensures TotalQty(before + [whole] + after, u) == TotalQty(before + [first, second] + after, u)
      ensures TotalGross(before + [whole] + after, u) == TotalGross(before + [first, second] + after, u)
    {
      SumWithOneSplit(QtyOf(u), before, after, whole, first, second);
      SumWithOneSplit(GrossOf(u), before, after, whole, first, second);
    }
    VariantsWithOneSplit(before, after, whole, first, second);
  }
}
