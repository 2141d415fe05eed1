/**
 * Preparing a purchase receipt (backend/src/purchasing/purchasing-accounting.ts, lines 106 to 287) and the
 * canonical record behind its command fingerprint.
 */
module PurchaseReceipt {
  import opened Outcome
  import opened Sequences
  import opened Purchasing
  import opened DiscountSplit

  function Percent(command: Command): int {
    if command.discountPercent.Some? then command.discountPercent.value else 0
  }

  function Discount(command: Command, subtotal: nat): int
    requires Percent(command) >= 0
  {
    if command.discountAmount.Some? then command.discountAmount.value
    else RoundHalfUp(subtotal * Percent(command), 10000)
  }

  function MicroUnit(cents: nat, qty: nat): nat
    requires qty > 0
  {
    RoundHalfUp(cents * 10000, qty)
  }

  predicate Priced(raw: seq<RawLine>, shares: seq<int>) {
    && |shares| == |raw|
    && forall i | 0 <= i < |raw| :: raw[i].qty > 0 && 0 <= shares[i] <= raw[i].gross
  }

  function Lines(raw: seq<RawLine>, shares: seq<int>): (lines: seq<Line>)
    requires Priced(raw, shares)
    ensures |lines| == |raw|
  {
    seq(|raw|, i requires 0 <= i < |raw| =>
      var net := raw[i].gross - shares[i];
      Line(raw[i].variant, raw[i].qty, MicroUnit(raw[i].gross, raw[i].qty), raw[i].gross, shares[i],
           net, MicroUnit(net, raw[i].qty)))
  }

  function CanonicalItems(lines: seq<Line>): seq<CanonicalItem> {
    seq(|lines|, i requires 0 <= i < |lines| =>
      CanonicalItem(lines[i].variant, lines[i].qty, lines[i].subtotal, lines[i].allocatedDiscount, lines[i].netTotal))
  }

  function Assemble(command: Command, discount: int, raw: seq<RawLine>, shares: seq<int>): Receipt
    requires Priced(raw, shares)
    requires command.commandId.Some? || command.invoiceNumber.Some?
  {
    var lines := Lines(raw, shares);
    Receipt(
      Subtotal(raw),
      discount,
      Subtotal(raw) - discount,
      lines,
      Canonical(2, command.header, command.invoiceNumber, discount, command.discountPercent, CanonicalItems(lines)),
      if command.commandId.Some? then PurchaseCommand(command.commandId.value)
      else PurchaseInvoice(command.header.supplier, command.invoiceNumber.value))
  }

  ghost predicate Overflows(items: seq<Item>) {
    exists v <- Variants(items) :: TotalQty(items, v) > MAX_QUANTITY
  }

  /** The outcome on a given summary and split of it. */
  ghost predicate OutcomeOn(command: Command, raw: seq<RawLine>, shares: seq<int>, r: Result<Receipt, ReceiptError>)
    requires Percent(command) >= 0
  {
    && Subtotal(raw) >= 0
    && if Subtotal(raw) > MAX_SUBTOTAL then r == Err(SubtotalRange)
       else
         var discount := Discount(command, Subtotal(raw));
         if !(0 <= discount <= Subtotal(raw)) then r == Err(DiscountExceedsSubtotal)
         else
           && IsLargestRemainderSplit(raw, discount, shares)
           && Priced(raw, shares)
           && r == if command.commandId.None? && command.invoiceNumber.None? then Err(CommandIdRequired)
                   else Ok(Assemble(command, discount, raw, shares))
  }

  /** What preparing a command means, whatever order its items are listed or sorted in. */
  ghost predicate IsOutcome(command: Command, r: Result<Receipt, ReceiptError>)
    requires Percent(command) >= 0
  {
    if Overflows(command.items) then r == Err(QuantityRange)
    else exists raw, shares :: IsSummary(command.items, raw) && OutcomeOn(command, raw, shares, r)
  }

  lemma SummaryIsSplittable(items: seq<Item>, raw: seq<RawLine>)
    requires IsSummary(items, raw)
    requires forall item <- items :: item.qty >= 1 && item.unitCost >= 0
    ensures DistinctVariants(raw)
    ensures forall line <- raw :: line.gross >= 0 && line.qty > 0
    ensures Subtotal(raw) >= 0
  {
    forall line | line in raw ensures line.gross >= 0 && line.qty > 0 {
      assert line.variant in LineVariants(raw);
      TotalsNonNegative(items, line.variant);
    }
    SubtotalNonNegative(raw);
  }

  lemma SplitIsPriced(raw: seq<RawLine>, discount: nat, shares: seq<int>)
    requires Splittable(raw, discount) && forall line <- raw :: line.qty > 0
    requires Subtotal(raw) >= 0 && IsLargestRemainderSplit(raw, discount, shares)
    ensures Priced(raw, shares)
  {
    forall i | 0 <= i < |raw| ensures raw[i].qty > 0 && 0 <= shares[i] <= raw[i].gross {
      SplitBounds(raw, discount, shares, i);
      assert raw[i] in raw;
    }
  }

  /** The source's function; its final exactness check can never fail. */
  method PreparePurchaseReceipt(command: Command) returns (r: Result<Receipt, ReceiptError>)
    requires Validated(command)
    ensures IsOutcome(command, r)
  {
    var totals := Aggregate(command.items);
    if totals.Err? {
      return Err(totals.error);
    }
    var raw := Sort(ByVariant, totals.value);
    SortedIsSummary(command.items, totals.value);
    SummaryIsSplittable(command.items, raw);
    var subtotal := Subtotal(raw);
    if subtotal > MAX_SUBTOTAL {
      assert OutcomeOn(command, raw, [], Err(SubtotalRange));
      return Err(SubtotalRange);
    }
    var discount := Discount(command, subtotal);
    if discount < 0 || discount > subtotal {
      assert OutcomeOn(command, raw, [], Err(DiscountExceedsSubtotal));
      return Err(DiscountExceedsSubtotal);
    }
    var shares := Split(raw, discount);
    SplitIsPriced(raw, discount, shares);
    var allocatedTotal := Total(shares);
    if allocatedTotal != discount {
      assert false;
    }
    r := if command.commandId.None? && command.invoiceNumber.None? then Err(CommandIdRequired)
         else Ok(Assemble(command, discount, raw, shares));
    assert OutcomeOn(command, raw, shares, r);
  }

  lemma OneOutcomePerSummary(command: Command, items: seq<Item>, raw: seq<RawLine>, shares: seq<int>,
                             shares': seq<int>, a: Result<Receipt, ReceiptError>, b: Result<Receipt, ReceiptError>)
    requires Validated(command)
    requires OutcomeOn(command, raw, shares, a) && OutcomeOn(command.(items := items), raw, shares', b)
    ensures a == b
  {
    var discount := Discount(command, Subtotal(raw));
    if Subtotal(raw) <= MAX_SUBTOTAL && 0 <= discount <= Subtotal(raw) {
      SplitIsUnique(raw, discount, shares, shares');
    }
  }

  /**
   * Canonicity: commands that differ only in how their items are ordered, split or merged have the same
   * outcome, down to the lines, the totals and the canonical record that is fingerprinted.
   */
  lemma OutcomeIsCanonical(command: Command, items: seq<Item>, a: Result<Receipt, ReceiptError>,
                           b: Result<Receipt, ReceiptError>)
    requires Validated(command) && Validated(command.(items := items))
    requires SameTotals(command.items, items)
    requires IsOutcome(command, a) && IsOutcome(command.(items := items), b)
    ensures a == b
  {
    var other := command.(items := items);
    assert Overflows(items) <==> Overflows(command.items);
    if !Overflows(items) {
      var raw, shares :| IsSummary(command.items, raw) && OutcomeOn(command, raw, shares, a);
      var raw', shares' :| IsSummary(items, raw') && OutcomeOn(other, raw', shares', b);
      SummaryIsUnique(command.items, items, raw, raw');
      OneOutcomePerSummary(command, items, raw, shares, shares', a, b);
    }
  }

  /** A second receipt for a rearranged command replays the first: same key, same fingerprint input. */
  lemma RearrangedCommandReplays(command: Command, items: seq<Item>, a: Result<Receipt, ReceiptError>,
                                 b: Result<Receipt, ReceiptError>)
    requires Validated(command) && Validated(command.(items := items))
    requires multiset(items) == multiset(command.items)
    requires IsOutcome(command, a) && IsOutcome(command.(items := items), b)
    ensures a == b
  {
    PermutingKeepsTotals(command.items, items);
    OutcomeIsCanonical(command, items, a, b);
  }

  lemma SummaryIdentifiesTotals(x: seq<Item>, y: seq<Item>, raw: seq<RawLine>)
    requires IsSummary(x, raw) && IsSummary(y, raw)
    ensures SameTotals(x, y)
  {
    forall v ensures TotalQty(x, v) == TotalQty(y, v) && TotalGross(x, v) == TotalGross(y, v) {
      if v in Variants(x) {
        assert v in LineVariants(raw);
        var line :| line in raw && line.variant == v;
      } else {
        AbsentVariant(x, v);
        AbsentVariant(y, v);
      }
    }
  }

  lemma SameCanonicalItemsSameLines(raw: seq<RawLine>, raw': seq<RawLine>, shares: seq<int>, shares': seq<int>)
    requires Priced(raw, shares) && Priced(raw', shares')
    requires CanonicalItems(Lines(raw, shares)) == CanonicalItems(Lines(raw', shares'))
    ensures raw == raw'
  {
    var items, items' := CanonicalItems(Lines(raw, shares)), CanonicalItems(Lines(raw', shares'));
    forall i | 0 <= i < |raw| ensures |raw| == |raw'| && raw[i] == raw'[i] {
      assert |items| == |items'| == |raw| == |raw'| && items[i] == items'[i];
      assert items[i].variant == raw[i].variant && items[i].qty == raw[i].qty && items[i].subtotal == raw[i].gross;
      assert items'[i].variant == raw'[i].variant && items'[i].qty == raw'[i].qty && items'[i].subtotal == raw'[i].gross;
    }
    assert |items| == |raw| && |items'| == |raw'|;
  }

  lemma EqualRecordsEqualPurchases(x: Command, y: Command, a: Receipt, b: Receipt, raw: seq<RawLine>, raw': seq<RawLine>,
                                   shares: seq<int>, shares': seq<int>)
    requires Percent(x) >= 0 && Percent(y) >= 0
    requires IsSummary(x.items, raw) && OutcomeOn(x, raw, shares, Ok(a))
    requires IsSummary(y.items, raw') && OutcomeOn(y, raw', shares', Ok(b))
    requires a.canonical == b.canonical
    ensures x.header == y.header && x.invoiceNumber == y.invoiceNumber && x.discountPercent == y.discountPercent
    ensures a.discount == b.discount && SameTotals(x.items, y.items)
  {
    SameCanonicalItemsSameLines(raw, raw', shares, shares');
    SummaryIdentifiesTotals(x.items, y.items, raw);
  }

  lemma EqualPurchasesEqualRecords(x: Command, y: Command, a: Receipt, b: Receipt, raw: seq<RawLine>,
                                   shares: seq<int>, shares': seq<int>)
    requires Percent(x) >= 0 && Percent(y) >= 0
    requires OutcomeOn(x, raw, shares, Ok(a)) && OutcomeOn(y, raw, shares', Ok(b))
    requires x.header == y.header && x.invoiceNumber == y.invoiceNumber && x.discountPercent == y.discountPercent
    requires a.discount == b.discount
    ensures a.canonical == b.canonical
  {
    SplitIsUnique(raw, a.discount, shares, shares');
  }

  /**
   * The fingerprint input identifies the purchase: the canonical records of two accepted commands are equal exactly
   * when the commands agree on header, invoice number, discount percentage, discount in cents, and every variant's
   * quantity and cost.
   */
  lemma CanonicalIdentifiesPurchase(x: Command, y: Command, a: Receipt, b: Receipt)
    requires Validated(x) && Validated(y) && IsOutcome(x, Ok(a)) && IsOutcome(y, Ok(b))
    ensures a.canonical == b.canonical <==>
            && x.header == y.header && x.invoiceNumber == y.invoiceNumber && x.discountPercent == y.discountPercent
            && a.discount == b.discount && SameTotals(x.items, y.items)
  {
    var raw, shares :| IsSummary(x.items, raw) && OutcomeOn(x, raw, shares, Ok(a));
    var raw', shares' :| IsSummary(y.items, raw') && OutcomeOn(y, raw', shares', Ok(b));
    if a.canonical == b.canonical {
      EqualRecordsEqualPurchases(x, y, a, b, raw, raw', shares, shares');
    }
    if x.header == y.header && x.invoiceNumber == y.invoiceNumber && x.discountPercent == y.discountPercent
       && a.discount == b.discount && SameTotals(x.items, y.items) {
      SummaryIsUnique(x.items, y.items, raw, raw');
      EqualPurchasesEqualRecords(x, y, a, b, raw, shares, shares');
    }
  }

  // ---- Conservation ------------------------------------------------------------------------------

  function Cost(item: Item): int {
    item.unitCost * item.qty
  }

  function GrossIn(items: seq<Item>): RawLine -> int {
    (line: RawLine) => TotalGross(items, line.variant)
  }

  function GrossOfItem(item: Item): RawLine -> int {
    (line: RawLine) => GrossOf(line.variant)(item)
  }

  lemma {:induction false} NoLineTakesIt(item: Item, lines: seq<RawLine>)
    requires item.variant !in LineVariants(lines)
    ensures SumBy(GrossOfItem(item), lines) == 0
  {
    if lines != [] {
      var front, last := lines[..|lines| - 1], lines[|lines| - 1];
      assert lines == front + [last];
      assert last.variant in LineVariants(lines);
      assert GrossOfItem(item)(last) == GrossOf(last.variant)(item) == 0;
      NoLineTakesIt(item, front);
    }
  }

  lemma {:induction false} OneLineTakesIt(item: Item, lines: seq<RawLine>)
    requires DistinctVariants(lines) && item.variant in LineVariants(lines)
    ensures SumBy(GrossOfItem(item), lines) == Cost(item)
  {
    var front, last := lines[..|lines| - 1], lines[|lines| - 1];
    assert lines == front + [last];
    assert GrossOfItem(item)(last) == GrossOf(last.variant)(item);
    if last.variant == item.variant {
      forall line | line in front ensures line.variant != last.variant {
        var k :| 0 <= k < |front| && front[k] == line;
        assert lines[k] == line && lines[|lines| - 1] == last;
      }
      NoLineTakesIt(item, front);
    } else {
      OneLineTakesIt(item, front);
    }
  }

  lemma {:induction false} NoItemsNoGross(lines: seq<RawLine>)
    ensures SumBy(GrossIn([]), lines) == 0
  {
    if lines != [] {
      NoItemsNoGross(lines[..|lines| - 1]);
    }
  }

  /** Grouping by variant neither loses nor invents cost. */
  lemma {:induction false} GroupingConserves(items: seq<Item>, lines: seq<RawLine>)
    requires DistinctVariants(lines) && Variants(items) <= LineVariants(lines)
    ensures SumBy(GrossIn(items), lines) == SumBy(Cost, items)
  {
    if items == [] {
      NoItemsNoGross(lines);
    } else {
      var front, last := items[..|items| - 1], items[|items| - 1];
      assert items == front + [last];
      GroupingConserves(front, lines);
      assert last.variant in Variants(items);
      OneLineTakesIt(last, lines);
      SumByPlus(GrossIn(front), GrossOfItem(last), GrossIn(items), lines);
    }
  }

  function Allocated(line: Line): int { line.allocatedDiscount }

  function Net(line: Line): int { line.netTotal }

  lemma {:induction false} LineSums(raw: seq<RawLine>, shares: seq<int>)
    requires Priced(raw, shares)
    ensures SumBy(Allocated, Lines(raw, shares)) == Total(shares)
    ensures SumBy(Net, Lines(raw, shares)) == Subtotal(raw) - Total(shares)
  {
    if raw != [] {
      LineSums(raw[..|raw| - 1], shares[..|raw| - 1]);
      assert Lines(raw, shares)[..|raw| - 1] == Lines(raw[..|raw| - 1], shares[..|raw| - 1]);
    }
  }

  /**
   * Every prepared receipt balances to the cent: the lines' costs are the items' costs, their discounts
   * are the discount, their nets are the total, and no line goes below zero.
   */
  lemma ReceiptBalances(command: Command, receipt: Receipt)
    requires Validated(command) && IsOutcome(command, Ok(receipt))
    ensures receipt.subtotal == SumBy(Cost, command.items)
    ensures SumBy(Allocated, receipt.lines) == receipt.discount
    ensures SumBy(Net, receipt.lines) == receipt.total == receipt.subtotal - receipt.discount >= 0
    ensures forall line <- receipt.lines :: 0 <= line.allocatedDiscount <= line.subtotal && line.netTotal >= 0
    ensures forall line <- receipt.lines ::
              && line.qty == TotalQty(command.items, line.variant)
              && line.subtotal == TotalGross(command.items, line.variant)
  {
    var raw, shares :| IsSummary(command.items, raw) && OutcomeOn(command, raw, shares, Ok(receipt));
    SummaryIsSplittable(command.items, raw);
    GroupingConserves(command.items, raw);
    SumByAgree(Gross, GrossIn(command.items), raw);
    LineSums(raw, shares);
    forall k | 0 <= k < |receipt.lines|
      ensures receipt.lines[k].qty == TotalQty(command.items, receipt.lines[k].variant)
      ensures receipt.lines[k].subtotal == TotalGross(command.items, receipt.lines[k].variant)
    {
      assert raw[k] in raw;
    }
  }
}
