/**
 * Sales and profit reports (backend/src/reports/reports.service.ts, with the money folds of
 * backend/src/common/money.ts). Amounts are integer cents: every stored amount has two decimals, so the
 * roundings of the source change nothing.
 */
module Reports {
  import opened Outcome
  import opened Sequences
  import opened BusinessTime

  datatype Item = Item(variant: string, qty: int, unitPrice: int, unitCost: int)

  datatype Invoice = Invoice(branch: string, completed: bool, occurredAt: int, total: int, subtotal: int, tax: int, items: seq<Item>)

  datatype Return = Return(branch: string, completed: bool, createdAt: int, refundTotal: int, refundSubtotal: int,
                           refundTax: int, items: seq<Item>)

  datatype Ledger = Ledger(invoices: seq<Invoice>, refunds: seq<Return>)

  datatype SalesReport = SalesReport(count: int, returnCount: int, grossSales: int, refunds: int, totalSales: int,
                                     netRevenue: int, totalTax: int, totalCost: int, profit: int)

  datatype ProfitRow = ProfitRow(variant: string, qty: int, revenue: int, cost: int, profit: int)

  /** sumMoney: a running total. */
  method SumMoney(values: seq<int>) returns (total: int)
    ensures total == SumBy((v: int) => v, values)
  {
    total := 0;
    for i := 0 to |values|
      invariant total == SumBy((v: int) => v, values[..i])
    {
      assert values[..i + 1][..i] == values[..i];
      total := total + values[i];
    }
    assert values[..|values|] == values;
  }

  function LineMoney(unit: int, qty: int): int {
    unit * qty
  }

  function Qty(item: Item): int { item.qty }

  function Revenue(item: Item): int { LineMoney(item.unitPrice, item.qty) }

  function Cost(item: Item): int { LineMoney(item.unitCost, item.qty) }

  function VariantOf(item: Item): string { item.variant }

  predicate InBranch(branch: Option<string>, b: string) {
    branch.None? || branch.value == b
  }

  function SoldIn(range: Range, branch: Option<string>): Invoice -> bool {
    (i: Invoice) => i.completed && InBranch(branch, i.branch) && Within(range, i.occurredAt)
  }

  function ReturnedIn(range: Range, branch: Option<string>): Return -> bool {
    (r: Return) => r.completed && InBranch(branch, r.branch) && Within(range, r.createdAt)
  }

  function Total(i: Invoice): int { i.total }

  function Subtotal(i: Invoice): int { i.subtotal }

  function Tax(i: Invoice): int { i.tax }

  function RefundTotal(r: Return): int { r.refundTotal }

  function RefundSubtotal(r: Return): int { r.refundSubtotal }

  function RefundTax(r: Return): int { r.refundTax }

  function InvoiceCost(i: Invoice): int { SumBy(Cost, i.items) }

  function ReturnCost(r: Return): int { SumBy(Cost, r.items) }

  /** What one side of the report, sold or returned, adds up to. */
  datatype Sums = Sums(count: int, total: int, subtotal: int, tax: int, cost: int)

  function Sold(xs: seq<Invoice>): Sums {
    Sums(|xs|, SumBy(Total, xs), SumBy(Subtotal, xs), SumBy(Tax, xs), SumBy(InvoiceCost, xs))
  }

  function Returned(xs: seq<Return>): Sums {
    Sums(|xs|, SumBy(RefundTotal, xs), SumBy(RefundSubtotal, xs), SumBy(RefundTax, xs), SumBy(ReturnCost, xs))
  }

  function Sales(ledger: Ledger, range: Range, branch: Option<string>): SalesReport {
    Figures(Sold(Filter(SoldIn(range, branch), ledger.invoices)), Returned(Filter(ReturnedIn(range, branch), ledger.refunds)))
  }

  function Figures(sold: Sums, returned: Sums): SalesReport {
    var net, cost := sold.subtotal - returned.subtotal, sold.cost - returned.cost;
    SalesReport(sold.count, returned.count, sold.total, returned.total, sold.total - returned.total, net,
                sold.tax - returned.tax, cost, net - cost)
  }

  function ItemsOfInvoices(invoices: seq<Invoice>): seq<Item> {
    if invoices == [] then [] else ItemsOfInvoices(invoices[..|invoices| - 1]) + invoices[|invoices| - 1].items
  }

  function ItemsOfReturns(refunds: seq<Return>): seq<Item> {
    if refunds == [] then [] else ItemsOfReturns(refunds[..|refunds| - 1]) + refunds[|refunds| - 1].items
  }

  // ---- Profit by item ------------------------------------------------------------------------------

  /** What the row of a variant must hold: everything sold of it less everything returned. */
  function RowOf(sold: seq<Item>, returned: seq<Item>, v: string): ProfitRow {
    var revenue := GroupSum(Revenue, VariantOf, sold)(v) - GroupSum(Revenue, VariantOf, returned)(v);
    var cost := GroupSum(Cost, VariantOf, sold)(v) - GroupSum(Cost, VariantOf, returned)(v);
    ProfitRow(v, GroupSum(Qty, VariantOf, sold)(v) - GroupSum(Qty, VariantOf, returned)(v), revenue, cost, revenue - cost)
  }

  function Variants(items: seq<Item>): set<string> {
    set item <- items :: item.variant
  }

  /** The Map while it fills. */
  ghost predicate Tallies(rows: map<string, ProfitRow>, sold: seq<Item>, returned: seq<Item>) {
    && rows.Keys == Variants(sold) + Variants(returned)
    && forall v <- rows :: rows[v] == RowOf(sold, returned, v)
  }

  lemma {:induction false} AbsentFromGroup(f: Item -> int, items: seq<Item>, v: string)
    requires v !in Variants(items)
    ensures GroupSum(f, VariantOf, items)(v) == 0
  {
    if items != [] {
      var front := items[..|items| - 1];
      assert items == front + [items[|items| - 1]];
      AbsentFromGroup(f, front, v);
    }
  }

  lemma GroupGrows(f: Item -> int, items: seq<Item>, item: Item, v: string)
    ensures GroupSum(f, VariantOf, items + [item])(v) ==
            GroupSum(f, VariantOf, items)(v) + if item.variant == v then f(item) else 0
  {
    assert (items + [item])[..|items|] == items;
  }

  function Previous(rows: map<string, ProfitRow>, v: string): ProfitRow {
    if v in rows then rows[v] else ProfitRow(v, 0, 0, 0, 0)
  }

  lemma PreviousIsRow(rows: map<string, ProfitRow>, sold: seq<Item>, returned: seq<Item>, v: string)
    requires Tallies(rows, sold, returned)
    ensures Previous(rows, v) == RowOf(sold, returned, v)
  {
    if v !in rows {
      AbsentFromGroup(Qty, sold, v);
      AbsentFromGroup(Revenue, sold, v);
      AbsentFromGroup(Cost, sold, v);
      AbsentFromGroup(Qty, returned, v);
      AbsentFromGroup(Revenue, returned, v);
      AbsentFromGroup(Cost, returned, v);
    }
  }

  function AddSale(p: ProfitRow, item: Item): ProfitRow {
    ProfitRow(p.variant, p.qty + item.qty, p.revenue + Revenue(item), p.cost + Cost(item),
              p.profit + Revenue(item) - Cost(item))
  }

  function SubtractReturn(p: ProfitRow, item: Item): ProfitRow {
    ProfitRow(p.variant, p.qty - item.qty, p.revenue - Revenue(item), p.cost - Cost(item),
              p.profit - Revenue(item) + Cost(item))
  }

  lemma SoldRowGrows(sold: seq<Item>, item: Item, v: string)
    ensures RowOf(sold + [item], [], v) == if v == item.variant then AddSale(RowOf(sold, [], v), item) else RowOf(sold, [], v)
  {
    GroupGrows(Qty, sold, item, v);
    GroupGrows(Revenue, sold, item, v);
    GroupGrows(Cost, sold, item, v);
  }

  lemma ReturnedRowGrows(sold: seq<Item>, returned: seq<Item>, item: Item, v: string)
    ensures RowOf(sold, returned + [item], v)
            == if v == item.variant then SubtractReturn(RowOf(sold, returned, v), item) else RowOf(sold, returned, v)
  {
    GroupGrows(Qty, returned, item, v);
    GroupGrows(Revenue, returned, item, v);
    GroupGrows(Cost, returned, item, v);
  }

  lemma VariantsGrow(items: seq<Item>, item: Item)
    ensures Variants(items + [item]) == Variants(items) + {item.variant}
  {
  }

  lemma SaleTallied(rows: map<string, ProfitRow>, sold: seq<Item>, item: Item)
    requires Tallies(rows, sold, [])
    ensures Tallies(rows[item.variant := AddSale(Previous(rows, item.variant), item)], sold + [item], [])
  {
    PreviousIsRow(rows, sold, [], item.variant);
    VariantsGrow(sold, item);
    forall v ensures RowOf(sold + [item], [], v) ==
                     if v == item.variant then AddSale(RowOf(sold, [], v), item) else RowOf(sold, [], v)
    {
      SoldRowGrows(sold, item, v);
    }
  }

  lemma ReturnTallied(rows: map<string, ProfitRow>, sold: seq<Item>, returned: seq<Item>, item: Item)
    requires Tallies(rows, sold, returned)
    ensures Tallies(rows[item.variant := SubtractReturn(Previous(rows, item.variant), item)], sold, returned + [item])
  {
    PreviousIsRow(rows, sold, returned, item.variant);
    VariantsGrow(returned, item);
    forall v ensures RowOf(sold, returned + [item], v) ==
                     if v == item.variant then SubtractReturn(RowOf(sold, returned, v), item) else RowOf(sold, returned, v)
    {
      ReturnedRowGrows(sold, returned, item, v);
    }
  }

  /** One row per variant, each with its totals, most profitable first. */
  ghost predicate IsProfitReport(rows: seq<ProfitRow>, sold: seq<Item>, returned: seq<Item>) {
    && (forall i, j | 0 <= i < j < |rows| :: rows[i].variant != rows[j].variant && rows[i].profit >= rows[j].profit)
    && (set row <- rows :: row.variant) == Variants(sold) + Variants(returned)
    && forall row <- rows :: row == RowOf(sold, returned, row.variant)
  }

  predicate MoreProfitable(a: ProfitRow, b: ProfitRow) {
    a.profit >= b.profit
  }

  function Values(order: seq<string>, rows: map<string, ProfitRow>): (values: seq<ProfitRow>)
    requires forall i | 0 <= i < |order| :: order[i] in rows
    ensures |values| == |order| && forall i | 0 <= i < |order| :: values[i] == rows[order[i]]
  {
    seq(|order|, i requires 0 <= i < |order| => rows[order[i]])
  }

  /** The keys of the Map in insertion order. */
  ghost predicate Keys(order: seq<string>, rows: map<string, ProfitRow>) {
    && (forall i, j | 0 <= i < j < |order| :: order[i] != order[j])
    && rows.Keys == set v <- order
  }

  /** A row for a variant, new or not. */
  lemma KeyAdded(order: seq<string>, rows: map<string, ProfitRow>, v: string, row: ProfitRow)
    requires Keys(order, rows)
    ensures Keys(if v in rows then order else order + [v], rows[v := row])
  {
    if v !in rows {
      forall i | 0 <= i < |order| ensures order[i] != v {
        assert order[i] in rows.Keys;
      }
    }
  }

  lemma RowsInAnyOrder(order: seq<string>, rows: map<string, ProfitRow>, sold: seq<Item>, returned: seq<Item>, sorted: seq<ProfitRow>)
    requires Tallies(rows, sold, returned) && Keys(order, rows)
    requires forall i | 0 <= i < |order| :: order[i] in rows
    requires multiset(sorted) == multiset(Values(order, rows))
    ensures forall row <- sorted :: row == RowOf(sold, returned, row.variant) && row.variant in rows
    ensures forall v <- rows :: v in set row <- sorted :: row.variant
  {
    var values := Values(order, rows);
    SameMembers(sorted, values);
    forall row | row in sorted ensures row == RowOf(sold, returned, row.variant) && row.variant in rows {
      var k :| 0 <= k < |values| && values[k] == row;
    }
    forall v | v in rows ensures v in set row <- sorted :: row.variant {
      var k :| 0 <= k < |order| && order[k] == v;
      assert values[k] in sorted && values[k].variant == v;
    }
  }

  lemma SortedValuesAreReport(order: seq<string>, rows: map<string, ProfitRow>, sold: seq<Item>, returned: seq<Item>)
    requires Tallies(rows, sold, returned) && Keys(order, rows)
    ensures forall i | 0 <= i < |order| :: order[i] in rows
    ensures IsProfitReport(Sort(MoreProfitable, Values(order, rows)), sold, returned)
  {
    assert forall i | 0 <= i < |order| :: order[i] in rows.Keys;
    var values := Values(order, rows);
    var sorted := Sort(MoreProfitable, values);
    SortSorts(MoreProfitable, values);
    RowsInAnyOrder(order, rows, sold, returned, sorted);
    DistinctStay(order, rows, values, sorted);
    SortedByProfit(sorted);
  }

  lemma SortedByProfit(sorted: seq<ProfitRow>)
    requires forall i, j | 0 <= i < j < |sorted| :: MoreProfitable(sorted[i], sorted[j])
    ensures forall i, j | 0 <= i < j < |sorted| :: sorted[i].profit >= sorted[j].profit
  {
    forall i, j | 0 <= i < j < |sorted| ensures sorted[i].profit >= sorted[j].profit {
      assert MoreProfitable(sorted[i], sorted[j]);
    }
  }

  lemma DistinctStay(order: seq<string>, rows: map<string, ProfitRow>, values: seq<ProfitRow>, sorted: seq<ProfitRow>)
    requires forall i, j | 0 <= i < j < |order| :: order[i] != order[j]
    requires |values| == |order| && forall i | 0 <= i < |values| :: values[i].variant == order[i]
    requires multiset(sorted) == multiset(values)
    ensures forall i, j | 0 <= i < j < |sorted| :: sorted[i].variant != sorted[j].variant
  {
    SameMembers(sorted, values);
    forall i, j | 0 <= i < j < |sorted| ensures sorted[i].variant != sorted[j].variant {
      if sorted[i].variant == sorted[j].variant {
        assert sorted[i] in values && sorted[j] in values;
        var a :| 0 <= a < |values| && values[a] == sorted[i];
        var b :| 0 <= b < |values| && values[b] == sorted[j];
        assert order[a] == order[b];
        CountedTwice(sorted, i, j);
        OnceOnly(values, a);
      }
    }
  }

  lemma CountedTwice(xs: seq<ProfitRow>, i: nat, j: nat)
    requires i < j < |xs| && xs[i] == xs[j]
    ensures multiset(xs)[xs[i]] >= 2
  {
    assert xs == xs[..i] + [xs[i]] + xs[i + 1..j] + [xs[j]] + xs[j + 1..];
  }

  lemma OnceOnly(values: seq<ProfitRow>, a: nat)
    requires a < |values|
    requires forall i, j | 0 <= i < j < |values| :: values[i].variant != values[j].variant
    ensures multiset(values)[values[a]] == 1
  {
    assert values == values[..a] + [values[a]] + values[a + 1..];
    assert values[a] !in values[..a] && values[a] !in values[a + 1..];
  }

  /** The Map loop over the lines of one invoice. */
  method TallyInvoice(items: seq<Item>, order0: seq<string>, tally0: map<string, ProfitRow>, ghost before: seq<Item>)
    returns (order: seq<string>, tally: map<string, ProfitRow>)
    requires Keys(order0, tally0) && Tallies(tally0, before, [])
    ensures Keys(order, tally) && Tallies(tally, before + items, [])
  {
    order, tally := order0, tally0;
    assert before + items[..0] == before;
    for j := 0 to |items|
      invariant Keys(order, tally) && Tallies(tally, before + items[..j], [])
    {
      var v := items[j].variant;
      SaleTallied(tally, before + items[..j], items[j]);
      assert before + items[..j + 1] == before + items[..j] + [items[j]];
      KeyAdded(order, tally, v, AddSale(Previous(tally, v), items[j]));
      if v !in tally {
        order := order + [v];
      }
      tally := tally[v := AddSale(Previous(tally, v), items[j])];
    }
    assert items[..|items|] == items;
  }

  /** The Map loop over the returned lines. */
  method TallyReturns(returned: seq<Item>, order0: seq<string>, tally0: map<string, ProfitRow>, ghost sold: seq<Item>)
    returns (order: seq<string>, tally: map<string, ProfitRow>)
    requires Keys(order0, tally0) && Tallies(tally0, sold, [])
    ensures Keys(order, tally) && Tallies(tally, sold, returned)
  {
    order, tally := order0, tally0;
    assert returned[..0] == [];
    for k := 0 to |returned|
      invariant Keys(order, tally) && Tallies(tally, sold, returned[..k])
    {
      var v := returned[k].variant;
      ReturnTallied(tally, sold, returned[..k], returned[k]);
      assert returned[..k + 1] == returned[..k] + [returned[k]];
      KeyAdded(order, tally, v, SubtractReturn(Previous(tally, v), returned[k]));
      if v !in tally {
        order := order + [v];
      }
      tally := tally[v := SubtractReturn(Previous(tally, v), returned[k])];
    }
    assert returned[..|returned|] == returned;
  }

  /** The report over the fetched invoices and return lines. */
  method ProfitByItem(ledger: Ledger, range: Range, branch: Option<string>, returned: seq<Item>) returns (rows: seq<ProfitRow>)
    requires multiset(returned) == multiset(ItemsOfReturns(Filter(ReturnedIn(range, branch), ledger.refunds)))
    ensures IsProfitReport(rows, ItemsOfInvoices(Filter(SoldIn(range, branch), ledger.invoices)), returned)
  {
    var invoices := Filter(SoldIn(range, branch), ledger.invoices);
    var order: seq<string> := [];
    var tally: map<string, ProfitRow> := map[];
    for i := 0 to |invoices|
      invariant Keys(order, tally) && Tallies(tally, ItemsOfInvoices(invoices[..i]), [])
    {
      assert invoices[..i + 1][..i] == invoices[..i];
      order, tally := TallyInvoice(invoices[i].items, order, tally, ItemsOfInvoices(invoices[..i]));
    }
    assert invoices[..|invoices|] == invoices;
    order, tally := TallyReturns(returned, order, tally, ItemsOfInvoices(invoices));
    SortedValuesAreReport(order, tally, ItemsOfInvoices(invoices), returned);
    rows := Sort(MoreProfitable, Values(order, tally));
  }

  // ---- Conservation --------------------------------------------------------------------------------

  lemma {:induction false} InvoiceItemsCost(invoices: seq<Invoice>)
    ensures SumBy(Cost, ItemsOfInvoices(invoices)) == SumBy(InvoiceCost, invoices)
  {
    if invoices != [] {
      InvoiceItemsCost(invoices[..|invoices| - 1]);
      SumByConcat(Cost, ItemsOfInvoices(invoices[..|invoices| - 1]), invoices[|invoices| - 1].items);
    }
  }

  lemma {:induction false} ReturnItemsCost(refunds: seq<Return>)
    ensures SumBy(Cost, ItemsOfReturns(refunds)) == SumBy(ReturnCost, refunds)
  {
    if refunds != [] {
      ReturnItemsCost(refunds[..|refunds| - 1]);
      SumByConcat(Cost, ItemsOfReturns(refunds[..|refunds| - 1]), refunds[|refunds| - 1].items);
    }
  }

  lemma RowVariants(rows: seq<ProfitRow>, sold: seq<Item>, returned: seq<Item>) returns (keys: seq<string>)
    requires IsProfitReport(rows, sold, returned)
    ensures |keys| == |rows| && forall i | 0 <= i < |rows| :: keys[i] == rows[i].variant
    ensures forall i, j | 0 <= i < j < |keys| :: keys[i] != keys[j]
    ensures forall item | item in sold || item in returned :: item.variant in keys
  {
    keys := seq(|rows|, i requires 0 <= i < |rows| => rows[i].variant);
    forall item | item in sold || item in returned ensures item.variant in keys {
      assert item.variant in Variants(sold) + Variants(returned);
      var k :| 0 <= k < |rows| && rows[k].variant == item.variant;
      assert keys[k] == item.variant;
    }
  }

  /** Summed over the rows, a column is what was sold less what was returned. */
  lemma {:induction false} ColumnTotal(f: Item -> int, column: ProfitRow -> int, rows: seq<ProfitRow>, keys: seq<string>,
                                       sold: seq<Item>, returned: seq<Item>)
    requires |keys| == |rows| && forall i | 0 <= i < |rows| ::
               keys[i] == rows[i].variant
               && column(rows[i]) == GroupSum(f, VariantOf, sold)(keys[i]) - GroupSum(f, VariantOf, returned)(keys[i])
    ensures SumBy(column, rows) ==
            SumBy(GroupSum(f, VariantOf, sold), keys) - SumBy(GroupSum(f, VariantOf, returned), keys)
  {
    if rows != [] {
      ColumnTotal(f, column, rows[..|rows| - 1], keys[..|keys| - 1], sold, returned);
    }
  }

  /**
   * Conservation: over the same range and branch, the costs of the profit rows add up to the total cost of
   * the sales report, their revenues to revenue sold less returned, and every row's profit is its revenue
   * less its cost.
   */
  lemma RowsConserve(ledger: Ledger, range: Range, branch: Option<string>, returned: seq<Item>, rows: seq<ProfitRow>)
    requires multiset(returned) == multiset(ItemsOfReturns(Filter(ReturnedIn(range, branch), ledger.refunds)))
    requires IsProfitReport(rows, ItemsOfInvoices(Filter(SoldIn(range, branch), ledger.invoices)), returned)
    ensures SumBy((row: ProfitRow) => row.cost, rows) == Sales(ledger, range, branch).totalCost
    ensures SumBy((row: ProfitRow) => row.revenue, rows) ==
            SumBy(Revenue, ItemsOfInvoices(Filter(SoldIn(range, branch), ledger.invoices))) - SumBy(Revenue, returned)
    ensures forall row <- rows :: row.profit == row.revenue - row.cost
  {
    var sold := ItemsOfInvoices(Filter(SoldIn(range, branch), ledger.invoices));
    var fetched := ItemsOfReturns(Filter(ReturnedIn(range, branch), ledger.refunds));
    var keys := RowVariants(rows, sold, returned);
    forall i | 0 <= i < |rows| ensures rows[i] == RowOf(sold, returned, keys[i]) {
      assert rows[i] in rows;
    }
    ColumnTotal(Cost, (row: ProfitRow) => row.cost, rows, keys, sold, returned);
    ColumnTotal(Revenue, (row: ProfitRow) => row.revenue, rows, keys, sold, returned);
    GroupingConserves(Cost, VariantOf, sold, keys);
    GroupingConserves(Cost, VariantOf, returned, keys);
    GroupingConserves(Revenue, VariantOf, sold, keys);
    GroupingConserves(Revenue, VariantOf, returned, keys);
    SumByPermutation(Cost, returned, fetched);
    InvoiceItemsCost(Filter(SoldIn(range, branch), ledger.invoices));
    ReturnItemsCost(Filter(ReturnedIn(range, branch), ledger.refunds));
  }

  // ---- Tiling --------------------------------------------------------------------------------------

  function Add(a: SalesReport, b: SalesReport): SalesReport {
    SalesReport(a.count + b.count, a.returnCount + b.returnCount, a.grossSales + b.grossSales, a.refunds + b.refunds,
                a.totalSales + b.totalSales, a.netRevenue + b.netRevenue, a.totalTax + b.totalTax,
                a.totalCost + b.totalCost, a.profit + b.profit)
  }

  function Plus(a: Sums, b: Sums): Sums {
    Sums(a.count + b.count, a.total + b.total, a.subtotal + b.subtotal, a.tax + b.tax, a.cost + b.cost)
  }

  lemma SoldAddUp(p: Invoice -> bool, q: Invoice -> bool, r: Invoice -> bool, xs: seq<Invoice>)
    requires forall x <- xs :: (r(x) <==> p(x) || q(x)) && !(p(x) && q(x))
    ensures Sold(Filter(r, xs)) == Plus(Sold(Filter(p, xs)), Sold(Filter(q, xs)))
  {
    SumOfSplitSelection(Total, p, q, r, xs);
    SumOfSplitSelection(Subtotal, p, q, r, xs);
    SumOfSplitSelection(Tax, p, q, r, xs);
    SumOfSplitSelection(InvoiceCost, p, q, r, xs);
  }

  lemma ReturnedAddUp(p: Return -> bool, q: Return -> bool, r: Return -> bool, xs: seq<Return>)
    requires forall x <- xs :: (r(x) <==> p(x) || q(x)) && !(p(x) && q(x))
    ensures Returned(Filter(r, xs)) == Plus(Returned(Filter(p, xs)), Returned(Filter(q, xs)))
  {
    SumOfSplitSelection(RefundTotal, p, q, r, xs);
    SumOfSplitSelection(RefundSubtotal, p, q, r, xs);
    SumOfSplitSelection(RefundTax, p, q, r, xs);
    SumOfSplitSelection(ReturnCost, p, q, r, xs);
  }

  lemma FiguresAddUp(a: Sums, b: Sums, c: Sums, d: Sums)
    ensures Figures(Plus(a, b), Plus(c, d)) == Add(Figures(a, c), Figures(b, d))
  {
  }

  /** The report over two ranges that tile a third is the sum of their reports. */
  lemma SalesAddUp(ledger: Ledger, left: Range, right: Range, whole: Range, branch: Option<string>)
    requires left.gte <= left.lt == right.gte <= right.lt && whole == Range(left.gte, right.lt)
    ensures Sales(ledger, whole, branch) == Add(Sales(ledger, left, branch), Sales(ledger, right, branch))
  {
    SoldAddUp(SoldIn(left, branch), SoldIn(right, branch), SoldIn(whole, branch), ledger.invoices);
    ReturnedAddUp(ReturnedIn(left, branch), ReturnedIn(right, branch), ReturnedIn(whole, branch), ledger.refunds);
    FiguresAddUp(Sold(Filter(SoldIn(left, branch), ledger.invoices)), Sold(Filter(SoldIn(right, branch), ledger.invoices)),
                 Returned(Filter(ReturnedIn(left, branch), ledger.refunds)),
                 Returned(Filter(ReturnedIn(right, branch), ledger.refunds)));
  }

  /** Every figure of the report over [a, c] is the sum of the figures over [a, b] and [b + 1, c]. */
  lemma ReportsTile(ledger: Ledger, branch: Option<string>, a: string, b: string, next: string, c: string,
                    parse: string -> Option<int>, offset: int -> int)
    requires Follows(b, next) && ParseDateOnly(a).Some? && ParseDateOnly(c).Some?
    requires BusinessDateRange(a, b, parse, offset).Ok? && BusinessDateRange(next, c, parse, offset).Ok?
    ensures BusinessDateRange(a, c, parse, offset).Ok?
    ensures Sales(ledger, BusinessDateRange(a, c, parse, offset).value, branch) ==
            Add(Sales(ledger, BusinessDateRange(a, b, parse, offset).value, branch),
                Sales(ledger, BusinessDateRange(next, c, parse, offset).value, branch))
  {
    var left, right := BusinessDateRange(a, b, parse, offset).value, BusinessDateRange(next, c, parse, offset).value;
    RangesTile(a, b, next, c, parse, offset, left.lt);
    SalesAddUp(ledger, left, right, BusinessDateRange(a, c, parse, offset).value, branch);
  }
}
