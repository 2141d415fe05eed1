/**
 * Supplier-return credits (backend/src/purchasing/purchasing-accounting.ts, lines 54 to 104). Credits are
 * integer cents, unit credits millionths.
 */
module SupplierReturns {
  import Arithmetic
  import DiscountSplit
  import Sequences
  import opened Outcome
  import opened Purchasing
  import opened PurchaseReceipt

  const MAX_SAFE_INTEGER := 9007199254740991

  datatype ReturnError = QuantitiesNotPositive | NotReturnable(remaining: nat) | CreditExceedsLine

  datatype Credit = Credit(remainingQty: int, creditTotal: int, creditUnitCost: int)

  /** What a purchase line owes, and what has been taken back so far. */
  datatype Owed = Owed(lineQty: int, lineCredit: int, unitCredit: int)

  datatype Returned = Returned(qty: int, credit: int)

  predicate IsSafe(n: int) {
    -MAX_SAFE_INTEGER <= n <= MAX_SAFE_INTEGER
  }

  /** toDecimalPlaces with ROUND_HALF_UP rounds ties away from zero. */
  function Round(numerator: int, denominator: nat): int
    requires denominator > 0
  {
    if numerator < 0 then 0 - RoundHalfUp(-numerator, denominator) else RoundHalfUp(numerator, denominator)
  }

  function Min(a: int, b: int): int {
    if a <= b then a else b
  }

  function CalculateSupplierReturnCredit(owed: Owed, returned: Returned, requestedQty: int): Result<Credit, ReturnError> {
    if !IsSafe(owed.lineQty) || !IsSafe(returned.qty) || !IsSafe(requestedQty)
       || owed.lineQty < 1 || returned.qty < 0 || requestedQty < 1
    then Err(QuantitiesNotPositive)
    else
      var remainingQty := owed.lineQty - returned.qty;
      if remainingQty < 0 || requestedQty > remainingQty
      then Err(NotReturnable(if remainingQty < 0 then 0 else remainingQty))
      else
        var remainingCredit := owed.lineCredit - returned.credit;
        if remainingCredit < 0 then Err(CreditExceedsLine)
        else
          var creditTotal :=
            if requestedQty == remainingQty then remainingCredit
            else Min(remainingCredit, Round(owed.unitCredit * requestedQty, 10000));
          Ok(Credit(remainingQty, creditTotal, Round(creditTotal * 10000, requestedQty)))
  }

  /** Accepted returns are recorded, refused ones change nothing. */
  function Record(owed: Owed, returned: Returned, requestedQty: int): Returned {
    match CalculateSupplierReturnCredit(owed, returned, requestedQty)
    case Ok(credit) => Returned(returned.qty + requestedQty, returned.credit + credit.creditTotal)
    case Err(_) => returned
  }

  function RecordAll(owed: Owed, requests: seq<int>): Returned {
    if requests == [] then Returned(0, 0)
    else Record(owed, RecordAll(owed, requests[..|requests| - 1]), requests[|requests| - 1])
  }

  ghost predicate Consistent(owed: Owed, returned: Returned) {
    && 0 <= returned.qty <= owed.lineQty
    && 0 <= returned.credit <= owed.lineCredit
    && (returned.qty == owed.lineQty ==> returned.credit == owed.lineCredit)
  }

  lemma RecordKeeps(owed: Owed, returned: Returned, requestedQty: int)
    requires owed.unitCredit >= 0 && Consistent(owed, returned)
    ensures Consistent(owed, Record(owed, returned, requestedQty))
    ensures returned.credit <= Record(owed, returned, requestedQty).credit
    ensures CalculateSupplierReturnCredit(owed, returned, requestedQty) != Err(CreditExceedsLine)
  {
    if requestedQty > 0 {
      Arithmetic.MulMonotone(0, owed.unitCredit, requestedQty);
      assert owed.unitCredit * requestedQty >= 0;
    }
  }

  /**
   * Over any sequence of requests on a line, however the returns are split: no credit is negative, the
   * running credit never exceeds the line, it is exactly the line's credit once every unit is back, and
   * no request is ever refused for exceeding the credit.
   */
  lemma {:induction false} ReturnsNeverOverpay(owed: Owed, requests: seq<int>, i: nat)
    requires owed.lineQty >= 1 && owed.lineCredit >= 0 && owed.unitCredit >= 0
    requires i <= |requests|
    ensures Consistent(owed, RecordAll(owed, requests))
    ensures RecordAll(owed, requests[..i]).credit <= RecordAll(owed, requests).credit
    ensures forall q :: CalculateSupplierReturnCredit(owed, RecordAll(owed, requests), q) != Err(CreditExceedsLine)
    decreases |requests|
  {
    if requests == [] {
      forall q ensures CalculateSupplierReturnCredit(owed, Returned(0, 0), q) != Err(CreditExceedsLine) {}
    } else {
      var front, last := requests[..|requests| - 1], requests[|requests| - 1];
      if i < |requests| {
        ReturnsNeverOverpay(owed, front, i);
        assert requests[..i] == front[..i];
      } else {
        ReturnsNeverOverpay(owed, front, 0);
        assert requests[..i] == requests;
      }
      RecordKeeps(owed, RecordAll(owed, front), last);
    }
  }

  /** Two ways of returning everything are worth the same. */
  lemma FullReturnsAreWorthTheLine(owed: Owed, a: seq<int>, b: seq<int>)
    requires owed.lineQty >= 1 && owed.lineCredit >= 0 && owed.unitCredit >= 0
    requires RecordAll(owed, a).qty == owed.lineQty == RecordAll(owed, b).qty
    ensures RecordAll(owed, a).credit == RecordAll(owed, b).credit == owed.lineCredit
  {
    ReturnsNeverOverpay(owed, a, 0);
    ReturnsNeverOverpay(owed, b, 0);
  }

  lemma PricedLineIsOwed(raw: seq<RawLine>, shares: seq<int>, k: nat)
    requires Priced(raw, shares) && k < |raw|
    ensures var line := Lines(raw, shares)[k];
            line.qty >= 1 && line.netTotal >= 0 && line.netUnitCost >= 0
  {
  }

  lemma LinesAreOwed(command: Command, receipt: Receipt, k: nat)
    requires Validated(command) && IsOutcome(command, Ok(receipt)) && k < |receipt.lines|
    ensures var line := receipt.lines[k];
            line.qty >= 1 && line.netTotal >= 0 && line.netUnitCost >= 0
  {
    var raw, shares :| IsSummary(command.items, raw) && OutcomeOn(command, raw, shares, Ok(receipt));
    PricedLineIsOwed(raw, shares, k);
  }

  /** The lines a prepared receipt posts meet those conditions, so its returns refund its net total. */
  lemma ReceiptLinesReturnInFull(command: Command, receipt: Receipt, k: nat, requests: seq<int>)
    requires Validated(command) && IsOutcome(command, Ok(receipt)) && k < |receipt.lines|
    ensures var line := receipt.lines[k];
            var returned := RecordAll(Owed(line.qty, line.netTotal, line.netUnitCost), requests);
            && 0 <= returned.credit <= line.netTotal
            && (returned.qty == line.qty ==> returned.credit == line.netTotal)
  {
    LinesAreOwed(command, receipt, k);
    var line := receipt.lines[k];
    ReturnsNeverOverpay(Owed(line.qty, line.netTotal, line.netUnitCost), requests, 0);
  }

  // ---- How much a run of returns is worth ----------------------------------------------------------

  /** The units a line has back: a request counts when it is at least one and not more than what is left. */
  function UnitsBack(lineQty: int, requests: seq<int>): int {
    if requests == [] then 0
    else
      var back, last := UnitsBack(lineQty, requests[..|requests| - 1]), requests[|requests| - 1];
      if IsSafe(lineQty) && 1 <= last <= lineQty - back then back + last else back
  }

  /** The rounded values of the requests that count, as if the line had credit without end. */
  function Values(owed: Owed, requests: seq<int>): int {
    if requests == [] then 0
    else
      var front, last := requests[..|requests| - 1], requests[|requests| - 1];
      var counts := IsSafe(owed.lineQty) && 1 <= last <= owed.lineQty - UnitsBack(owed.lineQty, front);
      Values(owed, front) + if counts then Round(owed.unitCredit * last, 10000) else 0
  }

  /**
   * What any sequence of requests leaves behind: the units that counted, and the line's credit once they are all
   * back, before that the sum of their values as far as the line's credit goes.
   */
  lemma {:induction false} RunIsWorthItsValues(owed: Owed, requests: seq<int>)
    requires owed.lineQty >= 1 && owed.lineCredit >= 0 && owed.unitCredit >= 0
    ensures var units := UnitsBack(owed.lineQty, requests);
            && 0 <= units <= owed.lineQty
            && RecordAll(owed, requests)
               == Returned(units, if units == owed.lineQty then owed.lineCredit else Min(owed.lineCredit, Values(owed, requests)))
    ensures Values(owed, requests) >= 0
  {
    if requests != [] {
      var front, last := requests[..|requests| - 1], requests[|requests| - 1];
      RunIsWorthItsValues(owed, front);
      if last >= 1 {
        Arithmetic.MulMonotone(0, owed.unitCredit, last);
        assert Round(owed.unitCredit * last, 10000) >= 0;
      }
    }
  }

  /** Exactly when a run uses the credit up with units still out: the values of what came back cover the line. */
  lemma CreditRunsOutIffValuesCoverLine(owed: Owed, requests: seq<int>)
    requires owed.lineQty >= 1 && owed.lineCredit >= 0 && owed.unitCredit >= 0
    requires UnitsBack(owed.lineQty, requests) < owed.lineQty
    ensures RecordAll(owed, requests).credit == owed.lineCredit <==> Values(owed, requests) >= owed.lineCredit
  {
    RunIsWorthItsValues(owed, requests);
  }

  /** One call, on any state: a partial return uses the credit up when its rounded value covers what is left. */
  lemma PartialReturnExhausts(owed: Owed, returned: Returned, requestedQty: int)
    requires CalculateSupplierReturnCredit(owed, returned, requestedQty).Ok?
    requires returned.qty + requestedQty < owed.lineQty
    ensures Record(owed, returned, requestedQty).credit == owed.lineCredit <==>
            Round(owed.unitCredit * requestedQty, 10000) >= owed.lineCredit - returned.credit
  {
  }

  /** Two units at a cent each, with a discount of one cent on the receipt. */
  function TwoCents(header: Header, id: string, v: VariantId): Command {
    Command(header, Some(id), None, Some(1), None, [Item(v, 2, 1)])
  }

  function TwoCentsReceipt(header: Header, id: string, v: VariantId): Receipt {
    Assemble(TwoCents(header, id, v), 1, [RawLine(v, 2, 2)], [1])
  }

  lemma TwoCentsIsPrepared(header: Header, id: string, v: VariantId)
    ensures Validated(TwoCents(header, id, v))
    ensures IsOutcome(TwoCents(header, id, v), Ok(TwoCentsReceipt(header, id, v)))
  {
    var command, raw, shares := TwoCents(header, id, v), [RawLine(v, 2, 2)], [1];
    Sequences.SumOfOne(QtyOf(v), Item(v, 2, 1));
    Sequences.SumOfOne(GrossOf(v), Item(v, 2, 1));
    Sequences.SumOfOne(DiscountSplit.Gross, RawLine(v, 2, 2));
    assert shares[..0] == [] && DiscountSplit.Total(shares) == 1;
    assert Variants(command.items) == {v} == LineVariants(raw);
    assert OutcomeOn(command, raw, shares, Ok(TwoCentsReceipt(header, id, v)));
  }

  /**
   * Rounding can use the credit up early. A receipt of two units at a cent each with a discount of one cent posts
   * a line that owes one cent, half a cent a unit, and pays the whole cent for the first unit.
   */
  lemma CreditCanRunOutEarly(header: Header, id: string, v: VariantId)
    ensures var command, receipt := TwoCents(header, id, v), TwoCentsReceipt(header, id, v);
            && Validated(command) && IsOutcome(command, Ok(receipt))
            && |receipt.lines| == 1
            && var line := receipt.lines[0];
               var returned := RecordAll(Owed(line.qty, line.netTotal, line.netUnitCost), [1]);
               returned.qty < line.qty && returned.credit == line.netTotal > 0
  {
    TwoCentsIsPrepared(header, id, v);
    var owed := Owed(2, 1, 5000);
    assert TwoCentsReceipt(header, id, v).lines == [Line(v, 2, 10000, 2, 1, 1, 5000)];
    assert [1][..0] == [];
    assert RecordAll(owed, []) == Returned(0, 0);
    assert Round(5000, 10000) == 1;
  }
}
