/** The till's decimal money (pos-electron/electron/money.ts). */
module Money {
  import opened Arithmetic
  import opened Decimals
  import opened Outcome
  import opened Text

  datatype MoneyError = NotPlainDecimal | UnsafeRange | QuantityNotSafe

  const MAX_SAFE_INTEGER := 9007199254740991

  predicate IsSafeInteger(n: int) {
    -MAX_SAFE_INTEGER <= n <= MAX_SAFE_INTEGER
  }

  /** The three groups of ^([+-]?)(\d+)(?:\.(\d*))?$. */
  datatype Amount = Amount(negative: bool, whole: string, fraction: string)

  function Match(text: string): (m: Option<Amount>)
    ensures m.Some? ==> m.value.whole != "" && AllDigits(m.value.whole) && AllDigits(m.value.fraction)
  {
    var signed := text != "" && text[0] in "+-";
    var body := if signed then text[1..] else text;
    var dot := IndexOf(body, '.');
    var whole := body[..dot];
    var fraction := if dot < |body| then body[dot + 1..] else "";
    if whole != "" && AllDigits(whole) && AllDigits(fraction)
    then Some(Amount(signed && text[0] == '-', whole, fraction))
    else None
  }

  /**
   * The cents of a magnitude, from the first three fraction digits only. A whole part beyond 2^53 is
   * inexact in JavaScript, but rounding is monotone and keeps it beyond the safe range, so exact
   * integers decide the range check alike.
   */
  function Magnitude(whole: string, fraction: string): nat
    requires AllDigits(whole) && AllDigits(fraction)
  {
    var padded := fraction + "00";
    assert AllDigits(padded[..2]);
    Value(whole) * 100 + Value(padded[..2]) + if |fraction| > 2 && DigitValue(fraction[2]) >= 5 then 1 else 0
  }

  function ToCents(value: string): (r: Result<int, MoneyError>)
    ensures r.Ok? ==> IsSafeInteger(r.value)
  {
    match Match(Trim(value))
    case None => Err(NotPlainDecimal)
    case Some(amount) =>
      var magnitude: int := Magnitude(amount.whole, amount.fraction);
      if IsSafeInteger(magnitude) then Ok(if amount.negative then -magnitude else magnitude)
      else Err(UnsafeRange)
  }

  function Abs(n: int): nat {
    if n < 0 then -n else n
  }

  function PadTwo(s: string): string {
    if |s| < 2 then seq(2 - |s|, _ => '0') + s else s
  }

  function FormatCents(cents: int): string {
    (if cents < 0 then "-" else "") + Print(Abs(cents) / 100) + "." + PadTwo(Print(Abs(cents) % 100))
  }

  function FormatMoney(value: string): Result<string, MoneyError> {
    match ToCents(value)
    case Err(e) => Err(e)
    case Ok(cents) => Ok(FormatCents(cents))
  }

  function LineCents(unit: string, quantity: int): Result<int, MoneyError> {
    if !IsSafeInteger(quantity) then Err(QuantityNotSafe)
    else
      match ToCents(unit)
      case Err(e) => Err(e)
      case Ok(cents) => if IsSafeInteger(cents * quantity) then Ok(cents * quantity) else Err(UnsafeRange)
  }

  /** Twice the distance from `magnitude` cents up to numerator/denominator, scaled by the denominator. */
  function TwiceExcess(magnitude: int, numerator: int, denominator: int): int {
    200 * numerator - 2 * (magnitude * denominator)
  }

  /** Within half a cent, and on a tie the larger magnitude. */
  predicate IsNearestCent(magnitude: int, numerator: int, denominator: int) {
    -denominator <= TwiceExcess(magnitude, numerator, denominator) < denominator
  }

  lemma {:induction false} ValueConcat(a: string, b: string)
    requires AllDigits(a) && AllDigits(b)
    ensures Value(a + b) == Value(a) * Pow10(|b|) + Value(b)
  {
    if b == "" {
      assert a + b == a;
    } else {
      var front, digit := b[..|b| - 1], DigitValue(b[|b| - 1]);
      assert (a + b)[..|a + b| - 1] == a + front;
      ValueConcat(a, front);
      Shift(Value(a), Pow10(|front|), Value(front), digit);
    }
  }

  /** With `a` whole cents, deciding digit `t` and tail `r`, the deciding digit alone rounds correctly. */
  lemma DecidingDigit(a: nat, t: nat, p: nat, r: nat, m: nat, n: nat, d: nat)
    requires t < 10 && r < p
    requires m == a + (if t >= 5 then 1 else 0) && n == (10 * a + t) * p + r && d == 1000 * p
    ensures IsNearestCent(m, n, d)
  {
    assert n == 10 * (a * p) + t * p + r;
    assert m * d == 1000 * (a * p) + if t >= 5 then 1000 * p else 0;
    MulMonotone(t, if t >= 5 then 9 else 4, p);
    MulMonotone(if t >= 5 then 5 else 0, t, p);
  }

  lemma ThreeDigitsAndTail(fraction: string)
    requires AllDigits(fraction) && |fraction| >= 3
    ensures var p := Pow10(|fraction| - 3);
            Value(fraction) == (10 * Value(fraction[..2]) + DigitValue(fraction[2])) * p + Value(fraction[3..])
    ensures Value(fraction[3..]) < Pow10(|fraction| - 3)
  {
    var head, tail := fraction[..3], fraction[3..];
    assert head + tail == fraction && head[..2] == fraction[..2];
    ValueConcat(head, tail);
    ValueBound(tail);
  }

  lemma Pow10PlusThree(k: nat)
    ensures Pow10(k + 3) == 1000 * Pow10(k)
  {
    assert Pow10(k + 3) == 10 * Pow10(k + 2) && Pow10(k + 2) == 10 * Pow10(k + 1);
  }

  lemma MagnitudeOfFraction(fraction: string)
    requires AllDigits(fraction)
    ensures |fraction| >= 3 ==>
              Magnitude("", fraction) == Value(fraction[..2]) + if DigitValue(fraction[2]) >= 5 then 1 else 0
    ensures |fraction| == 2 ==> Magnitude("", fraction) == Value(fraction)
    ensures |fraction| == 1 ==> Magnitude("", fraction) == 10 * Value(fraction)
    ensures |fraction| == 0 ==> Magnitude("", fraction) == 0
  {
    var pair := (fraction + "00")[..2];
    assert |fraction| >= 2 ==> pair == fraction[..2];
    assert |fraction| == 2 ==> fraction[..2] == fraction;
    assert |fraction| == 1 ==> pair[..1] == fraction;
    assert |fraction| == 0 ==> pair == "00" && pair[..1] == "0" && "0"[..0] == "" && Value("0") == 0;
  }

  lemma ShortFraction(k: nat, value: nat, magnitude: nat)
    requires k <= 2 && (k == 0 ==> value == 0)
    requires magnitude == if k == 2 then value else 10 * value
    ensures IsNearestCent(magnitude, value, Pow10(k))
  {
    assert Pow10(0) == 1 && Pow10(1) == 10 && Pow10(2) == 100;
  }

  lemma LongFraction(fraction: string)
    requires AllDigits(fraction) && |fraction| >= 3
    ensures IsNearestCent(Magnitude("", fraction), Value(fraction), Pow10(|fraction|))
  {
    MagnitudeOfFraction(fraction);
    ThreeDigitsAndTail(fraction);
    Pow10PlusThree(|fraction| - 3);
    DecidingDigit(Value(fraction[..2]), DigitValue(fraction[2]), Pow10(|fraction| - 3), Value(fraction[3..]),
                  Magnitude("", fraction), Value(fraction), Pow10(|fraction|));
  }

  lemma FractionIsNearest(fraction: string)
    requires AllDigits(fraction)
    ensures IsNearestCent(Magnitude("", fraction), Value(fraction), Pow10(|fraction|))
  {
    if |fraction| >= 3 {
      LongFraction(fraction);
    } else {
      MagnitudeOfFraction(fraction);
      ShortFraction(|fraction|, Value(fraction), Magnitude("", fraction));
    }
  }

  /**
   * Reading three fraction digits is enough: the accepted value, the number whole.fraction, is rounded to
   * the nearest cent, and a tie moves away from zero.
   */
  lemma ToCentsIsNearest(value: string)
    requires ToCents(value).Ok?
    ensures var amount := Match(Trim(value)).value;
            && IsNearestCent(Abs(ToCents(value).value), Value(amount.whole + amount.fraction), Pow10(|amount.fraction|))
            && (ToCents(value).value < 0 ==> amount.negative)
            && (ToCents(value).value > 0 ==> !amount.negative)
  {
    var amount := Match(Trim(value)).value;
    MagnitudeIsNearest(amount.whole, amount.fraction);
    assert Abs(ToCents(value).value) == Magnitude(amount.whole, amount.fraction);
  }

  lemma MagnitudeIsNearest(whole: string, fraction: string)
    requires AllDigits(whole) && AllDigits(fraction)
    ensures IsNearestCent(Magnitude(whole, fraction), Value(whole + fraction), Pow10(|fraction|))
  {
    FractionIsNearest(fraction);
    ValueConcat(whole, fraction);
    assert Magnitude(whole, fraction) == Value(whole) * 100 + Magnitude("", fraction);
    AddWhole(Value(whole), Magnitude("", fraction), Value(fraction), Pow10(|fraction|), Magnitude(whole, fraction),
             Value(whole + fraction));
  }

  lemma AddWhole(w: nat, m: nat, f: nat, d: nat, magnitude: int, numerator: int)
    requires IsNearestCent(m, f, d) && magnitude == w * 100 + m && numerator == w * d + f
    ensures IsNearestCent(magnitude, numerator, d)
  {
    assert magnitude * d == 100 * (w * d) + m * d;
  }

  lemma PrintTwoDigits(n: nat)
    requires n < 100
    ensures |PadTwo(Print(n))| == 2 && AllDigits(PadTwo(Print(n))) && Value(PadTwo(Print(n))) == n
  {
    PrintIsCanonical(n);
    var s := PadTwo(Print(n));
    if n < 10 {
      assert s == "0" + Print(n);
      assert s[..1] == "0" && "0"[..0] == "";
    } else {
      assert Print(n) == Print(n / 10) + [DigitChar(n % 10)];
    }
  }

  lemma PrintedTextMatches(negative: bool, whole: string, fraction: string)
    requires whole != "" && AllDigits(whole) && AllDigits(fraction)
    ensures var text := (if negative then "-" else "") + whole + "." + fraction;
            Match(text) == Some(Amount(negative, whole, fraction))
  {
    var body := whole + "." + fraction;
    var text := (if negative then "-" else "") + whole + "." + fraction;
    assert text == if negative then "-" + body else body;
    assert !negative ==> text[0] == whole[0];
    assert (if negative then text[1..] else text) == body;
    IndexOfSeam(whole, '.', fraction);
    assert body[..|whole|] == whole && body[|whole| + 1..] == fraction;
  }

  lemma FormatIsTrimmed(cents: int)
    ensures Trim(FormatCents(cents)) == FormatCents(cents)
  {
    PrintIsCanonical(Abs(cents) / 100);
    PrintTwoDigits(Abs(cents) % 100);
    var text := FormatCents(cents);
    assert text[|text| - 1] == PadTwo(Print(Abs(cents) % 100))[1];
    assert text[0] == if cents < 0 then '-' else Print(Abs(cents) / 100)[0];
    TrimKeeps(text);
  }

  lemma FormatCentsReads(cents: int)
    requires IsSafeInteger(cents)
    ensures ToCents(FormatCents(cents)) == Ok(cents)
  {
    var whole, fraction := Print(Abs(cents) / 100), PadTwo(Print(Abs(cents) % 100));
    PrintIsCanonical(Abs(cents) / 100);
    PrintTwoDigits(Abs(cents) % 100);
    PrintedTextMatches(cents < 0, whole, fraction);
    FormatIsTrimmed(cents);
    assert (fraction + "00")[..2] == fraction;
    assert Magnitude(whole, fraction) == Abs(cents);
  }

  /** Printing keeps the amount, so printing a printed amount changes nothing. */
  lemma FormatMoneyRoundTrip(value: string)
    requires ToCents(value).Ok?
    ensures ToCents(FormatMoney(value).value) == ToCents(value)
    ensures FormatMoney(FormatMoney(value).value) == FormatMoney(value)
  {
    FormatCentsReads(ToCents(value).value);
  }

  /** Two accepted texts print alike exactly when they are the same amount. */
  lemma FormatMoneyIsCanonical(a: string, b: string)
    requires ToCents(a).Ok? && ToCents(b).Ok?
    ensures FormatMoney(a) == FormatMoney(b) <==> ToCents(a) == ToCents(b)
  {
    FormatCentsReads(ToCents(a).value);
    FormatCentsReads(ToCents(b).value);
  }
}

/** The back office's own copy of the parser and printer (admin-web/lib/money.ts). */
module AdminMoney {
  import opened Decimals
  import opened Outcome
  import opened Text
  import Money

  function Cents(value: string): Result<int, Money.MoneyError> {
    match Money.Match(Trim(value))
    case None => Err(Money.NotPlainDecimal)
    case Some(amount) =>
      var sign := if amount.negative then -1 else 1;
      var padded := amount.fraction + "00";
      assert AllDigits(padded[..2]);
      var result := sign * (Value(amount.whole) * 100
                            + Value(padded[..2])
                            + if |amount.fraction| > 2 && DigitValue(amount.fraction[2]) >= 5 then 1 else 0);
      if !Money.IsSafeInteger(result) then Err(Money.UnsafeRange) else Ok(result)
  }

  function LineTotal(unitPrice: string, unitTax: string, quantity: int): Result<string, Money.MoneyError> {
    if !Money.IsSafeInteger(quantity) then Err(Money.QuantityNotSafe)
    else TotalOf(Cents(unitPrice), Cents(unitTax), quantity)
  }

  function TotalOf(price: Result<int, Money.MoneyError>, tax: Result<int, Money.MoneyError>, quantity: int)
    : Result<string, Money.MoneyError>
  {
    match (price, tax)
    case (Err(e), _) => Err(e)
    case (_, Err(e)) => Err(e)
    case (Ok(p), Ok(t)) =>
      var total := (p + t) * quantity;
      if !Money.IsSafeInteger(total) then Err(Money.UnsafeRange) else Ok(Money.FormatCents(total))
  }

  lemma CopiesAgree(value: string)
    ensures Cents(value) == Money.ToCents(value)
  {
  }

  lemma Distribute(p: int, t: int, quantity: int)
    ensures (p + t) * quantity == p * quantity + t * quantity
  {
  }

  lemma TotalOfCents(price: int, tax: int, quantity: int, total: int)
    requires total == price * quantity + tax * quantity
    ensures TotalOf(Ok(price), Ok(tax), quantity) ==
            if Money.IsSafeInteger(total) then Ok(Money.FormatCents(total)) else Err(Money.UnsafeRange)
  {
    Distribute(price, tax, quantity);
  }

  /** The back office's line total is what the till charges for the price and the tax of the line together. */
  lemma LineTotalIsTheTillsLine(unitPrice: string, unitTax: string, quantity: int)
    requires Money.LineCents(unitPrice, quantity).Ok? && Money.LineCents(unitTax, quantity).Ok?
    ensures var total := Money.LineCents(unitPrice, quantity).value + Money.LineCents(unitTax, quantity).value;
            LineTotal(unitPrice, unitTax, quantity) ==
            if Money.IsSafeInteger(total) then Ok(Money.FormatCents(total)) else Err(Money.UnsafeRange)
  {
    CopiesAgree(unitPrice);
    CopiesAgree(unitTax);
    TotalOfCents(Cents(unitPrice).value, Cents(unitTax).value, quantity,
                 Money.LineCents(unitPrice, quantity).value + Money.LineCents(unitTax, quantity).value);
  }
}
