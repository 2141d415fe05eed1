/**
 * Business dates and half-open report ranges (backend/src/common/business-time.ts). Instants are
 * milliseconds since the epoch. The time zone database is a parameter: `offset` is the zone's offset at an
 * instant and `parse` is what Date makes of a text, None for an invalid date.
 */
module BusinessTime {
  import opened Decimals
  import opened Outcome

  datatype Date = Date(year: int, month: int, day: int)

  datatype Range = Range(gte: int, lt: int)

  datatype RangeError = StartNotBeforeEnd | InvalidDateRange

  const MS_PER_DAY := 86400000

  predicate IsLeap(year: int) {
    year % 4 == 0 && (year % 100 != 0 || year % 400 == 0)
  }

  function DaysIn(year: int, month: int): int
    requires 1 <= month <= 12
  {
    if month == 2 then if IsLeap(year) then 29 else 28
    else if month in {4, 6, 9, 11} then 30 else 31
  }

  /** A date of the calendar, from the year 100 on: Date.UTC moves earlier years to the 1900s. */
  predicate IsDate(d: Date) {
    d.year >= 100 && 1 <= d.month <= 12 && 1 <= d.day <= DaysIn(d.year, d.month)
  }

  function DaysBeforeYear(year: int): int {
    365 * year + (year - 1) / 4 - (year - 1) / 100 + (year - 1) / 400
  }

  function DaysBeforeMonth(year: int, month: int): int
    requires 1 <= month <= 12
    decreases month
  {
    if month == 1 then 0 else DaysBeforeMonth(year, month - 1) + DaysIn(year, month - 1)
  }

  function DayNumber(d: Date): int
    requires IsDate(d)
  {
    DaysBeforeYear(d.year) + DaysBeforeMonth(d.year, d.month) + d.day - DaysBeforeYear(1970) - 1
  }

  /** Date.UTC(year, month - 1, day). */
  function Utc(d: Date): int
    requires IsDate(d)
  {
    DayNumber(d) * MS_PER_DAY
  }

  /** The date setUTCDate(getUTCDate() + 1) leads to. */
  function NextDay(d: Date): (n: Date)
    requires IsDate(d)
    ensures IsDate(n)
  {
    if d.day < DaysIn(d.year, d.month) then d.(day := d.day + 1)
    else if d.month < 12 then Date(d.year, d.month + 1, 1)
    else Date(d.year + 1, 1, 1)
  }

  lemma FourthYears(year: int)
    ensures year / 4 - (year - 1) / 4 == if year % 4 == 0 then 1 else 0
  {
  }

  lemma Centuries(year: int)
    ensures year / 100 - (year - 1) / 100 == if year % 100 == 0 then 1 else 0
  {
  }

  lemma FourthCenturies(year: int)
    ensures year / 400 - (year - 1) / 400 == if year % 400 == 0 then 1 else 0
  {
  }

  lemma MultiplesNest(year: int)
    ensures year % 400 == 0 ==> year % 100 == 0
    ensures year % 100 == 0 ==> year % 4 == 0
  {
  }

  lemma YearLength(year: int)
    ensures DaysBeforeYear(year + 1) - DaysBeforeYear(year) == if IsLeap(year) then 366 else 365
  {
    FourthYears(year);
    Centuries(year);
    FourthCenturies(year);
    MultiplesNest(year);
  }

  lemma MonthsOfYear(year: int)
    ensures DaysBeforeMonth(year, 12) + 31 == if IsLeap(year) then 366 else 365
  {
    assert DaysBeforeMonth(year, 3) == 31 + DaysIn(year, 2);
    assert DaysBeforeMonth(year, 5) == DaysBeforeMonth(year, 3) + 61;
    assert DaysBeforeMonth(year, 7) == DaysBeforeMonth(year, 5) + 61;
    assert DaysBeforeMonth(year, 9) == DaysBeforeMonth(year, 7) + 62;
    assert DaysBeforeMonth(year, 11) == DaysBeforeMonth(year, 9) + 61;
  }

  /** The calendar's next day is the next UTC day, over month ends, leap days and year ends. */
  lemma NextDayIsNextUtcDay(d: Date)
    requires IsDate(d)
    ensures Utc(NextDay(d)) == Utc(d) + MS_PER_DAY
  {
    if d.day == DaysIn(d.year, d.month) && d.month == 12 {
      YearLength(d.year);
      MonthsOfYear(d.year);
    }
  }

  /** ^(\d{4})-(\d{2})-(\d{2})$ naming a day of the calendar. */
  function ParseDateOnly(value: string): (d: Option<Date>)
    ensures d.Some? ==> IsDate(d.value)
  {
    if |value| == 10 && value[4] == '-' && value[7] == '-'
       && AllDigits(value[..4]) && AllDigits(value[5..7]) && AllDigits(value[8..])
    then
      var date := Date(Value(value[..4]), Value(value[5..7]), Value(value[8..]));
      if IsDate(date) then Some(date) else None
    else None
  }

  /** The first guess uses the offset at local midnight read as UTC, the second the offset at the guess. */
  function LocalMidnightUtc(d: Date, offset: int -> int): int
    requires IsDate(d)
  {
    var localAsUtc := Utc(d);
    var guess := localAsUtc - offset(localAsUtc);
    localAsUtc - offset(guess)
  }

  function BusinessDateRange(from: string, to: string, parse: string -> Option<int>, offset: int -> int): Result<Range, RangeError> {
    match (ParseDateOnly(from), ParseDateOnly(to))
    case (Some(first), Some(last)) =>
      var gte, lt := LocalMidnightUtc(first, offset), LocalMidnightUtc(NextDay(last), offset);
      if gte >= lt then Err(StartNotBeforeEnd) else Ok(Range(gte, lt))
    case _ =>
      match (parse(from), parse(to))
      case (Some(gte), Some(end)) =>
        if gte >= end + 1 then Err(StartNotBeforeEnd) else Ok(Range(gte, end + 1))
      case _ => Err(InvalidDateRange)
  }

  predicate Within(range: Range, instant: int) {
    range.gte <= instant < range.lt
  }

  /** `next` is the day after `day`. */
  predicate Follows(day: string, next: string) {
    && ParseDateOnly(day).Some? && ParseDateOnly(next).Some?
    && ParseDateOnly(next).value == NextDay(ParseDateOnly(day).value)
  }

  /**
   * The ranges [a, b] and [b + 1, c] tile [a, c] without gap or overlap, whatever the zone does at the
   * seam; if the two parts are accepted so is the whole.
   */
  lemma RangesTile(a: string, b: string, next: string, c: string, parse: string -> Option<int>, offset: int -> int,
                   instant: int)
    requires Follows(b, next) && ParseDateOnly(a).Some? && ParseDateOnly(c).Some?
    requires BusinessDateRange(a, b, parse, offset).Ok? && BusinessDateRange(next, c, parse, offset).Ok?
    ensures BusinessDateRange(a, c, parse, offset).Ok?
    ensures var left, right := BusinessDateRange(a, b, parse, offset).value, BusinessDateRange(next, c, parse, offset).value;
            && left.lt == right.gte
            && (Within(BusinessDateRange(a, c, parse, offset).value, instant) <==> Within(left, instant) || Within(right, instant))
            && !(Within(left, instant) && Within(right, instant))
  {
  }

  // ---- Local midnight ------------------------------------------------------------------------------

  /** Within a day of that midnight the zone changes its offset at most once, at `change`. */
  ghost predicate ChangesOnce(d: Date, offset: int -> int, change: int, before: int, after: int)
    requires IsDate(d)
  {
    && -MS_PER_DAY < before < MS_PER_DAY && -MS_PER_DAY < after < MS_PER_DAY
    && forall t | Utc(d) - MS_PER_DAY <= t <= Utc(d) + MS_PER_DAY :: offset(t) == if t < change then before else after
  }

  /** An instant near the date that the zone's clocks show as its midnight, or as a later time. */
  predicate ShowsAtLeast(d: Date, offset: int -> int, t: int)
    requires IsDate(d)
  {
    t + offset(t) >= Utc(d)
  }

  /** Where the local day begins: the first instant whose clocks have reached its midnight. */
  ghost predicate IsFirstInstant(d: Date, offset: int -> int, t: int)
    requires IsDate(d)
  {
    ShowsAtLeast(d, offset, t) && forall u | Utc(d) - MS_PER_DAY <= u < t :: !ShowsAtLeast(d, offset, u)
  }

  /** Midnight is shown before and again after the change: clocks went back over it. */
  predicate ShownTwice(midnight: int, change: int, before: int, after: int) {
    change + after <= midnight < change + before
  }

  /** Midnight is never shown: clocks went forward over it. */
  predicate Skipped(midnight: int, change: int, before: int, after: int) {
    change + before <= midnight < change + after
  }

  /** Around one clock change two guesses suffice: whenever some instant shows local midnight, the one found does. */
  lemma TwoGuessesFindMidnight(d: Date, offset: int -> int, change: int, before: int, after: int, witness': int)
    requires IsDate(d) && ChangesOnce(d, offset, change, before, after)
    requires -MS_PER_DAY <= witness' - Utc(d) <= MS_PER_DAY && witness' + offset(witness') == Utc(d)
    ensures LocalMidnightUtc(d, offset) + offset(LocalMidnightUtc(d, offset)) == Utc(d)
  {
    var l := Utc(d);
    var guess := l - offset(l);
    assert offset(guess) == if guess < change then before else after;
    assert offset(witness') == if witness' < change then before else after;
  }

  /** What the two guesses come to, by the four positions of the change. */
  lemma GuessByCase(d: Date, offset: int -> int, change: int, before: int, after: int)
    requires IsDate(d) && ChangesOnce(d, offset, change, before, after)
    ensures var l, found := Utc(d), LocalMidnightUtc(d, offset);
            && (ShownTwice(l, change, before, after) ==> found == l - if l < change then before else after)
            && (Skipped(l, change, before, after) ==> found == l - if l < change then after else before)
            && (l < change + before && l < change + after ==> found == l - before)
            && (l >= change + before && l >= change + after ==> found == l - after)
  {
    var l := Utc(d);
    assert offset(l) == if l < change then before else after;
    var guess := l - offset(l);
    assert offset(guess) == if guess < change then before else after;
  }

  /** The first instant of the local day, by the same cases. */
  lemma FirstInstantByCase(d: Date, offset: int -> int, change: int, before: int, after: int, t: int)
    requires IsDate(d) && ChangesOnce(d, offset, change, before, after)
    requires -MS_PER_DAY <= t - Utc(d) <= MS_PER_DAY
    ensures IsFirstInstant(d, offset, t) <==>
            t == if Utc(d) < change + before then Utc(d) - before
                 else if Utc(d) < change + after then change
                 else Utc(d) - after
  {
    var l := Utc(d);
    var first := if l < change + before then l - before else if l < change + after then change else l - after;
    forall u | l - MS_PER_DAY <= u <= l + MS_PER_DAY ensures ShowsAtLeast(d, offset, u) ==> u >= first {
      assert offset(u) == if u < change then before else after;
    }
    assert ShowsAtLeast(d, offset, first) by {
      assert offset(first) == if first < change then before else after;
    }
  }

  /**
   * Exactly when a report's day begins where the local day does: if midnight is shown twice, the change must come
   * after the instant whose UTC clock shows midnight; if it is skipped, clocks must skip from midnight on, and that
   * instant must not come before the change; otherwise always.
   */
  lemma DayBeginsRight(d: Date, offset: int -> int, change: int, before: int, after: int)
    requires IsDate(d) && ChangesOnce(d, offset, change, before, after)
    ensures IsFirstInstant(d, offset, LocalMidnightUtc(d, offset)) <==>
            if ShownTwice(Utc(d), change, before, after) then Utc(d) < change
            else if Skipped(Utc(d), change, before, after) then Utc(d) == change + before && Utc(d) >= change
            else true
  {
    GuessByCase(d, offset, change, before, after);
    FirstInstantByCase(d, offset, change, before, after, LocalMidnightUtc(d, offset));
  }

  /** East of Greenwich, where clocks that go forward over midnight do so at midnight: unless it is shown twice. */
  lemma DayBeginsRightInTheEast(d: Date, offset: int -> int, change: int, before: nat, after: nat)
    requires IsDate(d) && ChangesOnce(d, offset, change, before, after)
    requires Skipped(Utc(d), change, before, after) ==> Utc(d) == change + before
    ensures IsFirstInstant(d, offset, LocalMidnightUtc(d, offset)) <==> !ShownTwice(Utc(d), change, before, after)
  {
    DayBeginsRight(d, offset, change, before, after);
  }

  /** West of Greenwich, a day whose clocks go forward at midnight begins early, by as much as they go forward. */
  lemma DayBeginsEarlyInTheWest(d: Date, offset: int -> int, change: int, before: int, after: int)
    requires IsDate(d) && ChangesOnce(d, offset, change, before, after)
    requires before < after && before < 0 && Utc(d) == change + before
    ensures IsFirstInstant(d, offset, change)
    ensures LocalMidnightUtc(d, offset) == change - (after - before)
  {
    GuessByCase(d, offset, change, before, after);
    FirstInstantByCase(d, offset, change, before, after, change);
  }
}
