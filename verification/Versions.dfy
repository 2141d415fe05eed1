/**
 * Update versions (pos-electron/electron/update-policy.ts): compareVersions against precedence in section 11
 * of Semantic Versioning 2.0.0, and the chain of updates selectUpdate accepts. localeCompare is a parameter,
 * any consistent comparator. Version numbers are exact, as they are below 2^53 in JavaScript.
 */
module Versions {
  import opened Decimals
  import opened Outcome
  import Sequences
  import opened Text

  type Collation = (string, string) -> int

  /** localeCompare: negative, zero or positive, consistently. Different texts may compare as equal. */
  ghost predicate IsCollation(collate: Collation) {
    && (forall a, b :: collate(a, b) < 0 <==> collate(b, a) > 0)
    && (forall a, b, c :: collate(a, b) <= 0 && collate(b, c) <= 0 ==> collate(a, c) <= 0)
  }

  datatype Version = Version(major: nat, minor: nat, patch: nat, prerelease: seq<string>)

  predicate IsIdentifierChar(c: char) {
    IsDigit(c) || 'A' <= c <= 'Z' || 'a' <= c <= 'z' || c == '.' || c == '-'
  }

  function Split(s: string, c: char): (parts: seq<string>)
    ensures parts != []
    decreases |s|
  {
    var i := IndexOf(s, c);
    if i == |s| then [s] else [s[..i]] + Split(s[i + 1..], c)
  }

  predicate IsNumber(s: string) {
    s != "" && AllDigits(s)
  }

  /** The pattern ^(\d+)\.(\d+)\.(\d+)(?:-([0-9A-Za-z.-]+))?$. */
  function MatchVersion(text: string): Option<Version> {
    var dash := IndexOf(text, '-');
    var core := Split(text[..dash], '.');
    var suffix := text[dash..];
    if |core| == 3 && IsNumber(core[0]) && IsNumber(core[1]) && IsNumber(core[2])
       && |suffix| != 1 && forall c <- suffix :: IsIdentifierChar(c)
    then Some(Version(Value(core[0]), Value(core[1]), Value(core[2]),
                      if suffix == "" then [] else Split(suffix[1..], '.')))
    else None
  }

  /** Trimmed, and without one leading v. */
  function ParseVersion(value: string): Option<Version> {
    var trimmed := Trim(value);
    MatchVersion(if trimmed != "" && trimmed[0] in "vV" then trimmed[1..] else trimmed)
  }

  function Core(v: Version): seq<int> {
    [v.major, v.minor, v.patch]
  }

  function CompareIdentifier(collate: Collation, left: string, right: string): int {
    if IsNumber(left) && IsNumber(right) then Value(left) - Value(right)
    else if IsNumber(left) != IsNumber(right) then if IsNumber(left) then -1 else 1
    else collate(left, right)
  }

  /** The first loop of the source from `i` on, then the pre-release rules. */
  function CompareFrom(collate: Collation, left: Version, right: Version, i: nat): int
    requires i <= 3
    decreases 3 - i
  {
    if i == 3 then ComparePrerelease(collate, left.prerelease, right.prerelease)
    else if Core(left)[i] != Core(right)[i] then Core(left)[i] - Core(right)[i]
    else CompareFrom(collate, left, right, i + 1)
  }

  function ComparePrerelease(collate: Collation, left: seq<string>, right: seq<string>): int {
    if left == [] && right != [] then 1
    else if right == [] && left != [] then -1
    else CompareParts(collate, left, right)
  }

  function CompareParts(collate: Collation, left: seq<string>, right: seq<string>): int
    decreases |left|
  {
    if left == [] then if right == [] then 0 else -1
    else if right == [] then 1
    else
      var difference := CompareIdentifier(collate, left[0], right[0]);
      if difference != 0 then difference else CompareParts(collate, left[1..], right[1..])
  }

  function Compare(collate: Collation, left: Version, right: Version): int {
    CompareFrom(collate, left, right, 0)
  }

  /** compareVersions on parsed versions, with the source's two index loops, the second in CompareLists. */
  method CompareVersions(collate: Collation, leftValue: string, rightValue: string) returns (r: Result<int, ()>)
    ensures r.Ok? <==> ParseVersion(leftValue).Some? && ParseVersion(rightValue).Some?
    ensures r.Ok? ==> r.value == Compare(collate, ParseVersion(leftValue).value, ParseVersion(rightValue).value)
  {
    var parsedLeft, parsedRight := ParseVersion(leftValue), ParseVersion(rightValue);
    if parsedLeft.None? || parsedRight.None? {
      return Err(());
    }
    var left, right := parsedLeft.value, parsedRight.value;
    for index := 0 to 3
      invariant Compare(collate, left, right) == CompareFrom(collate, left, right, index)
    {
      var difference := Core(left)[index] - Core(right)[index];
      if difference != 0 {
        return Ok(difference);
      }
    }
    if left.prerelease == [] && right.prerelease != [] {
      return Ok(1);
    }
    if right.prerelease == [] && left.prerelease != [] {
      return Ok(-1);
    }
    var difference := CompareLists(collate, left.prerelease, right.prerelease);
    return Ok(difference);
  }

  method CompareLists(collate: Collation, left: seq<string>, right: seq<string>) returns (r: int)
    ensures r == CompareParts(collate, left, right)
  {
    var length := if |left| >= |right| then |left| else |right|;
    for index := 0 to length
      invariant index <= |left| && index <= |right|
      invariant CompareParts(collate, left, right) == CompareParts(collate, left[index..], right[index..])
    {
      if index == |left| {
        return -1;
      }
      if index == |right| {
        return 1;
      }
      var difference := CompareIdentifier(collate, left[index], right[index]);
      if difference != 0 {
        return difference;
      }
    }
    return 0;
  }

  // ---- Section 11 of Semantic Versioning 2.0.0 -----------------------------------------------------

  /** 11.4.1 to 11.4.3: numeric identifiers numerically, below all others; others in the text order of `collate`. */
  predicate IdentifierLess(collate: Collation, a: string, b: string) {
    if IsNumber(a) then !IsNumber(b) || Value(a) < Value(b)
    else !IsNumber(b) && collate(a, b) < 0
  }

  predicate IdentifierSame(collate: Collation, a: string, b: string) {
    if IsNumber(a) && IsNumber(b) then Value(a) == Value(b) else !IsNumber(a) && !IsNumber(b) && collate(a, b) == 0
  }

  /** 11.4 and 11.4.4: the first difference decides, and a longer list of otherwise equal fields is higher. */
  ghost predicate DiffersAt(collate: Collation, a: seq<string>, b: seq<string>, i: int) {
    && 0 <= i <= |a| && i < |b|
    && (forall j | 0 <= j < i :: IdentifierSame(collate, a[j], b[j]))
    && (i < |a| ==> IdentifierLess(collate, a[i], b[i]))
  }

  ghost predicate FieldsLess(collate: Collation, a: seq<string>, b: seq<string>) {
    exists i :: DiffersAt(collate, a, b, i)
  }

  predicate FieldsSame(collate: Collation, a: seq<string>, b: seq<string>) {
    |a| == |b| && forall j | 0 <= j < |a| :: IdentifierSame(collate, a[j], b[j])
  }

  /** 11.2: major, minor and patch, compared numerically from left to right. */
  predicate CoreLess(a: Version, b: Version) {
    a.major < b.major
    || (a.major == b.major && (a.minor < b.minor || (a.minor == b.minor && a.patch < b.patch)))
  }

  predicate CoreSame(a: Version, b: Version) {
    a.major == b.major && a.minor == b.minor && a.patch == b.patch
  }

  /** 11.3: a pre-release version is lower than its normal version. */
  ghost predicate Precedes(collate: Collation, a: Version, b: Version) {
    CoreLess(a, b)
    || (CoreSame(a, b) && a.prerelease != [] && (b.prerelease == [] || FieldsLess(collate, a.prerelease, b.prerelease)))
  }

  predicate Same(collate: Collation, a: Version, b: Version) {
    CoreSame(a, b) && FieldsSame(collate, a.prerelease, b.prerelease)
  }

  lemma CompareIdentifierMeaning(collate: Collation, a: string, b: string)
    requires IsCollation(collate)
    ensures CompareIdentifier(collate, a, b) < 0 <==> IdentifierLess(collate, a, b)
    ensures CompareIdentifier(collate, a, b) > 0 <==> IdentifierLess(collate, b, a)
    ensures CompareIdentifier(collate, a, b) == 0 <==> IdentifierSame(collate, a, b)
  {
  }

  lemma DiffersFurther(collate: Collation, a: seq<string>, b: seq<string>)
    requires a != [] && b != [] && IdentifierSame(collate, a[0], b[0]) && IsCollation(collate)
    ensures FieldsLess(collate, a, b) <==> FieldsLess(collate, a[1..], b[1..])
  {
    if FieldsLess(collate, a, b) {
      var i :| DiffersAt(collate, a, b, i);
      if i == 0 {
        CompareIdentifierMeaning(collate, a[0], b[0]);
      } else {
        assert forall j | 0 <= j < i - 1 :: a[1..][j] == a[j + 1] && b[1..][j] == b[j + 1];
        assert DiffersAt(collate, a[1..], b[1..], i - 1);
      }
    }
    if FieldsLess(collate, a[1..], b[1..]) {
      var i :| DiffersAt(collate, a[1..], b[1..], i);
      forall j | 0 <= j < i + 1 ensures IdentifierSame(collate, a[j], b[j]) {
        if j > 0 {
          assert IdentifierSame(collate, a[1..][j - 1], b[1..][j - 1]);
        }
      }
      assert DiffersAt(collate, a, b, i + 1);
    }
  }

  lemma {:induction false} ComparePartsMeaning(collate: Collation, a: seq<string>, b: seq<string>)
    requires IsCollation(collate)
    ensures CompareParts(collate, a, b) < 0 <==> FieldsLess(collate, a, b)
    ensures CompareParts(collate, a, b) > 0 <==> FieldsLess(collate, b, a)
    ensures CompareParts(collate, a, b) == 0 <==> FieldsSame(collate, a, b)
    decreases |a|
  {
    if a == [] && b != [] {
      assert DiffersAt(collate, a, b, 0);
    } else if a != [] && b == [] {
      assert DiffersAt(collate, b, a, 0);
    } else if a != [] {
      CompareIdentifierMeaning(collate, a[0], b[0]);
      FirstIdentifierDecides(collate, a, b);
      FirstIdentifierDecides(collate, b, a);
      if IdentifierSame(collate, a[0], b[0]) {
        ComparePartsMeaning(collate, a[1..], b[1..]);
        DiffersFurther(collate, a, b);
        DiffersFurther(collate, b, a);
        assert a == [a[0]] + a[1..] && b == [b[0]] + b[1..];
      }
    }
  }

  lemma FirstIdentifierDecides(collate: Collation, a: seq<string>, b: seq<string>)
    requires IsCollation(collate) && a != [] && b != []
    ensures IdentifierLess(collate, a[0], b[0]) ==> FieldsLess(collate, a, b) && !FieldsLess(collate, b, a)
  {
    if IdentifierLess(collate, a[0], b[0]) {
      assert DiffersAt(collate, a, b, 0);
      CompareIdentifierMeaning(collate, a[0], b[0]);
      CompareIdentifierMeaning(collate, b[0], a[0]);
    }
  }

  /** compareVersions is the precedence of section 11 with `collate` for its text order, sign by sign. */
  lemma CompareIsPrecedence(collate: Collation, a: Version, b: Version)
    requires IsCollation(collate)
    ensures Compare(collate, a, b) < 0 <==> Precedes(collate, a, b)
    ensures Compare(collate, a, b) > 0 <==> Precedes(collate, b, a)
    ensures Compare(collate, a, b) == 0 <==> Same(collate, a, b)
  {
    ComparePartsMeaning(collate, a.prerelease, b.prerelease);
    CompareFromUnrolled(collate, a, b);
    if a.prerelease == [] && b.prerelease == [] {
      assert !FieldsLess(collate, a.prerelease, b.prerelease);
    }
  }

  lemma CompareFromUnrolled(collate: Collation, a: Version, b: Version)
    ensures Compare(collate, a, b) ==
            if a.major != b.major then a.major - b.major
            else if a.minor != b.minor then a.minor - b.minor
            else if a.patch != b.patch then a.patch - b.patch
            else ComparePrerelease(collate, a.prerelease, b.prerelease)
  {
    assert CompareFrom(collate, a, b, 2) ==
           if a.patch != b.patch then a.patch - b.patch else CompareFrom(collate, a, b, 3);
    assert CompareFrom(collate, a, b, 1) ==
           if a.minor != b.minor then a.minor - b.minor else CompareFrom(collate, a, b, 2);
  }

  lemma IdentifierLessTransitive(collate: Collation, a: string, b: string, c: string)
    requires IsCollation(collate)
    ensures IdentifierLess(collate, a, b) && IdentifierLess(collate, b, c) ==> IdentifierLess(collate, a, c)
    ensures IdentifierSame(collate, a, b) && IdentifierLess(collate, b, c) ==> IdentifierLess(collate, a, c)
    ensures IdentifierLess(collate, a, b) && IdentifierSame(collate, b, c) ==> IdentifierLess(collate, a, c)
    ensures IdentifierSame(collate, a, b) && IdentifierSame(collate, b, c) ==> IdentifierSame(collate, a, c)
  {
  }

  lemma FieldsLessTransitive(collate: Collation, a: seq<string>, b: seq<string>, c: seq<string>)
    requires IsCollation(collate) && FieldsLess(collate, a, b) && FieldsLess(collate, b, c)
    ensures FieldsLess(collate, a, c)
  {
    var i :| DiffersAt(collate, a, b, i);
    var j :| DiffersAt(collate, b, c, j);
    var k := if i <= j then i else j;
    forall m | 0 <= m < k ensures IdentifierSame(collate, a[m], c[m]) {
      IdentifierLessTransitive(collate, a[m], b[m], c[m]);
    }
    if k < |a| && k < |b| && k < |c| {
      IdentifierLessTransitive(collate, a[k], b[k], c[k]);
    }
    assert DiffersAt(collate, a, c, k);
  }

  /** Precedence is a strict order, total up to sameness. */
  lemma PrecedenceIsTotalOrder(collate: Collation, a: Version, b: Version, c: Version)
    requires IsCollation(collate)
    ensures Compare(collate, a, b) < 0 <==> Compare(collate, b, a) > 0
    ensures Compare(collate, a, a) == 0
    ensures Compare(collate, a, b) < 0 && Compare(collate, b, c) < 0 ==> Compare(collate, a, c) < 0
  {
    CompareIsPrecedence(collate, a, b);
    CompareIsPrecedence(collate, b, a);
    CompareIsPrecedence(collate, b, c);
    CompareIsPrecedence(collate, a, c);
    CompareIsPrecedence(collate, a, a);
    if Compare(collate, a, b) < 0 && Compare(collate, b, c) < 0 && CoreSame(a, b) && CoreSame(b, c) && c.prerelease != [] {
      FieldsLessTransitive(collate, a.prerelease, b.prerelease, c.prerelease);
    }
  }

  // ---- Text order of the standard ------------------------------------------------------------------

  /** 11.4.2: identifiers with letters or hyphens compare in ASCII order. */
  function AsciiCompare(a: string, b: string): int {
    if a == b then 0 else if TextLess(a, b) then -1 else 1
  }

  lemma {:induction false} TextLessIsTotal(a: string, b: string)
    ensures !TextLess(a, a)
    ensures a != b ==> (TextLess(a, b) <==> !TextLess(b, a))
    decreases |a|
  {
    if a != "" && b != "" {
      TextLessIsTotal(a[1..], b[1..]);
      assert a == [a[0]] + a[1..] && b == [b[0]] + b[1..];
    } else if a != "" {
      TextLessIsTotal(a[1..], "");
    }
  }

  lemma {:induction false} TextLessTransitive(a: string, b: string, c: string)
    requires TextLess(a, b) && TextLess(b, c)
    ensures TextLess(a, c)
    decreases |a|
  {
    if a != "" && a[0] == b[0] == c[0] {
      TextLessTransitive(a[1..], b[1..], c[1..]);
    }
  }

  lemma AsciiIsCollation()
    ensures IsCollation(AsciiCompare)
  {
    forall a, b ensures a != b ==> (TextLess(a, b) <==> !TextLess(b, a)) {
      TextLessIsTotal(a, b);
    }
    forall a, b, c | AsciiCompare(a, b) < 0 && AsciiCompare(b, c) < 0 ensures AsciiCompare(a, c) < 0 {
      TextLessTransitive(a, b, c);
      TextLessIsTotal(a, a);
    }
  }

  /** Precedence in section 11. */
  ghost predicate StandardPrecedes(a: Version, b: Version) {
    Precedes(AsciiCompare, a, b)
  }

  /** Section 9: non-empty identifiers of ASCII letters, digits and hyphens. */
  predicate ValidIdentifier(s: string) {
    s != "" && forall c <- s :: IsIdentifierChar(c) && c != '.'
  }

  /** A version text the till accepts and whose identifiers the standard allows. */
  predicate ValidText(text: string) {
    ParseVersion(text).Some? && forall s <- ParseVersion(text).value.prerelease :: ValidIdentifier(s)
  }

  ghost predicate AgreesWithAscii(collate: Collation) {
    forall x, y | ValidIdentifier(x) && ValidIdentifier(y) && !IsNumber(x) && !IsNumber(y) ::
      collate(x, y) < 0 <==> TextLess(x, y)
  }

  ghost predicate RanksAsStandard(collate: Collation, left: string, right: string)
    requires ValidText(left) && ValidText(right)
  {
    var a, b := ParseVersion(left).value, ParseVersion(right).value;
    Compare(collate, a, b) < 0 <==> StandardPrecedes(a, b)
  }

  ghost predicate OrdersAsStandard(collate: Collation) {
    forall left, right | ValidText(left) && ValidText(right) :: RanksAsStandard(collate, left, right)
  }

  lemma SameIdentifierOrder(collate: Collation, x: string, y: string)
    requires IsCollation(collate) && AgreesWithAscii(collate) && ValidIdentifier(x) && ValidIdentifier(y)
    ensures IdentifierLess(collate, x, y) <==> IdentifierLess(AsciiCompare, x, y)
    ensures IdentifierSame(collate, x, y) <==> IdentifierSame(AsciiCompare, x, y)
  {
    TextLessIsTotal(x, y);
  }

  lemma SameFieldOrder(collate: Collation, a: seq<string>, b: seq<string>)
    requires IsCollation(collate) && AgreesWithAscii(collate)
    requires (forall s <- a :: ValidIdentifier(s)) && (forall s <- b :: ValidIdentifier(s))
    ensures FieldsLess(collate, a, b) <==> FieldsLess(AsciiCompare, a, b)
  {
    forall i | 0 <= i < |a| && i < |b|
      ensures IdentifierLess(collate, a[i], b[i]) <==> IdentifierLess(AsciiCompare, a[i], b[i])
      ensures IdentifierSame(collate, a[i], b[i]) <==> IdentifierSame(AsciiCompare, a[i], b[i])
    {
      SameIdentifierOrder(collate, a[i], b[i]);
    }
    forall i ensures DiffersAt(collate, a, b, i) <==> DiffersAt(AsciiCompare, a, b, i) {
    }
  }

  function Prerelease(identifier: string): Version {
    Version(1, 0, 0, [identifier])
  }

  function PrereleaseText(identifier: string): string {
    "1.0.0" + ['-'] + identifier
  }

  lemma SplitAlone(s: string, c: char)
    requires c !in s
    ensures Split(s, c) == [s]
  {
    var i := IndexOf(s, c);
    assert i == |s|;
  }

  lemma SplitSeam(left: string, c: char, right: string)
    requires c !in left
    ensures Split(left + [c] + right, c) == [left] + Split(right, c)
  {
    IndexOfSeam(left, c, right);
    var text := left + [c] + right;
    assert text[..|left|] == left && text[|left| + 1..] == right;
  }

  lemma SplitCore()
    ensures Split("1.0.0", '.') == ["1", "0", "0"]
  {
    calc {
      Split("1.0.0", '.');
      { assert "1.0.0" == "1" + ['.'] + "0.0"; SplitSeam("1", '.', "0.0"); }
      ["1"] + Split("0.0", '.');
      { assert "0.0" == "0" + ['.'] + "0"; SplitSeam("0", '.', "0"); }
      ["1"] + (["0"] + Split("0", '.'));
      { SplitAlone("0", '.'); }
      ["1", "0", "0"];
    }
  }

  lemma CoreIsRead()
    ensures IsNumber("1") && Value("1") == 1 && IsNumber("0") && Value("0") == 0
  {
  }

  lemma IdentifiersHaveNoSpace(core: string, x: string)
    requires core != "" && IsDigit(core[0]) && ValidIdentifier(x)
    ensures Trim(core + ['-'] + x) == core + ['-'] + x
  {
    var text := core + ['-'] + x;
    assert text[0] == core[0] && text[|text| - 1] == x[|x| - 1];
    assert IsIdentifierChar(x[|x| - 1]);
    TrimKeeps(text);
  }

  /** The pattern reads core and identifier back. */
  lemma CoreAndIdentifierAreRead(core: string, parts: seq<string>, x: string)
    requires '-' !in core && ValidIdentifier(x)
    requires Split(core, '.') == parts && |parts| == 3 && IsNumber(parts[0]) && IsNumber(parts[1]) && IsNumber(parts[2])
    ensures MatchVersion(core + ['-'] + x) == Some(Version(Value(parts[0]), Value(parts[1]), Value(parts[2]), [x]))
  {
    var text := core + ['-'] + x;
    IndexOfSeam(core, '-', x);
    assert text[..|core|] == core && text[|core|..] == ['-'] + x && text[|core|..][1..] == x;
    SplitAlone(x, '.');
  }

  /** Every identifier the standard allows reaches the comparison. */
  lemma PrereleaseIsParsed(x: string)
    requires ValidIdentifier(x)
    ensures ParseVersion(PrereleaseText(x)) == Some(Prerelease(x)) && ValidText(PrereleaseText(x))
  {
    SplitCore();
    CoreIsRead();
    IdentifiersHaveNoSpace("1.0.0", x);
    CoreAndIdentifierAreRead("1.0.0", ["1", "0", "0"], x);
  }

  lemma OneIdentifierDecides(collate: Collation, x: string, y: string)
    requires !IsNumber(x) && !IsNumber(y)
    ensures Compare(collate, Prerelease(x), Prerelease(y)) == collate(x, y)
  {
    CompareFromUnrolled(collate, Prerelease(x), Prerelease(y));
    assert Prerelease(x).prerelease == [x] && Prerelease(y).prerelease == [y];
    assert CompareIdentifier(collate, [x][0], [y][0]) == collate(x, y);
    assert [x][1..] == [] && [y][1..] == [];
    assert CompareParts(collate, [], []) == 0;
    assert CompareParts(collate, [x], [y]) == collate(x, y);
  }

  /** The texts 1.0.0-x and 1.0.0-y are ranked as the standard ranks them exactly when x and y are collated so. */
  lemma TwoTextsRankAsCollated(collate: Collation, x: string, y: string)
    requires IsCollation(collate) && ValidIdentifier(x) && ValidIdentifier(y) && !IsNumber(x) && !IsNumber(y)
    ensures ParseVersion(PrereleaseText(x)) == Some(Prerelease(x)) && ValidText(PrereleaseText(x))
    ensures ParseVersion(PrereleaseText(y)) == Some(Prerelease(y)) && ValidText(PrereleaseText(y))
    ensures Compare(collate, Prerelease(x), Prerelease(y)) == collate(x, y)
    ensures StandardPrecedes(Prerelease(x), Prerelease(y)) <==> TextLess(x, y)
    ensures RanksAsStandard(collate, PrereleaseText(x), PrereleaseText(y)) <==> (collate(x, y) < 0 <==> TextLess(x, y))
  {
    PrereleaseIsParsed(x);
    PrereleaseIsParsed(y);
    AsciiIsCollation();
    OneIdentifierDecides(collate, x, y);
    OneIdentifierDecides(AsciiCompare, x, y);
    CompareIsPrecedence(AsciiCompare, Prerelease(x), Prerelease(y));
    TextLessIsTotal(x, y);
  }

  /**
   * Exactly when compareVersions is the precedence of the standard on all texts of versions it allows: when
   * localeCompare puts identifiers with letters or hyphens in ASCII order.
   */
  lemma CompareIsStandardIffAscii(collate: Collation)
    requires IsCollation(collate)
    ensures OrdersAsStandard(collate) <==> AgreesWithAscii(collate)
  {
    if AgreesWithAscii(collate) {
      forall left, right | ValidText(left) && ValidText(right) ensures RanksAsStandard(collate, left, right) {
        var a, b := ParseVersion(left).value, ParseVersion(right).value;
        CompareIsPrecedence(collate, a, b);
        SameFieldOrder(collate, a.prerelease, b.prerelease);
      }
    }
    if OrdersAsStandard(collate) {
      forall x, y | ValidIdentifier(x) && ValidIdentifier(y) && !IsNumber(x) && !IsNumber(y)
        ensures collate(x, y) < 0 <==> TextLess(x, y)
      {
        TwoTextsRankAsCollated(collate, x, y);
      }
    }
  }

  /**
   * A collation that puts "a" before "B", as those of natural languages do, ranks the text 1.0.0-a below 1.0.0-B,
   * against the standard.
   */
  lemma LocaleOrderIsNotStandard(collate: Collation)
    requires IsCollation(collate) && collate("a", "B") < 0
    ensures var a, b := ParseVersion("1.0.0-a"), ParseVersion("1.0.0-B");
            && a.Some? && b.Some?
            && Compare(collate, a.value, b.value) < 0
            && StandardPrecedes(b.value, a.value) && !StandardPrecedes(a.value, b.value)
    ensures !OrdersAsStandard(collate)
  {
    assert !IsDigit("a"[0]) && !IsDigit("B"[0]);
    assert PrereleaseText("a") == "1.0.0-a" && PrereleaseText("B") == "1.0.0-B";
    TwoTextsRankAsCollated(collate, "a", "B");
    TwoTextsRankAsCollated(collate, "B", "a");
  }

  // ---- Selecting updates ---------------------------------------------------------------------------

  /** The manifest fields selectUpdate checks; `httpsUrl` and `publishedAtValid` are the verdicts of URL and Date. */
  datatype Manifest = Manifest(available: bool, version: string, httpsUrl: bool, sha256: string, publishedAtValid: bool)

  predicate IsSha256(s: string) {
    |s| == 64 && forall c <- s :: IsDigit(c) || 'a' <= c <= 'f' || 'A' <= c <= 'F'
  }

  datatype UpdateError = InvalidManifest

  /** The offered version when it is newer, None when there is nothing to install. */
  function SelectUpdate(collate: Collation, manifest: Manifest, currentVersion: string): Result<Option<string>, UpdateError> {
    var version := Trim(manifest.version);
    if !manifest.available then Ok(None)
    else if ParseVersion(version).None? || ParseVersion(currentVersion).None? || !manifest.httpsUrl
            || !IsSha256(Trim(manifest.sha256)) || !manifest.publishedAtValid
    then Err(InvalidManifest)
    else if Compare(collate, ParseVersion(version).value, ParseVersion(currentVersion).value) <= 0 then Ok(None)
    else Ok(Some(version))
  }

  /** Each version was accepted as an update of the one before it. */
  ghost predicate UpdateChain(collate: Collation, versions: seq<string>, manifests: seq<Manifest>) {
    && |versions| == |manifests| + 1
    && forall i {:trigger manifests[i]} | 0 <= i < |manifests| ::
         SelectUpdate(collate, manifests[i], versions[i]) == Ok(Some(versions[i + 1]))
  }

  predicate Ascends(collate: Collation, a: string, b: string) {
    && ParseVersion(a).Some? && ParseVersion(b).Some?
    && Compare(collate, ParseVersion(a).value, ParseVersion(b).value) < 0
  }

  lemma OneUpdateAscends(collate: Collation, manifest: Manifest, current: string, next: string)
    requires IsCollation(collate) && SelectUpdate(collate, manifest, current) == Ok(Some(next))
    ensures Ascends(collate, current, next)
  {
    var c, n := ParseVersion(current).value, ParseVersion(next).value;
    PrecedenceIsTotalOrder(collate, c, n, n);
    CompareIsPrecedence(collate, n, c);
    CompareIsPrecedence(collate, c, n);
  }

  lemma AscendsTransitive(collate: Collation, a: string, b: string, c: string)
    requires IsCollation(collate) && Ascends(collate, a, b) && Ascends(collate, b, c)
    ensures Ascends(collate, a, c)
  {
    PrecedenceIsTotalOrder(collate, ParseVersion(a).value, ParseVersion(b).value, ParseVersion(c).value);
  }

  lemma ChainAscends(collate: Collation, versions: seq<string>, manifests: seq<Manifest>, i: nat, j: nat)
    requires IsCollation(collate) && UpdateChain(collate, versions, manifests) && i < j < |versions|
    ensures Ascends(collate, versions[i], versions[j])
  {
    var ascends := (a: string, b: string) => Ascends(collate, a, b);
    forall k | 0 < k < |versions| ensures ascends(versions[k - 1], versions[k]) {
      OneUpdateAscends(collate, manifests[k - 1], versions[k - 1], versions[k]);
    }
    forall a, b, c | ascends(a, b) && ascends(b, c) ensures ascends(a, c) {
      AscendsTransitive(collate, a, b, c);
    }
    Sequences.NeighboursReachAll(ascends, versions, i, j);
  }

  lemma AscendingVersionsDiffer(collate: Collation, a: string, b: string)
    requires IsCollation(collate) && Ascends(collate, a, b)
    ensures a != b
    ensures Precedes(collate, ParseVersion(a).value, ParseVersion(b).value)
  {
    var v, w := ParseVersion(a).value, ParseVersion(b).value;
    CompareIsPrecedence(collate, v, w);
    PrecedenceIsTotalOrder(collate, v, v, v);
  }

  /** Any chain of accepted updates strictly ascends, so it never comes back to a version it has left. */
  lemma UpdatesAscend(collate: Collation, versions: seq<string>, manifests: seq<Manifest>, i: nat, j: nat)
    requires IsCollation(collate) && UpdateChain(collate, versions, manifests) && i < j < |versions|
    ensures ParseVersion(versions[i]).Some? && ParseVersion(versions[j]).Some?
    ensures Precedes(collate, ParseVersion(versions[i]).value, ParseVersion(versions[j]).value)
    ensures versions[i] != versions[j]
  {
    ChainAscends(collate, versions, manifests, i, j);
    AscendingVersionsDiffer(collate, versions[i], versions[j]);
  }
}
