/**
 * Price resolution (backend/src/pricing/pricing.service.ts, lines 108 to 323): bucketing the entries by
 * scope and walking the scopes from most to least specific refines a plain scan of all entries. Tax is
 * not part of this model, so a quote is the entry that wins.
 */
module PriceResolution {
  import opened Outcome
  import Sequences

  datatype ScopeType = Variant | Product | Brand | Category | Global

  datatype Entry = Entry(id: string, scopeType: ScopeType, scopeId: Option<string>, minQty: real)

  /** A variant and the ids its scopes are matched by. */
  datatype PriceableVariant = PriceableVariant(id: string, productId: string, brandId: Option<string>, categoryId: Option<string>)

  type Index = map<string, seq<Entry>>

  const SCOPE_PRIORITY: seq<ScopeType> := [Variant, Product, Brand, Category, Global]

  function TypeName(t: ScopeType): string {
    match t
    case Variant => "variant"
    case Product => "product"
    case Brand => "brand"
    case Category => "category"
    case Global => "global"
  }

  function TextOf(id: Option<string>): string {
    if id.Some? then id.value else ""
  }

  /** "<scope_type>:<scope_id>", with every global entry under one key. */
  function ScopeKey(t: ScopeType, id: Option<string>): string {
    TypeName(t) + ":" + (if t == Global then "" else TextOf(id))
  }

  /** Keys never collide: the type name and the id can be read back. */
  lemma ScopeKeyInjective(t: ScopeType, a: Option<string>, u: ScopeType, b: Option<string>)
    ensures ScopeKey(t, a) == ScopeKey(u, b) <==> t == u && (t == Global || TextOf(a) == TextOf(b))
  {
    var k, l := ScopeKey(t, a), ScopeKey(u, b);
    if k == l {
      assert k[0] == TypeName(t)[0] && l[0] == TypeName(u)[0];
      assert t == u;
      var n := |TypeName(t)| + 1;
      assert k[n..] == (if t == Global then "" else TextOf(a));
      assert l[n..] == (if u == Global then "" else TextOf(b));
    }
  }

  // ---- The index -----------------------------------------------------------------------------------

  function Select(entries: seq<Entry>, key: string): seq<Entry> {
    if entries == [] then []
    else
      var front, last := Select(entries[..|entries| - 1], key), entries[|entries| - 1];
      if ScopeKey(last.scopeType, last.scopeId) == key then front + [last] else front
  }

  /** What an index means: each bucket lists, in order, the entries of its key. */
  ghost predicate Indexes(index: Index, entries: seq<Entry>) {
    forall key :: (if key in index then index[key] else []) == Select(entries, key)
  }

  method BuildIndex(entries: seq<Entry>) returns (index: Index)
    ensures Indexes(index, entries)
  {
    index := map[];
    for i := 0 to |entries|
      invariant Indexes(index, entries[..i])
    {
      var entry := entries[i];
      var key := ScopeKey(entry.scopeType, entry.scopeId);
      assert entries[..i + 1][..i] == entries[..i];
      ghost var before := index;
      if key in index {
        index := index[key := index[key] + [entry]];
      } else {
        index := index[key := [entry]];
      }
      forall k ensures (if k in index then index[k] else []) == Select(entries[..i + 1], k) {
        assert (if k in before then before[k] else []) == Select(entries[..i], k);
      }
    }
    assert entries[..|entries|] == entries;
  }

  // ---- Quoting -------------------------------------------------------------------------------------

  function ScopeIdOf(variant: PriceableVariant, level: ScopeType): Option<string> {
    match level
    case Variant => Some(variant.id)
    case Product => Some(variant.productId)
    case Brand => variant.brandId
    case Category => variant.categoryId
    case Global => None
  }

  /** Levels without an id are skipped; an empty id counts as none. */
  predicate HasLevel(variant: PriceableVariant, level: ScopeType) {
    level == Global || TextOf(ScopeIdOf(variant, level)) != ""
  }

  function Filter(bucket: seq<Entry>, qty: real): seq<Entry> {
    if bucket == [] then []
    else
      var front, last := Filter(bucket[..|bucket| - 1], qty), bucket[|bucket| - 1];
      if last.minQty <= qty then front + [last] else front
  }

  /** The reduce of the source: a later entry wins only with a strictly larger break. */
  function Tightest(candidates: seq<Entry>): Entry
    requires candidates != []
  {
    if |candidates| == 1 then candidates[0]
    else
      var best, current := Tightest(candidates[..|candidates| - 1]), candidates[|candidates| - 1];
      if current.minQty > best.minQty then current else best
  }

  function QuoteFrom(variant: PriceableVariant, index: Index, qty: real, levels: seq<ScopeType>): Option<Entry>
    decreases |levels|
  {
    if levels == [] then None
    else if !HasLevel(variant, levels[0]) then QuoteFrom(variant, index, qty, levels[1..])
    else
      var key := ScopeKey(levels[0], ScopeIdOf(variant, levels[0]));
      var candidates := Filter(if key in index then index[key] else [], qty);
      if candidates == [] then QuoteFrom(variant, index, qty, levels[1..]) else Some(Tightest(candidates))
  }

  function Quote(variant: PriceableVariant, index: Index, qty: real): Option<Entry> {
    QuoteFrom(variant, index, qty, SCOPE_PRIORITY)
  }

  // ---- The simple form -----------------------------------------------------------------------------

  /** Larger is more specific. */
  function Specificity(t: ScopeType): nat {
    match t
    case Variant => 4
    case Product => 3
    case Brand => 2
    case Category => 1
    case Global => 0
  }

  predicate Applies(variant: PriceableVariant, entry: Entry) {
    && HasLevel(variant, entry.scopeType)
    && (entry.scopeType == Global || TextOf(entry.scopeId) == TextOf(ScopeIdOf(variant, entry.scopeType)))
  }

  predicate Qualifies(variant: PriceableVariant, entry: Entry, qty: real) {
    Applies(variant, entry) && entry.minQty <= qty
  }

  /** (specificity, quantity break), compared lexicographically. */
  predicate Beats(a: Entry, b: Entry) {
    Specificity(a.scopeType) > Specificity(b.scopeType)
    || (a.scopeType == b.scopeType && a.minQty > b.minQty)
  }

  /** One pass over all entries, replacing the best so far only when beaten. */
  function Scan(variant: PriceableVariant, entries: seq<Entry>, qty: real): Option<Entry> {
    if entries == [] then None
    else
      var best, current := Scan(variant, entries[..|entries| - 1], qty), entries[|entries| - 1];
      if Qualifies(variant, current, qty) && (best.None? || Beats(current, best.value)) then Some(current) else best
  }

  /** Position `i` is the first qualifying entry that no qualifying entry beats. */
  ghost predicate IsWinner(variant: PriceableVariant, entries: seq<Entry>, qty: real, i: int) {
    && 0 <= i < |entries|
    && Qualifies(variant, entries[i], qty)
    && (forall j | 0 <= j < |entries| && Qualifies(variant, entries[j], qty) :: !Beats(entries[j], entries[i]))
    && (forall j | 0 <= j < i && Qualifies(variant, entries[j], qty) :: Beats(entries[i], entries[j]))
  }

  lemma BeatsTheUnbeaten(a: Entry, best: Entry, other: Entry)
    requires Beats(a, best) && !Beats(other, best)
    ensures Beats(a, other) && !Beats(other, a)
  {
  }

  lemma {:induction false} ScanFindsWinner(variant: PriceableVariant, entries: seq<Entry>, qty: real)
    ensures Scan(variant, entries, qty).None? <==> forall e <- entries :: !Qualifies(variant, e, qty)
    ensures Scan(variant, entries, qty).Some? ==>
              exists i :: IsWinner(variant, entries, qty, i) && Scan(variant, entries, qty) == Some(entries[i])
  {
    if entries != [] {
      var front, n := entries[..|entries| - 1], |entries| - 1;
      ScanFindsWinner(variant, front, qty);
      assert entries == front + [entries[n]];
      var best := Scan(variant, front, qty);
      if Qualifies(variant, entries[n], qty) && (best.None? || Beats(entries[n], best.value)) {
        forall j | 0 <= j < n && Qualifies(variant, entries[j], qty)
          ensures Beats(entries[n], entries[j]) && !Beats(entries[j], entries[n])
        {
          assert front[j] in front;
          var i :| IsWinner(variant, front, qty, i) && best == Some(front[i]);
          assert !Beats(front[j], front[i]);
          BeatsTheUnbeaten(entries[n], front[i], entries[j]);
        }
        assert IsWinner(variant, entries, qty, n);
      } else if best.Some? {
        var i :| IsWinner(variant, front, qty, i) && best == Some(front[i]);
        assert IsWinner(variant, entries, qty, i);
      }
    }
  }

  // ---- The index refines the scan ------------------------------------------------------------------

  /** The best entry of one level, by scanning. */
  function ScanLevel(variant: PriceableVariant, entries: seq<Entry>, qty: real, level: ScopeType): Option<Entry> {
    if entries == [] then None
    else
      var best, current := ScanLevel(variant, entries[..|entries| - 1], qty, level), entries[|entries| - 1];
      if current.scopeType == level && Qualifies(variant, current, qty) && (best.None? || current.minQty > best.value.minQty)
      then Some(current) else best
  }

  /** What quote takes from one bucket. */
  function BestIn(bucket: seq<Entry>, qty: real): Option<Entry> {
    var candidates := Filter(bucket, qty);
    if candidates == [] then None else Some(Tightest(candidates))
  }

  /** One more entry in a bucket. */
  lemma BestOfMore(bucket: seq<Entry>, last: Entry, qty: real)
    ensures BestIn(bucket + [last], qty)
            == if last.minQty <= qty && (BestIn(bucket, qty).None? || last.minQty > BestIn(bucket, qty).value.minQty)
               then Some(last) else BestIn(bucket, qty)
  {
    assert (bucket + [last])[..|bucket|] == bucket;
    var candidates := Filter(bucket, qty);
    assert (candidates + [last])[..|candidates|] == candidates;
  }

  /** The entries of a scope, in order; what a bucket must hold. */
  function OnScope(entries: seq<Entry>, level: ScopeType, id: Option<string>): seq<Entry> {
    if entries == [] then []
    else
      var front, last := OnScope(entries[..|entries| - 1], level, id), entries[|entries| - 1];
      if last.scopeType == level && (level == Global || TextOf(last.scopeId) == TextOf(id)) then front + [last] else front
  }

  lemma {:induction false} BucketIsScope(entries: seq<Entry>, level: ScopeType, id: Option<string>)
    ensures Select(entries, ScopeKey(level, id)) == OnScope(entries, level, id)
  {
    if entries != [] {
      var last := entries[|entries| - 1];
      BucketIsScope(entries[..|entries| - 1], level, id);
      ScopeKeyInjective(last.scopeType, last.scopeId, level, id);
    }
  }

  lemma {:induction false} BestOnScopeIsLevel(variant: PriceableVariant, entries: seq<Entry>, qty: real, level: ScopeType)
    requires HasLevel(variant, level)
    ensures ScanLevel(variant, entries, qty, level) == BestIn(OnScope(entries, level, ScopeIdOf(variant, level)), qty)
    decreases |entries|
  {
    if entries != [] {
      var front, last := entries[..|entries| - 1], entries[|entries| - 1];
      BestOnScopeIsLevel(variant, front, qty, level);
      BestOfMore(OnScope(front, level, ScopeIdOf(variant, level)), last, qty);
    }
  }

  lemma BucketIsLevel(variant: PriceableVariant, entries: seq<Entry>, qty: real, level: ScopeType)
    requires HasLevel(variant, level)
    ensures ScanLevel(variant, entries, qty, level) == BestIn(Select(entries, ScopeKey(level, ScopeIdOf(variant, level))), qty)
  {
    BucketIsScope(entries, level, ScopeIdOf(variant, level));
    BestOnScopeIsLevel(variant, entries, qty, level);
  }

  lemma {:induction false} LevelWithoutIdIsEmpty(variant: PriceableVariant, entries: seq<Entry>, qty: real, level: ScopeType)
    requires !HasLevel(variant, level)
    ensures ScanLevel(variant, entries, qty, level) == None
  {
    if entries != [] {
      LevelWithoutIdIsEmpty(variant, entries[..|entries| - 1], qty, level);
    }
  }

  function FirstLevel(variant: PriceableVariant, entries: seq<Entry>, qty: real, levels: seq<ScopeType>): Option<Entry>
    decreases |levels|
  {
    if levels == [] then None
    else
      var here := ScanLevel(variant, entries, qty, levels[0]);
      if here.Some? then here else FirstLevel(variant, entries, qty, levels[1..])
  }

  lemma {:induction false} QuoteIsFirstLevel(variant: PriceableVariant, index: Index, entries: seq<Entry>, qty: real,
                                             levels: seq<ScopeType>)
    requires Indexes(index, entries)
    ensures QuoteFrom(variant, index, qty, levels) == FirstLevel(variant, entries, qty, levels)
    decreases |levels|
  {
    if levels != [] {
      QuoteIsFirstLevel(variant, index, entries, qty, levels[1..]);
      if HasLevel(variant, levels[0]) {
        BucketIsLevel(variant, entries, qty, levels[0]);
      } else {
        LevelWithoutIdIsEmpty(variant, entries, qty, levels[0]);
      }
    }
  }

  /** The scopes as the priority list walks them, unrolled. */
  function ByPriority(v: Option<Entry>, p: Option<Entry>, b: Option<Entry>, c: Option<Entry>, g: Option<Entry>): Option<Entry> {
    if v.Some? then v else if p.Some? then p else if b.Some? then b else if c.Some? then c else g
  }

  lemma FirstLevelUnrolled(variant: PriceableVariant, entries: seq<Entry>, qty: real)
    ensures FirstLevel(variant, entries, qty, SCOPE_PRIORITY) ==
            ByPriority(ScanLevel(variant, entries, qty, Variant), ScanLevel(variant, entries, qty, Product),
                       ScanLevel(variant, entries, qty, Brand), ScanLevel(variant, entries, qty, Category),
                       ScanLevel(variant, entries, qty, Global))
  {
    var l := SCOPE_PRIORITY;
    assert l[1..][1..] == l[2..] && l[2..][1..] == l[3..] && l[3..][1..] == l[4..] && l[4..][1..] == [];
    assert FirstLevel(variant, entries, qty, []) == None;
  }

  lemma {:induction false} ScanIsFirstLevel(variant: PriceableVariant, entries: seq<Entry>, qty: real)
    ensures Scan(variant, entries, qty) == FirstLevel(variant, entries, qty, SCOPE_PRIORITY)
    ensures forall level :: ScanLevel(variant, entries, qty, level).Some? ==>
                              ScanLevel(variant, entries, qty, level).value.scopeType == level
  {
    FirstLevelUnrolled(variant, entries, qty);
    if entries != [] {
      ScanIsFirstLevel(variant, entries[..|entries| - 1], qty);
      FirstLevelUnrolled(variant, entries[..|entries| - 1], qty);
    }
  }

  /** The fast form picks exactly the entry the plain scan picks. */
  lemma QuoteRefinesScan(variant: PriceableVariant, index: Index, entries: seq<Entry>, qty: real)
    requires Indexes(index, entries)
    ensures Quote(variant, index, qty) == Scan(variant, entries, qty)
  {
    QuoteIsFirstLevel(variant, index, entries, qty, SCOPE_PRIORITY);
    ScanIsFirstLevel(variant, entries, qty);
  }

  /** And that entry is the first one no qualifying entry beats; there is none only if nothing qualifies. */
  lemma QuoteMeaning(variant: PriceableVariant, index: Index, entries: seq<Entry>, qty: real)
    requires Indexes(index, entries)
    ensures Quote(variant, index, qty).None? <==> forall e <- entries :: !Qualifies(variant, e, qty)
    ensures Quote(variant, index, qty).Some? ==>
              exists i :: IsWinner(variant, entries, qty, i) && Quote(variant, index, qty) == Some(entries[i])
  {
    QuoteRefinesScan(variant, index, entries, qty);
    ScanFindsWinner(variant, entries, qty);
  }

  // ---- Order independence and monotonicity ---------------------------------------------------------

  /** No two entries of the same scope share a quantity break. */
  ghost predicate DistinctBreaks(variant: PriceableVariant, entries: seq<Entry>) {
    forall a, b | a in entries && b in entries && Applies(variant, a) && Applies(variant, b)
                  && a.scopeType == b.scopeType && a.minQty == b.minQty :: a == b
  }

  lemma PermutationInvariant(variant: PriceableVariant, xs: seq<Entry>, ys: seq<Entry>, index: Index, index': Index, qty: real)
    requires multiset(xs) == multiset(ys) && DistinctBreaks(variant, xs)
    requires Indexes(index, xs) && Indexes(index', ys)
    ensures Quote(variant, index, qty) == Quote(variant, index', qty)
  {
    QuoteMeaning(variant, index, xs, qty);
    QuoteMeaning(variant, index', ys, qty);
    Sequences.SameMembers(xs, ys);
    if Quote(variant, index, qty).Some? {
      var i :| IsWinner(variant, xs, qty, i) && Quote(variant, index, qty) == Some(xs[i]);
      assert xs[i] in ys;
      var j :| IsWinner(variant, ys, qty, j) && Quote(variant, index', qty) == Some(ys[j]);
      assert ys[j] in xs;
      var i' :| 0 <= i' < |xs| && xs[i'] == ys[j];
      var j' :| 0 <= j' < |ys| && ys[j'] == xs[i];
      assert !Beats(xs[i'], xs[i]) && !Beats(ys[j'], ys[j]);
    }
  }

  /** Buying more never moves the winner to a less specific scope or a smaller break. */
  lemma WinnerIsMonotone(variant: PriceableVariant, index: Index, entries: seq<Entry>, qty: real, more: real)
    requires Indexes(index, entries) && qty <= more
    requires Quote(variant, index, qty).Some?
    ensures Quote(variant, index, more).Some?
    ensures !Beats(Quote(variant, index, qty).value, Quote(variant, index, more).value)
  {
    QuoteMeaning(variant, index, entries, qty);
    QuoteMeaning(variant, index, entries, more);
    var i :| IsWinner(variant, entries, qty, i) && Quote(variant, index, qty) == Some(entries[i]);
    assert Qualifies(variant, entries[i], more) && entries[i] in entries;
  }

  // ---- Many lines ----------------------------------------------------------------------------------

  datatype PriceableLine = PriceableLine(variant: PriceableVariant, qty: real)

  function Unpriced(lines: seq<PriceableLine>, entries: seq<Entry>): seq<string> {
    if lines == [] then []
    else
      var front, last := Unpriced(lines[..|lines| - 1], entries), lines[|lines| - 1];
      if Scan(last.variant, entries, last.qty).None? then front + [last.variant.id] else front
  }

  /** The quotes by variant; a variant listed twice keeps the quote of its last line. */
  function Priced(lines: seq<PriceableLine>, entries: seq<Entry>): map<string, Entry> {
    if lines == [] then map[]
    else
      var front, last := Priced(lines[..|lines| - 1], entries), lines[|lines| - 1];
      var quote := Scan(last.variant, entries, last.qty);
      if quote.Some? then front[last.variant.id := quote.value] else front
  }

  predicate LastLineOf(lines: seq<PriceableLine>, i: int, id: string) {
    && 0 <= i < |lines|
    && lines[i].variant.id == id
    && forall j | i < j < |lines| :: lines[j].variant.id != id
  }

  /** When nothing is unpriced, every line's variant has a quote: that of the variant's last line. */
  lemma {:induction false} PricedMeaning(lines: seq<PriceableLine>, entries: seq<Entry>, i: int, id: string)
    requires Unpriced(lines, entries) == [] && LastLineOf(lines, i, id)
    ensures id in Priced(lines, entries)
    ensures Some(Priced(lines, entries)[id]) == Scan(lines[i].variant, entries, lines[i].qty)
  {
    if i < |lines| - 1 {
      assert LastLineOf(lines[..|lines| - 1], i, id);
      PricedMeaning(lines[..|lines| - 1], entries, i, id);
    }
  }

  lemma {:induction false} UnpricedMeaning(lines: seq<PriceableLine>, entries: seq<Entry>)
    ensures Unpriced(lines, entries) == [] <==> forall line <- lines :: Scan(line.variant, entries, line.qty).Some?
  {
    if lines != [] {
      UnpricedMeaning(lines[..|lines| - 1], entries);
      assert lines == lines[..|lines| - 1] + [lines[|lines| - 1]];
    }
  }

  method QuoteLine(line: PriceableLine, index: Index, ghost entries: seq<Entry>) returns (quote: Option<Entry>)
    requires Indexes(index, entries)
    ensures quote == Scan(line.variant, entries, line.qty)
  {
    QuoteRefinesScan(line.variant, index, entries, line.qty);
    quote := Quote(line.variant, index, line.qty);
  }

  /** Why a call fails: the tax category of one variant has no active code, or these variants have no price. */
  datatype PriceError = NoActiveTaxCode(variant: string) | NoPrice(variants: seq<string>)

  /** A line that has a price, for a variant without an active tax code. */
  predicate Untaxed(lines: seq<PriceableLine>, entries: seq<Entry>, taxed: PriceableVariant -> bool, i: int) {
    0 <= i < |lines| && Scan(lines[i].variant, entries, lines[i].qty).Some? && !taxed(lines[i].variant)
  }

  /**
   * The first line with a price but no tax code ends the call at once; otherwise a single unresolvable line fails
   * it, naming all of them in order.
   */
  method CalculateMany(lines: seq<PriceableLine>, entries: seq<Entry>, taxed: PriceableVariant -> bool)
    returns (r: Result<map<string, Entry>, PriceError>)
    ensures r.Ok? <==> forall line <- lines :: Scan(line.variant, entries, line.qty).Some? && taxed(line.variant)
    ensures (exists i :: Untaxed(lines, entries, taxed, i)) <==> r.Err? && r.error.NoActiveTaxCode?
    ensures r.Err? && r.error.NoActiveTaxCode? ==>
              exists i :: Untaxed(lines, entries, taxed, i) && r.error.variant == lines[i].variant.id
                          && forall j | 0 <= j < i :: !Untaxed(lines, entries, taxed, j)
    ensures !(r.Err? && r.error.NoActiveTaxCode?) ==>
              r == if Unpriced(lines, entries) == [] then Ok(Priced(lines, entries)) else Err(NoPrice(Unpriced(lines, entries)))
  {
    var index := BuildIndex(entries);
    var result: map<string, Entry> := map[];
    var unpriced: seq<string> := [];
    UnpricedMeaning(lines, entries);
    for k := 0 to |lines|
      invariant unpriced == Unpriced(lines[..k], entries)
      invariant result == Priced(lines[..k], entries)
      invariant forall j | 0 <= j < k :: !Untaxed(lines, entries, taxed, j)
    {
      var line := lines[k];
      assert lines[..k + 1][..k] == lines[..k];
      var quote := QuoteLine(line, index, entries);
      if quote.None? {
        unpriced := unpriced + [line.variant.id];
        continue;
      }
      if !taxed(line.variant) {
        assert Untaxed(lines, entries, taxed, k) && line in lines;
        return Err(NoActiveTaxCode(line.variant.id));
      }
      result := result[line.variant.id := quote.value];
    }
    assert lines[..|lines|] == lines;
    if unpriced == [] {
      forall line | line in lines ensures taxed(line.variant) {
        var j :| 0 <= j < |lines| && lines[j] == line;
        assert !Untaxed(lines, entries, taxed, j);
      }
    }
    return if unpriced != [] then Err(NoPrice(unpriced)) else Ok(result);
  }
}
