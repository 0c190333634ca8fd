/**
 * Bespoke scanners for the fixed regular expressions of the extractors, with the
 * semantics of Python's `re.search`: the match that starts leftmost, its groups as
 * the greedy engine fills them.
 *
 * Each pattern below is a literal, greedy character classes and one capture group,
 * arranged so that backtracking can never change the outcome: every greedy run is
 * followed by something its class cannot contain (a `[\d,]+` by a blank, a `.` or a
 * tag letter; a `\s*` by a digit or a letter). So "take the longest run, then check
 * the rest" decides whether the pattern matches at a position and what it captures.
 */
module Patterns {
  import opened Options
  import opened Text

  /** A capture group: the text `s[lo..hi]`. */
  datatype Span = Span(lo: nat, hi: nat)

  datatype Pattern =
    | TagThenAmount(tag: string, gap: bool)   // TAG\s*([\d,]+\.?\d*); without `gap`, no \s* (the `\$` rule)
    | AmountThenTag(tag: string)              // ([\d,]+\.?\d*)\s*TAG
    | CountThenUnit(words: seq<string>)       // (\d+)\s*W1\s*W2 ...
    | AnyName(names: seq<string>)             // (N1|N2|...): the first alternative that fits
    | Timestamp                               // (\d{4}-\d{2}-\d{2}\s+\d{2}:\d{2}:\d{2})

  function Group(s: string, sp: Span): string
    requires sp.lo <= sp.hi <= |s|
  {
    s[sp.lo..sp.hi]
  }

  // ---------------------------------------------------------------------------
  // Shapes of what the groups capture

  /**
   * A normalised price: digits, with at most one `.` and only digits after it
   * (`[\d,]+\.?\d*` with its commas removed).
   */
  predicate PriceShaped(r: string) {
    forall k :: 0 <= k < |r| ==> IsDigit(r[k]) || (r[k] == '.' && forall m :: k < m < |r| ==> IsDigit(r[m]))
  }

  predicate DigitsAt(s: string, i: nat, n: nat) {
    i + n <= |s| && forall k :: i <= k < i + n ==> IsDigit(s[k])
  }

  /** `YYYY-MM-DD<blanks>HH:MM:SS`, with at least one blank between date and time. */
  predicate IsTimestamp(g: string) {
    |g| >= 19 && DigitsAt(g, 0, 4) && g[4] == '-' && DigitsAt(g, 5, 2) && g[7] == '-' && DigitsAt(g, 8, 2)
    && (forall k :: 10 <= k < |g| - 8 ==> IsSpace(g[k]))
    && DigitsAt(g, |g| - 8, 2) && g[|g| - 6] == ':' && DigitsAt(g, |g| - 5, 2) && g[|g| - 3] == ':'
    && DigitsAt(g, |g| - 2, 2)
  }

  // ---------------------------------------------------------------------------
  // Matching at one position

  /** End of a greedy `[\d,]+\.?\d*` that starts at `i`, if one starts there. */
  function AmountEnd(s: string, i: nat): (e: Option<nat>)
    requires i <= |s|
    ensures e.Some? ==> i < e.value <= |s|
  {
    var r := RunEnd(s, i, DigitOrComma);
    if r == i then None
    else if r < |s| && s[r] == '.' then Some(RunEnd(s, r + 1, Digit))
    else Some(r)
  }

  /** `\s*W1\s*W2...` starting at `j` (every word begins with a letter). */
  predicate UnitsAt(s: string, j: nat, words: seq<string>, fold: bool)
    requires j <= |s|
    decreases |words|
  {
    words == [] ||
    (var k := RunEnd(s, j, Space);
     LitAt(s, k, words[0], fold) && UnitsAt(s, k + |words[0]|, words[1..], fold))
  }

  /** The first alternative of `names`, in list order, that occurs at `i`. */
  function FirstNameAt(s: string, i: nat, names: seq<string>, fold: bool): (n: Option<string>)
    ensures n.Some? ==> n.value in names && LitAt(s, i, n.value, fold)
  {
    if names == [] then None
    else if LitAt(s, i, names[0], fold) then Some(names[0])
    else FirstNameAt(s, i, names[1..], fold)
  }

  /** No alternative is found exactly when none of them occurs at `i`. */
  lemma {:induction false} NoNameAt(s: string, i: nat, names: seq<string>, fold: bool)
    ensures FirstNameAt(s, i, names, fold).None? <==> forall m :: m in names ==> !LitAt(s, i, m, fold)
  {
    if names != [] {
      NoNameAt(s, i, names[1..], fold);
      assert forall m :: m in names ==> m == names[0] || m in names[1..];
    }
  }

  /** End of `\d{4}-\d{2}-\d{2}\s+\d{2}:\d{2}:\d{2}` starting at `i`. */
  function TimestampEnd(s: string, i: nat): (e: Option<nat>)
    requires i <= |s|
    ensures e.Some? ==> i + 19 <= e.value <= |s| && IsTimestamp(s[i..e.value])
  {
    if !(DigitsAt(s, i, 4) && i + 10 <= |s| && s[i + 4] == '-' && DigitsAt(s, i + 5, 2)
         && s[i + 7] == '-' && DigitsAt(s, i + 8, 2)) then None
    else
      var w := RunEnd(s, i + 10, Space);
      RunMembers(s, i + 10, Space);
      if w > i + 10 && DigitsAt(s, w, 2) && w + 8 <= |s| && s[w + 2] == ':' && DigitsAt(s, w + 3, 2)
         && s[w + 5] == ':' && DigitsAt(s, w + 6, 2)
      then
        var g := s[i..w + 8];
        assert forall k :: 0 <= k < |g| ==> g[k] == s[i + k];
        Some(w + 8)
      else None
  }

  /** `TAG\s*([\d,]+\.?\d*)` (or, without `gap`, `TAG([\d,]+\.?\d*)`) at `i`. */
  function TagThenAmountAt(tag: string, gap: bool, fold: bool, s: string, i: nat): (m: Option<Span>)
    ensures m.Some? ==> i <= m.value.lo <= m.value.hi <= |s| && AmountEnd(s, m.value.lo) == Some(m.value.hi)
  {
    if !LitAt(s, i, tag, fold) then None
    else
      var j := if gap then RunEnd(s, i + |tag|, Space) else i + |tag|;
      var e := AmountEnd(s, j);
      if e.Some? then Some(Span(j, e.value)) else None
  }

  /** `([\d,]+\.?\d*)\s*TAG` at `i`. */
  function AmountThenTagAt(tag: string, fold: bool, s: string, i: nat): (m: Option<Span>)
    requires i <= |s|
    ensures m.Some? ==> i == m.value.lo <= m.value.hi <= |s| && AmountEnd(s, m.value.lo) == Some(m.value.hi)
  {
    var e := AmountEnd(s, i);
    if e.Some? && LitAt(s, RunEnd(s, e.value, Space), tag, fold) then Some(Span(i, e.value)) else None
  }

  /** `(\d+)\s*W1\s*W2...` at `i`. */
  function CountThenUnitAt(words: seq<string>, fold: bool, s: string, i: nat): (m: Option<Span>)
    requires i < |s|
    ensures m.Some? ==> i == m.value.lo < m.value.hi <= |s| && AllDigits(Group(s, m.value))
  {
    if !IsDigit(s[i]) then None
    else
      var e := RunEnd(s, i, Digit);
      RunMembers(s, i, Digit);
      if UnitsAt(s, e, words, fold) then Some(Span(i, e)) else None
  }

  /** `(N1|N2|...)` at `i`. */
  function AnyNameAt(names: seq<string>, fold: bool, s: string, i: nat): (m: Option<Span>)
    ensures m.Some? ==> i == m.value.lo && exists n :: n in names && LitAt(s, i, n, fold) && m.value.hi == i + |n|
  {
    var n := FirstNameAt(s, i, names, fold);
    if n.Some? then Some(Span(i, i + |n.value|)) else None
  }

  /**
   * Whether pattern `p` matches with its match starting at `i`, and if so the span of
   * its group. `fold` is `re.IGNORECASE`.
   */
  function MatchAt(p: Pattern, fold: bool, s: string, i: nat): (m: Option<Span>)
    ensures i >= |s| ==> m.None?
    ensures m.Some? ==> i <= m.value.lo <= m.value.hi <= |s|
    ensures m.Some? && (p.TagThenAmount? || p.AmountThenTag?) ==> AmountEnd(s, m.value.lo) == Some(m.value.hi)
    ensures m.Some? && p.CountThenUnit? ==> m.value.lo < m.value.hi && AllDigits(Group(s, m.value))
    ensures m.Some? && p.AnyName? ==> m.value.lo == i && exists n :: n in p.names && LitAt(s, i, n, fold) && m.value.hi == i + |n|
    ensures m.Some? && p.Timestamp? ==> IsTimestamp(Group(s, m.value))
  {
    if i >= |s| then None  // every pattern consumes at least one character
    else
      match p
      case TagThenAmount(tag, gap) => TagThenAmountAt(tag, gap, fold, s, i)
      case AmountThenTag(tag) => AmountThenTagAt(tag, fold, s, i)
      case CountThenUnit(words) => CountThenUnitAt(words, fold, s, i)
      case AnyName(names) => AnyNameAt(names, fold, s, i)
      case Timestamp =>
        var e := TimestampEnd(s, i);
        if e.Some? then Some(Span(i, e.value)) else None
  }

  // ---------------------------------------------------------------------------
  // re.search and the first-match-wins pattern list

  /** Where a match starts and the span of its group. */
  datatype Hit = Hit(pos: nat, span: Span)

  /** `re.search` from position `i`: the match that starts leftmost. */
  function LeftmostFrom(p: Pattern, fold: bool, s: string, i: nat): (h: Option<Hit>)
    requires i <= |s|
    ensures h.Some? ==> i <= h.value.pos < |s| && MatchAt(p, fold, s, h.value.pos) == Some(h.value.span)
    ensures h.Some? ==> forall j :: i <= j < h.value.pos ==> MatchAt(p, fold, s, j).None?
    ensures h.None? ==> forall j :: i <= j ==> MatchAt(p, fold, s, j).None?
    decreases |s| - i
  {
    if i == |s| then None
    else
      match MatchAt(p, fold, s, i)
      case Some(sp) => Some(Hit(i, sp))
      case None => LeftmostFrom(p, fold, s, i + 1)
  }

  function Search(p: Pattern, fold: bool, s: string): Option<Hit> {
    LeftmostFrom(p, fold, s, 0)
  }

  /** Two patterns that match alike at every position find the same leftmost match. */
  lemma SameMatchesSameSearch(p: Pattern, q: Pattern, fold: bool, s: string)
    requires forall j :: 0 <= j < |s| ==> MatchAt(p, fold, s, j) == MatchAt(q, fold, s, j)
    ensures Search(p, fold, s) == Search(q, fold, s)
  {
  }

  /** Which rule of a list decided, and its hit. */
  datatype RuleHit = RuleHit(rule: nat, hit: Hit)

  /** The first index from `k` whose entry is present. */
  function FirstPresent<X>(xs: seq<Option<X>>, k: nat): (r: Option<nat>)
    requires k <= |xs|
    ensures r.Some? ==> k <= r.value < |xs| && xs[r.value].Some?
    ensures r.Some? ==> forall j :: k <= j < r.value ==> xs[j].None?
    ensures r.None? ==> forall j :: k <= j < |xs| ==> xs[j].None?
    decreases |xs| - k
  {
    if k == |xs| then None
    else if xs[k].Some? then Some(k)
    else FirstPresent(xs, k + 1)
  }

  /** `re.search` of every pattern of a list, in list order. */
  function Searches(ps: seq<Pattern>, fold: bool, s: string): (hs: seq<Option<Hit>>)
    ensures |hs| == |ps| && forall j :: 0 <= j < |ps| ==> hs[j] == Search(ps[j], fold, s)
  {
    seq(|ps|, j requires 0 <= j < |ps| => Search(ps[j], fold, s))
  }

  /**
   * `for pattern in patterns: m = re.search(pattern, s); if m: return ...`: the
   * earliest RULE that matches anywhere wins, wherever a later rule would match.
   */
  function FirstRule(ps: seq<Pattern>, fold: bool, s: string): (r: Option<RuleHit>)
    ensures r.Some? ==> r.value.rule < |ps| && Search(ps[r.value.rule], fold, s) == Some(r.value.hit)
    ensures r.Some? ==> forall j :: 0 <= j < r.value.rule ==> Search(ps[j], fold, s).None?
    ensures r.None? ==> forall j :: 0 <= j < |ps| ==> Search(ps[j], fold, s).None?
  {
    var hs := Searches(ps, fold, s);
    match FirstPresent(hs, 0)
    case None => None
    case Some(k) => Some(RuleHit(k, hs[k].value))
  }

  /**
   * The first-match-wins list, stated without the loop: if rule `k` matches somewhere
   * and no earlier rule matches anywhere, rule `k`'s leftmost group is the answer.
   */
  lemma FirstGroupIsEarliestRule(ps: seq<Pattern>, fold: bool, s: string, k: nat)
    requires k < |ps| && Search(ps[k], fold, s).Some?
    requires forall j :: 0 <= j < k ==> Search(ps[j], fold, s).None?
    ensures FirstRule(ps, fold, s) == Some(RuleHit(k, Search(ps[k], fold, s).value))
  {
  }

  // ---------------------------------------------------------------------------
  // The two-group rule `(\d+)\s+(\d+)\s+Bathroom` (case-sensitive)

  /** Both groups of a match of the two-group rule starting at `i`. */
  function PairAt(s: string, i: nat): (m: Option<(Span, Span)>)
    ensures i >= |s| ==> m.None?
    ensures m.Some? ==> i == m.value.0.lo < m.value.0.hi < m.value.1.lo < m.value.1.hi <= |s|
    ensures m.Some? ==> AllDigits(Group(s, m.value.0)) && AllDigits(Group(s, m.value.1))
  {
    if i >= |s| || !IsDigit(s[i]) then None
    else
      var a := RunEnd(s, i, Digit);
      var b := RunEnd(s, a, Space);
      if b == a || b == |s| || !IsDigit(s[b]) then None
      else
        var c := RunEnd(s, b, Digit);
        var d := RunEnd(s, c, Space);
        RunMembers(s, i, Digit);
        RunMembers(s, b, Digit);
        if d > c && LitAt(s, d, "Bathroom", false) then Some((Span(i, a), Span(b, c))) else None
  }

  /** `re.search` of the two-group rule from position `i`: where the leftmost match starts. */
  function LeftmostPairFrom(s: string, i: nat): (r: Option<nat>)
    requires i <= |s|
    ensures r.Some? ==> i <= r.value && PairAt(s, r.value).Some?
    ensures r.Some? ==> forall j :: i <= j < r.value ==> PairAt(s, j).None?
    ensures r.None? ==> forall j :: i <= j ==> PairAt(s, j).None?
    decreases |s| - i
  {
    if i == |s| then None
    else if PairAt(s, i).Some? then Some(i)
    else LeftmostPairFrom(s, i + 1)
  }

  // ---------------------------------------------------------------------------
  // Facts about the shapes

  lemma {:induction false} WithoutCommasOfDigits(x: string)
    requires forall k :: 0 <= k < |x| ==> InClass(x[k], DigitOrComma)
    ensures AllDigits(Without(x, ','))
  {
    var r := Without(x, ',');
    forall k | 0 <= k < |r| ensures IsDigit(r[k]) {
      assert r[k] in x;
    }
  }

  lemma {:induction false} WithoutAbsent(x: string, c: char)
    requires c !in x
    ensures Without(x, c) == x
    decreases |x|
  {
    if x != [] {
      WithoutAbsent(x[1..], c);
      assert x == [x[0]] + x[1..];
    }
  }

  /** Digits followed by `.` and digits is a normalised price. */
  lemma DigitsDotDigits(d: string, t: string)
    requires AllDigits(d) && t != [] && t[0] == '.'
    requires forall k :: 1 <= k < |t| ==> IsDigit(t[k])
    ensures PriceShaped(d + t)
  {
    var res := d + t;
    forall k | 0 <= k < |res|
      ensures IsDigit(res[k]) || (res[k] == '.' && forall m :: k < m < |res| ==> IsDigit(res[m]))
    {
      if k < |d| {
        assert res[k] == d[k];
      } else {
        assert res[k] == t[k - |d|];
        forall m | k < m < |res| ensures IsDigit(res[m]) {
          assert res[m] == t[m - |d|];
        }
      }
    }
  }

  /** The `\.\d*` tail of an amount: a dot, then digits only, so no comma. */
  lemma FractionTail(s: string, r: nat, e: nat)
    requires r < |s| && s[r] == '.' && e == RunEnd(s, r + 1, Digit)
    ensures var t := s[r..e]; t != [] && t[0] == '.' && ',' !in t
    ensures var t := s[r..e]; forall k :: 1 <= k < |t| ==> IsDigit(t[k])
  {
    var t := s[r..e];
    RunMembers(s, r + 1, Digit);
    forall k | 1 <= k < |t| ensures IsDigit(t[k]) {
      assert t[k] == s[r + k];
    }
    forall k | 0 <= k < |t| ensures t[k] != ',' {
      assert t[k] == s[r + k];
    }
  }

  /** Removing the commas from a `[\d,]+\.?\d*` group leaves a normalised price. */
  lemma AmountWithoutCommas(s: string, i: nat, e: nat)
    requires i <= |s| && AmountEnd(s, i) == Some(e)
    ensures PriceShaped(Without(s[i..e], ','))
  {
    var r := RunEnd(s, i, DigitOrComma);
    if e == r {
      WithoutCommasOfDigits(s[i..r]);
    } else {
      FractionalAmount(s, i, r, e);
    }
  }

  /** The case of `AmountWithoutCommas` where the amount has a `.`. */
  lemma FractionalAmount(s: string, i: nat, r: nat, e: nat)
    requires i <= r < |s| && r == RunEnd(s, i, DigitOrComma) && s[r] == '.' && e == RunEnd(s, r + 1, Digit)
    ensures PriceShaped(Without(s[i..e], ','))
  {
    FractionTail(s, r, e);
    assert s[i..e] == s[i..r] + s[r..e];
    var x := s[i..r];
    RunMembers(s, i, DigitOrComma);
    assert forall k :: 0 <= k < |x| ==> InClass(x[k], DigitOrComma) by {
      forall k | 0 <= k < |x| ensures InClass(x[k], DigitOrComma) {
        assert x[k] == s[i + k];
      }
    }
    PriceOfParts(x, s[r..e]);
  }

  /** Digits and commas, then a `.` and digits: without the commas, a normalised price. */
  lemma PriceOfParts(x: string, t: string)
    requires forall k :: 0 <= k < |x| ==> InClass(x[k], DigitOrComma)
    requires t != [] && t[0] == '.' && ',' !in t
    requires forall k :: 1 <= k < |t| ==> IsDigit(t[k])
    ensures PriceShaped(Without(x + t, ','))
  {
    WithoutCommasOfDigits(x);
    WithoutAbsent(t, ',');
    WithoutConcat(x, t, ',');
    DigitsDotDigits(Without(x, ','), t);
  }

  /** A longer literal matching implies its prefix matches at the same place. */
  lemma LiteralPrefix(s: string, i: nat, long: string, short: string, fold: bool)
    requires |short| <= |long| && long[..|short|] == short && LitAt(s, i, long, fold)
    ensures LitAt(s, i, short, fold)
  {
    forall k | 0 <= k < |short| ensures CharMatch(s[i + k], short[k], fold) {
      assert short[k] == long[k];
    }
  }

  /** A case-sensitive literal match reads back as the literal itself. */
  lemma ExactLiteral(s: string, i: nat, lit: string)
    requires LitAt(s, i, lit, false)
    ensures s[i..i + |lit|] == lit
  {
  }
}
