/**
 * The field extractors the adapters share: price, area, bedroom and bathroom counts,
 * location, the Atsogo category lines, the listing date and the keyword classifiers
 * of the generic adapters. Each one is a total function of the listing's text.
 */
module Extractors {
  import opened Options
  import opened Text
  import opened Patterns

  // ---------------------------------------------------------------------------
  // Price (extract_price)

  /** The eight price rules of extract_price, in the order they are tried. */
  const PricePatterns: seq<Pattern> := [
    TagThenAmount("MK", true), TagThenAmount("MWK", true), TagThenAmount("K", true),
    AmountThenTag("MK"), AmountThenTag("MWK"), AmountThenTag("K"),
    TagThenAmount("$", false), TagThenAmount("USD", true)
  ]

  /** The single, case-sensitive price rule of the standalone Atsogo scraper. */
  const MkPricePatterns: seq<Pattern> := [TagThenAmount("MK", true)]

  predicate AmountRules(ps: seq<Pattern>) {
    forall k :: 0 <= k < |ps| ==> ps[k].TagThenAmount? || ps[k].AmountThenTag?
  }

  /** The group of the first amount rule that matches, with its commas removed. */
  function AmountByRules(ps: seq<Pattern>, fold: bool, text: string): (r: string)
    requires AmountRules(ps)
    ensures PriceShaped(r)
    ensures FirstRule(ps, fold, text).None? ==> r == ""
  {
    match FirstRule(ps, fold, text)
    case None => ""
    case Some(h) =>
      AmountWithoutCommas(text, h.hit.span.lo, h.hit.span.hi);
      Without(Group(text, h.hit.span), ',')
  }

  /** extract_price: a normalised amount, or "" for empty text or when no rule matches. */
  function ExtractPrice(text: string): (r: string)
    ensures PriceShaped(r)
    ensures text == "" ==> r == ""
    ensures FirstRule(PricePatterns, true, text).None? ==> r == ""
  {
    if text == "" then "" else AmountByRules(PricePatterns, true, text)
  }

  /** The pattern loop of extract_price: try the rules in order, return the first hit without its commas. */
  method FindPrice(text: string) returns (price: string)
    ensures price == ExtractPrice(text)
  {
    if text == "" {
      return "";
    }
    for k := 0 to |PricePatterns|
      invariant forall j :: 0 <= j < k ==> Search(PricePatterns[j], true, text).None?
    {
      var m := Search(PricePatterns[k], true, text);
      if m.Some? {
        FirstGroupIsEarliestRule(PricePatterns, true, text, k);
        return Without(Group(text, m.value.span), ',');
      }
    }
    return "";
  }

  /**
   * The price comes from the earliest rule that matches anywhere in the text, at that
   * rule's leftmost match, whatever later rules would have matched before it.
   */
  lemma PriceFromEarliestRule(text: string, k: nat)
    requires k < |PricePatterns| && Search(PricePatterns[k], true, text).Some?
    requires forall j :: 0 <= j < k ==> Search(PricePatterns[j], true, text).None?
    ensures ExtractPrice(text) == Without(Group(text, Search(PricePatterns[k], true, text).value.span), ',')
  {
    FirstGroupIsEarliestRule(PricePatterns, true, text, k);
  }

  /** The price kept by the standalone Atsogo scraper (`MK` only, case-sensitive). */
  function MkPrice(text: string): (r: string)
    ensures PriceShaped(r)
    ensures Search(MkPricePatterns[0], false, text).None? ==> r == ""
  {
    AmountByRules(MkPricePatterns, false, text)
  }

  /** A case-sensitive `MK` amount anywhere gives the standalone price: its leftmost one, without commas. */
  lemma MkPriceOfMatch(text: string)
    requires Search(MkPricePatterns[0], false, text).Some?
    ensures MkPrice(text) == Without(Group(text, Search(MkPricePatterns[0], false, text).value.span), ',')
  {
    FirstGroupIsEarliestRule(MkPricePatterns, false, text, 0);
  }

  // ---------------------------------------------------------------------------
  // Area and room counts (extract_area, extract_bedrooms_bathrooms)

  const AreaPatterns: seq<Pattern> := [
    CountThenUnit(["sqm"]), CountThenUnit(["m\U{B2}"]), CountThenUnit(["square", "meters"]),
    CountThenUnit(["hectares"]), CountThenUnit(["ha"])
  ]

  /** The single, case-sensitive area rule of the standalone Atsogo scraper. */
  const SqmPatterns: seq<Pattern> := [CountThenUnit(["sqm"])]

  /** `beds?` matches wherever `bed` does, and captures the same digits. */
  const BedPatterns: seq<Pattern> := [CountThenUnit(["bed"]), CountThenUnit(["bedroom"])]

  const BathPatterns: seq<Pattern> := [
    CountThenUnit(["bath"]), CountThenUnit(["bathroom"]), CountThenUnit(["shower"])
  ]

  predicate CountRules(ps: seq<Pattern>) {
    forall k :: 0 <= k < |ps| ==> ps[k].CountThenUnit?
  }

  predicate NoRuleMatches(ps: seq<Pattern>, fold: bool, text: string) {
    forall k :: 0 <= k < |ps| ==> Search(ps[k], fold, text).None?
  }

  /** The digits captured by the first count rule that matches, or "". */
  function CountByRules(ps: seq<Pattern>, fold: bool, text: string): (r: string)
    requires CountRules(ps)
    ensures EmptyOrDigits(r)
    ensures r == "" <==> NoRuleMatches(ps, fold, text)
  {
    match FirstRule(ps, fold, text)
    case None => ""
    case Some(h) =>
      assert ps[h.rule].CountThenUnit?;
      Group(text, h.hit.span)
  }

  /** extract_area: the digits before the first unit rule that matches, or "". */
  function ExtractArea(text: string): (r: string)
    ensures EmptyOrDigits(r)
    ensures r == "" <==> NoRuleMatches(AreaPatterns, true, text)
  {
    if text == "" then "" else CountByRules(AreaPatterns, true, text)
  }

  /**
   * The count comes from the earliest rule that matches anywhere: rule `k`'s leftmost
   * digits when no rule before it matches.
   */
  lemma CountFromEarliestRule(ps: seq<Pattern>, fold: bool, text: string, k: nat)
    requires CountRules(ps) && k < |ps| && Search(ps[k], fold, text).Some?
    requires forall j :: 0 <= j < k ==> Search(ps[j], fold, text).None?
    ensures CountByRules(ps, fold, text) == Group(text, Search(ps[k], fold, text).value.span)
  {
    FirstGroupIsEarliestRule(ps, fold, text, k);
  }

  /** extract_area takes the digits of the earliest unit rule that matches: `sqm` before `m²` before the rest. */
  lemma AreaFromEarliestRule(text: string, k: nat)
    requires k < |AreaPatterns| && Search(AreaPatterns[k], true, text).Some?
    requires forall j :: 0 <= j < k ==> Search(AreaPatterns[j], true, text).None?
    ensures ExtractArea(text) == Group(text, Search(AreaPatterns[k], true, text).value.span)
  {
    CountFromEarliestRule(AreaPatterns, true, text, k);
  }

  /** extract_area: "" on an empty text, else the first-match-wins loop over the unit rules. */
  method FindArea(text: string) returns (area: string)
    ensures area == ExtractArea(text)
  {
    if text == "" {
      return "";
    }
    area := FirstCount(AreaPatterns, text);
  }

  /** The area kept by the standalone Atsogo scraper (`sqm` only, case-sensitive). */
  function SqmArea(text: string): (r: string)
    ensures EmptyOrDigits(r)
    ensures r == "" <==> Search(SqmPatterns[0], false, text).None?
  {
    CountByRules(SqmPatterns, false, text)
  }

  /** What extract_bedrooms_bathrooms returns. */
  function BedroomsBathrooms(text: string): (r: (string, string))
    ensures EmptyOrDigits(r.0) && EmptyOrDigits(r.1)
    ensures r.0 == "" <==> NoRuleMatches(BedPatterns, true, text)
    ensures r.1 == "" <==> NoRuleMatches(BathPatterns, true, text)
  {
    if text == "" then ("", "")
    else (CountByRules(BedPatterns, true, text), CountByRules(BathPatterns, true, text))
  }

  /** One of the two loops of extract_bedrooms_bathrooms: try the rules in order, stop at the first hit. */
  method FirstCount(ps: seq<Pattern>, text: string) returns (count: string)
    requires CountRules(ps)
    ensures count == CountByRules(ps, true, text)
  {
    count := "";
    for k := 0 to |ps|
      invariant count == ""
      invariant forall j :: 0 <= j < k ==> Search(ps[j], true, text).None?
    {
      var m := Search(ps[k], true, text);
      if m.Some? {
        count := Group(text, m.value.span);
        FirstGroupIsEarliestRule(ps, true, text, k);
        break;
      }
    }
  }

  /** extract_bedrooms_bathrooms: "" for both on an empty text, else the two first-match-wins loops. */
  method ExtractBedroomsBathrooms(text: string) returns (bedrooms: string, bathrooms: string)
    ensures (bedrooms, bathrooms) == BedroomsBathrooms(text)
  {
    bedrooms, bathrooms := "", "";
    if text == "" {
      return;
    }
    bedrooms := FirstCount(BedPatterns, text);
    bathrooms := FirstCount(BathPatterns, text);
  }

  /** A unit word that extends another never matches where the shorter one does not. */
  lemma LongerUnitImpliesShorter(text: string, long: string, short: string, i: nat)
    requires |short| <= |long| && long[..|short|] == short
    requires MatchAt(CountThenUnit([long]), true, text, i).Some?
    ensures MatchAt(CountThenUnit([short]), true, text, i) == MatchAt(CountThenUnit([long]), true, text, i)
  {
    var e := RunEnd(text, i, Digit);
    var k := RunEnd(text, e, Space);
    assert UnitsAt(text, e, [long], true);
    assert LitAt(text, k, long, true);
    LiteralPrefix(text, k, long, short, true);
    assert UnitsAt(text, k + |short|, [short][1..], true);
    assert UnitsAt(text, e, [short], true);
  }

  /** A rule whose unit extends an earlier rule's unit is never the one that decides. */
  lemma ShadowedRule(ps: seq<Pattern>, text: string, a: nat, b: nat)
    requires a < b < |ps| && ps[a].CountThenUnit? && ps[b].CountThenUnit?
    requires |ps[a].words| == 1 && |ps[b].words| == 1
    requires |ps[a].words[0]| <= |ps[b].words[0]| && ps[b].words[0][..|ps[a].words[0]|] == ps[a].words[0]
    ensures FirstRule(ps, true, text).Some? ==> FirstRule(ps, true, text).value.rule != b
  {
    var r := FirstRule(ps, true, text);
    if r.Some? && r.value.rule == b {
      var p := r.value.hit.pos;
      assert ps[a] == CountThenUnit([ps[a].words[0]]);
      assert ps[b] == CountThenUnit([ps[b].words[0]]);
      LongerUnitImpliesShorter(text, ps[b].words[0], ps[a].words[0], p);
      assert false;
    }
  }

  /** `bedrooms?` never decides: wherever it matches, `beds?` already did. */
  lemma BedroomRuleNeverDecides(text: string)
    ensures FirstRule(BedPatterns, true, text).Some? ==> FirstRule(BedPatterns, true, text).value.rule == 0
  {
    ShadowedRule(BedPatterns, text, 0, 1);
  }

  /** `bathrooms?` never decides: wherever it matches, `baths?` already did. */
  lemma BathroomRuleNeverDecides(text: string)
    ensures FirstRule(BathPatterns, true, text).Some? ==> FirstRule(BathPatterns, true, text).value.rule != 1
  {
    ShadowedRule(BathPatterns, text, 0, 1);
  }

  // ---------------------------------------------------------------------------
  // The "4 5 Bathroom" rule and the listing date (Atsogo)

  /** `(\d+)\s+(\d+)\s+Bathroom`: both counts, or neither. */
  function CombinedBedBath(text: string): (r: Option<(string, string)>)
    ensures r.Some? ==> r.value.0 != "" && AllDigits(r.value.0) && r.value.1 != "" && AllDigits(r.value.1)
    ensures r.None? <==> forall i :: PairAt(text, i).None?
  {
    match LeftmostPairFrom(text, 0)
    case None => None
    case Some(i) =>
      var m := PairAt(text, i).value;
      Some((Group(text, m.0), Group(text, m.1)))
  }

  /** The listing date: a `YYYY-MM-DD HH:MM:SS` stamp, or "". */
  function DatePosted(text: string): (r: string)
    ensures r == "" || IsTimestamp(r)
    ensures r != "" <==> Search(Timestamp, false, text).Some?
  {
    match Search(Timestamp, false, text)
    case None => ""
    case Some(h) => Group(text, h.span)
  }

  /** The pair the rule reports is the two counts of its leftmost match. */
  lemma CombinedBedBathAtLeftmost(text: string, i: nat)
    requires PairAt(text, i).Some? && forall j :: 0 <= j < i ==> PairAt(text, j).None?
    ensures CombinedBedBath(text) == Some((Group(text, PairAt(text, i).value.0), Group(text, PairAt(text, i).value.1)))
  {
    var l := LeftmostPairFrom(text, 0);
    assert l.Some? && l.value == i;
  }

  /** The date is the text of the leftmost stamp. */
  lemma DatePostedAtLeftmost(text: string, p: nat)
    requires MatchAt(Timestamp, false, text, p).Some?
    requires forall j :: 0 <= j < p ==> MatchAt(Timestamp, false, text, j).None?
    ensures DatePosted(text) == Group(text, MatchAt(Timestamp, false, text, p).value)
  {
    var h := Search(Timestamp, false, text);
    assert h.Some? && h.value.pos == p;
  }

  // ---------------------------------------------------------------------------
  // Location

  /** The town names of the generic adapters, tried case-insensitively in this order. */
  const Towns: seq<string> := [
    "Blantyre", "Lilongwe", "Mzuzu", "Zomba", "Limbe", "Mangochi", "Salima", "Nkhotakota",
    "Mchinji", "Dowa", "Dedza", "Ntcheu", "Ntchisi", "Nkhatabay", "Rumphi", "Chitipa",
    "Karonga", "Kasungu", "Machinga", "Mulanje", "Thyolo", "Chikwawa", "Nsanje", "Chirazulu",
    "Balaka", "Neno"
  ]

  /** The upper-case district names of the Atsogo adapters, split where one copy repeats a name. */
  const UpperTownsHead: seq<string> := [
    "LILONGWE", "BLANTYRE", "SALIMA", "NKHOTAKOTA", "MZIMBA", "MZUZU", "ZOMBA", "THYOLO",
    "RUMPHI", "NENO", "NKHATABAY"
  ]
  const UpperTownsTail: seq<string> := [
    "NTCHISI", "NTCHEU", "NSANJE", "MCHINJI", "MULANJE", "MANGOCHI", "MACHINGA", "LIWONDE",
    "KARONGA", "KASUNGU", "DOWA", "DEDZA", "CHIRADZULU", "CHIKWAWA", "CHITIPA", "BALAKA"
  ]

  /** The alternation of the Atsogo adapter inside the aggregators. */
  const UpperTowns: seq<string> := UpperTownsHead + UpperTownsTail

  /** The alternation of the standalone Atsogo scraper: NKHOTAKOTA appears twice. */
  const UpperTownsRepeated: seq<string> := UpperTownsHead + ["NKHOTAKOTA"] + UpperTownsTail

  /** A name made of letters only. */
  predicate Word(n: string) {
    n != "" && forall c :: c in n ==> IsLetter(c)
  }

  predicate AllWords(ns: seq<string>) {
    forall n :: n in ns ==> Word(n)
  }

  // The district lists are checked a few names at a time.

  lemma TownsAreWords0()
    ensures forall k :: 0 <= k < 9 ==> Word(Towns[k])
  {
    forall k | 0 <= k < 9 ensures Word(Towns[k]) {
    }
  }

  lemma TownsAreWords9()
    ensures forall k :: 9 <= k < 18 ==> Word(Towns[k])
  {
    forall k | 9 <= k < 18 ensures Word(Towns[k]) {
    }
  }

  lemma TownsAreWords18()
    ensures forall k :: 18 <= k < |Towns| ==> Word(Towns[k])
  {
    forall k | 18 <= k < |Towns| ensures Word(Towns[k]) {
    }
  }

  lemma TownsAreWords()
    ensures AllWords(Towns)
  {
    TownsAreWords0();
    TownsAreWords9();
    TownsAreWords18();
  }

  lemma UpperHeadAreWords()
    ensures forall k :: 0 <= k < |UpperTownsHead| ==> Word(UpperTownsHead[k])
  {
    forall k | 0 <= k < |UpperTownsHead| ensures Word(UpperTownsHead[k]) {
    }
  }

  lemma UpperTailAreWords0()
    ensures forall k :: 0 <= k < 8 ==> Word(UpperTownsTail[k])
  {
    forall k | 0 <= k < 8 ensures Word(UpperTownsTail[k]) {
    }
  }

  lemma UpperTailAreWords8()
    ensures forall k :: 8 <= k < |UpperTownsTail| ==> Word(UpperTownsTail[k])
  {
    forall k | 8 <= k < |UpperTownsTail| ensures Word(UpperTownsTail[k]) {
    }
  }

  lemma UpperTownsAreWords()
    ensures AllWords(UpperTowns) && AllWords(UpperTownsRepeated)
  {
    UpperHeadAreWords();
    UpperTailAreWords0();
    UpperTailAreWords8();
  }

  /** An alternative repeated after its first copy is never the one chosen. */
  lemma {:induction false} RepeatedNameIgnored(s: string, i: nat, a: seq<string>, n: string, b: seq<string>, fold: bool)
    requires n in a
    ensures FirstNameAt(s, i, a + [n] + b, fold) == FirstNameAt(s, i, a + b, fold)
    decreases |a|
  {
    assert (a + [n] + b)[0] == (a + b)[0] == a[0];
    if a[0] != n {
      assert (a + [n] + b)[1..] == a[1..] + [n] + b;
      assert (a + b)[1..] == a[1..] + b;
      RepeatedNameIgnored(s, i, a[1..], n, b, fold);
    } else if !LitAt(s, i, n, fold) {
      assert (a + [n] + b)[1..] == a[1..] + [n] + b;
      assert (a + b)[1..] == a[1..] + b;
      if n in a[1..] {
        RepeatedNameIgnored(s, i, a[1..], n, b, fold);
      } else {
        assert FirstNameAt(s, i, a + [n] + b, fold) == FirstNameAt(s, i, a[1..] + [n] + b, fold);
        NotMatchingNameIgnored(s, i, a[1..], n, b, fold);
      }
    }
  }

  /** An alternative that does not fit at `i` can be dropped from the list. */
  lemma {:induction false} NotMatchingNameIgnored(s: string, i: nat, a: seq<string>, n: string, b: seq<string>, fold: bool)
    requires !LitAt(s, i, n, fold)
    ensures FirstNameAt(s, i, a + [n] + b, fold) == FirstNameAt(s, i, a + b, fold)
    decreases |a|
  {
    var xs, ys := a + [n] + b, a + b;
    if a == [] {
      assert xs[0] == n && xs[1..] == b == ys;
    } else {
      assert xs[0] == a[0] == ys[0];
      assert xs[1..] == a[1..] + [n] + b;
      assert ys[1..] == a[1..] + b;
      NotMatchingNameIgnored(s, i, a[1..], n, b, fold);
    }
  }

  lemma SameFirstNameSameMatch(s: string, i: nat, x: seq<string>, y: seq<string>, fold: bool)
    requires FirstNameAt(s, i, x, fold) == FirstNameAt(s, i, y, fold)
    ensures MatchAt(AnyName(x), fold, s, i) == MatchAt(AnyName(y), fold, s, i)
  {
  }

  /** The repeated NKHOTAKOTA changes nothing: both alternations find the same match. */
  lemma RepeatedTownIgnored(text: string)
    ensures Search(AnyName(UpperTownsRepeated), false, text) == Search(AnyName(UpperTowns), false, text)
  {
    assert "NKHOTAKOTA" in UpperTownsHead;
    forall j | 0 <= j < |text|
      ensures MatchAt(AnyName(UpperTownsRepeated), false, text, j) == MatchAt(AnyName(UpperTowns), false, text, j)
    {
      RepeatedNameIgnored(text, j, UpperTownsHead, "NKHOTAKOTA", UpperTownsTail, false);
      SameFirstNameSameMatch(text, j, UpperTownsRepeated, UpperTowns, false);
    }
    SameMatchesSameSearch(AnyName(UpperTownsRepeated), AnyName(UpperTowns), false, text);
  }

  /** Where `[^,\n]*` that starts at `i` stops. */
  function FieldEnd(s: string, i: nat): (e: nat)
    requires i <= |s|
    ensures i <= e <= |s| && (e == |s| || s[e] == ',' || s[e] == '\n')
    ensures forall k :: i <= k < e ==> s[k] != ',' && s[k] != '\n'
    decreases |s| - i
  {
    if i == |s| || s[i] == ',' || s[i] == '\n' then i else FieldEnd(s, i + 1)
  }

  /** A field that starts with a name stays non-empty after stripping and still starts with it. */
  lemma StripKeepsLeadingWord(g: string, n: string)
    requires Word(n) && LitAt(g, 0, n, true)
    ensures LitAt(Strip(g), 0, n, true)
  {
    var p := StripSpan(g);
    assert n[0] in n && n[|n| - 1] in n;
    LetterMatchedByLetter(g[0], n[0], true);
    LetterMatchedByLetter(g[|n| - 1], n[|n| - 1], true);
    assert p.0 == 0;
    assert p.1 >= |n|;
    var r := Strip(g);
    forall k | 0 <= k < |n| ensures CharMatch(r[k], n[k], true) {
      assert r[k] == g[k];
    }
  }

  /** The field that starts with a name at `pos`, up to a comma or line break, stripped. */
  lemma TownField(text: string, pos: nat, n: string)
    requires Word(n) && LitAt(text, pos, n, true)
    ensures pos <= FieldEnd(text, pos)
    ensures var r := Strip(text[pos..FieldEnd(text, pos)]); ',' !in r && '\n' !in r && LitAt(r, 0, n, true)
  {
    var e := FieldEnd(text, pos);
    assert e >= pos + |n| by {
      if e < pos + |n| {
        assert n[e - pos] in n;
        LetterMatchedByLetter(text[e], n[e - pos], true);
      }
    }
    var g := text[pos..e];
    assert LitAt(g, 0, n, true) by {
      forall k | 0 <= k < |n| ensures CharMatch(g[k], n[k], true) {
        assert g[k] == text[pos + k];
      }
    }
    StripKeepsLeadingWord(g, n);
    var r := Strip(g);
    forall k | 0 <= k < |r| ensures r[k] != ',' && r[k] != '\n' {
      assert r[k] == g[StripSpan(g).0 + k] == text[pos + StripSpan(g).0 + k];
    }
  }

  /**
   * The location of the generic adapters: from the leftmost town name to the next
   * comma or line break, stripped; "" when no town is named.
   */
  function KeywordLocation(text: string): (r: string)
    ensures Trimmed(r) && ',' !in r && '\n' !in r
    ensures r != "" <==> Search(AnyName(Towns), true, text).Some?
    ensures r != "" ==> exists n :: n in Towns && LitAt(r, 0, n, true)
  {
    match Search(AnyName(Towns), true, text)
    case None => ""
    case Some(h) =>
      var n :| n in Towns && LitAt(text, h.pos, n, true) && h.span.hi == h.pos + |n|;
      TownsAreWords();
      TownField(text, h.pos, n);
      Strip(text[h.pos..FieldEnd(text, h.pos)])
  }

  /** The generic location is the field at the leftmost town name; no town is named before it. */
  lemma KeywordLocationAtLeftmostTown(text: string, h: Hit)
    requires Search(AnyName(Towns), true, text) == Some(h)
    ensures forall j :: 0 <= j < h.pos ==> MatchAt(AnyName(Towns), true, text, j).None?
    ensures h.pos <= FieldEnd(text, h.pos) && KeywordLocation(text) == Strip(text[h.pos..FieldEnd(text, h.pos)])
  {
  }

  /** The first line that contains `w`, or "". */
  function FirstLineWith(lines: seq<string>, w: string): (r: string)
    requires forall k :: 0 <= k < |lines| ==> lines[k] != ""
    ensures r != "" ==> r in lines && Contains(r, w)
    ensures r == "" <==> forall k :: 0 <= k < |lines| ==> !Contains(lines[k], w)
  {
    if lines == [] then ""
    else if Contains(lines[0], w) then lines[0]
    else FirstLineWith(lines[1..], w)
  }

  /** The line loop of the Atsogo location: the first line that contains `w`, or "" when none does. */
  method FindLineWith(lines: seq<string>, w: string) returns (location: string)
    requires forall k :: 0 <= k < |lines| ==> lines[k] != ""
    ensures location == FirstLineWith(lines, w)
  {
    for k := 0 to |lines|
      invariant FirstLineWith(lines, w) == FirstLineWith(lines[k..], w)
    {
      if Contains(lines[k], w) {
        return lines[k];
      }
      assert lines[k..][1..] == lines[k + 1..];
    }
    return "";
  }

  /**
   * The Atsogo location: the first non-blank stripped line that contains the district
   * name found (case-sensitively) in the text; "" when no district is named.
   */
  function AtsogoLocation(text: string, towns: seq<string>): (r: string)
    requires AllWords(towns)
    ensures r != "" <==> Search(AnyName(towns), false, text).Some?
    ensures r != "" ==> r in NonBlankLines(text) && exists n :: n in towns && Contains(r, n)
  {
    match Search(AnyName(towns), false, text)
    case None => ""
    case Some(h) =>
      MatchedTownInLine(text, towns, h);
      FirstLineWith(NonBlankLines(text), Group(text, h.span))
  }

  /** FirstLineWith gives line `k` when it is the first that contains `w`. */
  lemma {:induction false} FirstLineWithAt(lines: seq<string>, w: string, k: nat)
    requires forall j :: 0 <= j < |lines| ==> lines[j] != ""
    requires k < |lines| && Contains(lines[k], w)
    requires forall j :: 0 <= j < k ==> !Contains(lines[j], w)
    ensures FirstLineWith(lines, w) == lines[k]
    decreases k
  {
    if k > 0 {
      assert lines[1..][k - 1] == lines[k];
      FirstLineWithAt(lines[1..], w, k - 1);
    }
  }

  /** The Atsogo location is the first non-blank line that contains the district name matched. */
  lemma AtsogoLocationIsFirstLine(text: string, towns: seq<string>, h: Hit, k: nat)
    requires AllWords(towns) && Search(AnyName(towns), false, text) == Some(h)
    requires k < |NonBlankLines(text)| && Contains(NonBlankLines(text)[k], Group(text, h.span))
    requires forall j :: 0 <= j < k ==> !Contains(NonBlankLines(text)[j], Group(text, h.span))
    ensures AtsogoLocation(text, towns) == NonBlankLines(text)[k]
  {
    FirstLineWithAt(NonBlankLines(text), Group(text, h.span), k);
  }

  /** The text a match of a district alternation captures is one of the names, and some non-blank line contains it. */
  lemma MatchedTownInLine(text: string, towns: seq<string>, h: Hit)
    requires AllWords(towns) && Search(AnyName(towns), false, text) == Some(h)
    ensures Group(text, h.span) in towns
    ensures exists k :: 0 <= k < |NonBlankLines(text)| && Contains(NonBlankLines(text)[k], Group(text, h.span))
  {
    var n :| n in towns && LitAt(text, h.pos, n, false) && h.span.hi == h.pos + |n|;
    ExactLiteral(text, h.pos, n);
    assert Group(text, h.span) == n;
    assert forall k :: 0 <= k < |n| ==> !IsSpace(n[k]) by {
      forall k | 0 <= k < |n| ensures !IsSpace(n[k]) {
        assert n[k] in n;
      }
    }
    var lines := NonBlankLines(text);
    var line := WordInSomeLine(text, n, h.pos);
    var k :| 0 <= k < |lines| && lines[k] == line;
  }

  // ---------------------------------------------------------------------------
  // Atsogo category lines

  const PropertyTypes: seq<string> := ["Plot", "Complete House", "Land", "Commercial Property", "Incompleted House"]
  const TransactionTypes: seq<string> := ["For Sale", "For rent"]

  /** The first line at or after `i` that is exactly a property type. */
  function FirstTypeLine(lines: seq<string>, i: nat): (r: Option<nat>)
    requires i <= |lines|
    ensures r.Some? ==> i <= r.value < |lines| && lines[r.value] in PropertyTypes
    ensures r.Some? ==> forall j :: i <= j < r.value ==> lines[j] !in PropertyTypes
    ensures r.None? ==> forall j :: i <= j < |lines| ==> lines[j] !in PropertyTypes
    decreases |lines| - i
  {
    if i == |lines| then None
    else if lines[i] in PropertyTypes then Some(i)
    else FirstTypeLine(lines, i + 1)
  }

  /** The (property type, transaction type) pair read from the listing's lines. */
  function Categorize(lines: seq<string>): (r: (string, string))
    ensures r.0 == "" || r.0 in PropertyTypes
    ensures r.1 == "" || r.1 in TransactionTypes
    ensures r.1 != "" ==> r.0 != ""
    ensures r.0 == "" <==> forall k :: 0 <= k < |lines| ==> lines[k] !in PropertyTypes
  {
    match FirstTypeLine(lines, 0)
    case None => ("", "")
    case Some(i) =>
      (lines[i], if i + 1 < |lines| && lines[i + 1] in TransactionTypes then lines[i + 1] else "")
  }

  /** The category loop of the Atsogo reader: stop at the first type line and look at the line after it. */
  method FindCategory(lines: seq<string>) returns (propertyType: string, transactionType: string)
    ensures (propertyType, transactionType) == Categorize(lines)
  {
    propertyType, transactionType := "", "";
    for i := 0 to |lines|
      invariant FirstTypeLine(lines, 0) == FirstTypeLine(lines, i)
    {
      if lines[i] in PropertyTypes {
        propertyType := lines[i];
        if i + 1 < |lines| && lines[i + 1] in TransactionTypes {
          transactionType := lines[i + 1];
        }
        return;
      }
    }
  }

  /**
   * The category is the first line that names a property type, and the transaction
   * type is read only from the line right after it.
   */
  lemma CategoryFromFirstTypeLine(lines: seq<string>, i: nat)
    requires i < |lines| && lines[i] in PropertyTypes
    requires forall j :: 0 <= j < i ==> lines[j] !in PropertyTypes
    ensures Categorize(lines).0 == lines[i]
    ensures Categorize(lines).1 == if i + 1 < |lines| && lines[i + 1] in TransactionTypes then lines[i + 1] else ""
  {
    var f := FirstTypeLine(lines, 0);
    assert f.Some?;
  }

  // ---------------------------------------------------------------------------
  // Keyword classifiers of the generic adapters

  /**
   * The transaction rule: "rent" (or, when `letMeansRent`, "let") anywhere in the
   * lower-cased text means "For Rent"; otherwise "sale" means "For Sale".
   */
  function KeywordTransaction(text: string, letMeansRent: bool): (r: string)
    ensures r == "" || r == "For Rent" || r == "For Sale"
    ensures r == "For Rent" <==> Contains(Lower(text), "rent") || (letMeansRent && Contains(Lower(text), "let"))
    ensures r == "For Sale" <==> !Contains(Lower(text), "rent") && !(letMeansRent && Contains(Lower(text), "let")) && Contains(Lower(text), "sale")
  {
    var low := Lower(text);
    if Contains(low, "rent") || (letMeansRent && Contains(low, "let")) then "For Rent"
    else if Contains(low, "sale") then "For Sale"
    else ""
  }

  const ResidentialWords: seq<string> := ["house", "home", "residential"]
  const CommercialWords: seq<string> := ["commercial", "office", "shop", "warehouse"]
  const LandWords: seq<string> := ["plot", "land"]

  /** The property-type rule: residential words beat commercial ones, which beat land. */
  function KeywordPropertyType(text: string): (r: string)
    ensures r == "" || r == "Residential" || r == "Commercial" || r == "Land"
    ensures r == "Residential" <==> ContainsAny(Lower(text), ResidentialWords)
    ensures r == "Commercial" <==> !ContainsAny(Lower(text), ResidentialWords) && ContainsAny(Lower(text), CommercialWords)
    ensures r == "Land" <==> !ContainsAny(Lower(text), ResidentialWords) && !ContainsAny(Lower(text), CommercialWords) && ContainsAny(Lower(text), LandWords)
  {
    var low := Lower(text);
    if ContainsAny(low, ResidentialWords) then "Residential"
    else if ContainsAny(low, CommercialWords) then "Commercial"
    else if ContainsAny(low, LandWords) then "Land"
    else ""
  }

  lemma LowerConcat(a: string, b: string)
    ensures Lower(a + b) == Lower(a) + Lower(b)
  {
  }

  lemma ContainsExtends(a: string, b: string, w: string)
    requires Contains(a, w)
    ensures Contains(a + b, w)
  {
    var j: nat :| OccursAt(a, w, j);
    assert (a + b)[j..j + |w|] == a[j..j + |w|];
    assert OccursAt(a + b, w, j);
  }

  /**
   * More text never turns a rental into a sale: once the words that mean "For Rent"
   * appear, no continuation of the listing's text changes the verdict.
   */
  lemma RentVerdictIsStable(text: string, more: string, letMeansRent: bool)
    requires KeywordTransaction(text, letMeansRent) == "For Rent"
    ensures KeywordTransaction(text + more, letMeansRent) == "For Rent"
  {
    LowerConcat(text, more);
    if Contains(Lower(text), "rent") {
      ContainsExtends(Lower(text), Lower(more), "rent");
    } else {
      ContainsExtends(Lower(text), Lower(more), "let");
    }
  }

  /**
   * The two transaction rules disagree exactly when "let" appears without "rent": the
   * SGW rule then says "For Rent" and the Nyumba24 rule reads "sale" or nothing.
   */
  lemma TransactionRulesDisagreeOnLet(text: string)
    ensures KeywordTransaction(text, true) != KeywordTransaction(text, false)
        <==> Contains(Lower(text), "let") && !Contains(Lower(text), "rent")
    ensures KeywordTransaction(text, true) != KeywordTransaction(text, false) ==> KeywordTransaction(text, true) == "For Rent"
  {
  }

  /** Word lists of the type rule, as a listing grows, keep a residential verdict. */
  lemma ResidentialVerdictIsStable(text: string, more: string)
    requires KeywordPropertyType(text) == "Residential"
    ensures KeywordPropertyType(text + more) == "Residential"
  {
    LowerConcat(text, more);
    var w :| w in ResidentialWords && Contains(Lower(text), w);
    ContainsExtends(Lower(text), Lower(more), w);
  }
}
