/**
 * The parsed page as the adapters see it. A document answers the queries the adapters
 * send (`find_all`, `select`) with listing containers in document order; a container
 * is its full text and its heading descendants. The network and the HTML parser are
 * an oracle: a `Web` maps each URL to what fetching and parsing it gives.
 */
module Documents {
  import opened Options
  import opened Text

  /** A heading element (`h1` to `h6`) and its text nodes, in document order. */
  datatype Heading = Heading(level: nat, strings: seq<string>)

  /** A listing container: its `get_text()` and its heading descendants, in document order. */
  datatype Element = Element(text: string, headings: seq<Heading>)

  /** The element queries the adapters send to a parsed page. */
  datatype Query =
    | PropertyItems                 // find_all('div', class_='property_item')
    | Select(selector: string)      // select(selector)
    | AllDivs                       // find_all('div')
    | ClassMatches(pattern: string) // find_all(['div', 'article'], class_=re.compile(pattern, re.I))

  /** A parsed page: the answer to every query, and whether it has an `<a>` whose text is `Next`. */
  datatype Document = Document(select: Query -> seq<Element>, hasNextLink: bool)

  /**
   * What fetching a URL gives: no usable body (a request error, a non-2xx status or an
   * empty body), a body the parser raises on, or a parsed document.
   */
  datatype Fetch = Failed | Rejected | Parsed(doc: Document)

  datatype Web = Web(fetch: string -> Fetch)

  function Concat(parts: seq<string>): string {
    if parts == [] then "" else parts[0] + Concat(parts[1..])
  }

  /** `get_text()` of a heading. */
  function GetText(h: Heading): string {
    Concat(h.strings)
  }

  /** `get_text(strip=True)`: every text node stripped, the empty ones dropped, the rest joined. */
  function GetTextStripped(h: Heading): (r: string)
    ensures Trimmed(r)
    ensures Visible(r) == Visible(GetText(h))
  {
    ConcatOfTrimmed(KeepNonBlank(h.strings));
    StrippingNodesKeepsVisible(h.strings);
    Concat(KeepNonBlank(h.strings))
  }

  /** Joining non-empty stripped pieces gives a stripped string, empty only when there are none. */
  lemma {:induction false} ConcatOfTrimmed(parts: seq<string>)
    requires forall k :: 0 <= k < |parts| ==> parts[k] != "" && Trimmed(parts[k])
    ensures Trimmed(Concat(parts))
    ensures Concat(parts) == "" <==> parts == []
  {
    if parts != [] {
      ConcatOfTrimmed(parts[1..]);
      var rest := Concat(parts[1..]);
      var r := parts[0] + rest;
      assert r[0] == parts[0][0];
      if rest == "" {
        assert r == parts[0];
      } else {
        assert r[|r| - 1] == rest[|rest| - 1];
      }
    }
  }

  lemma {:induction false} ConcatOfCons(a: string, parts: seq<string>)
    ensures Concat([a] + parts) == a + Concat(parts)
  {
    assert ([a] + parts)[1..] == parts;
  }

  /** Stripping and dropping blank text nodes removes only blanks. */
  lemma {:induction false} StrippingNodesKeepsVisible(parts: seq<string>)
    ensures Visible(Concat(KeepNonBlank(parts))) == Visible(Concat(parts))
  {
    if parts != [] {
      StrippingNodesKeepsVisible(parts[1..]);
      var head := parts[0];
      var kept := KeepNonBlank(parts[1..]);
      VisibleOfConcat(head, Concat(parts[1..]));
      StripKeepsVisible(head);
      if Strip(head) == "" {
        assert KeepNonBlank(parts) == kept;
        assert Visible(head) == "";
      } else {
        assert KeepNonBlank(parts) == [Strip(head)] + kept;
        ConcatOfCons(Strip(head), kept);
        VisibleOfConcat(Strip(head), Concat(kept));
      }
    }
  }

  /** The first position at or after `i` whose heading is at one of the levels. */
  function HeadingIndex(hs: seq<Heading>, levels: set<nat>, i: nat): (r: Option<nat>)
    requires i <= |hs|
    ensures r.Some? ==> i <= r.value < |hs| && hs[r.value].level in levels
    ensures r.Some? ==> forall j :: i <= j < r.value ==> hs[j].level !in levels
    ensures r.None? ==> forall j :: i <= j < |hs| ==> hs[j].level !in levels
    decreases |hs| - i
  {
    if i == |hs| then None
    else if hs[i].level in levels then Some(i)
    else HeadingIndex(hs, levels, i + 1)
  }

  /** `element.find([...])`: the first heading, in document order, at one of the levels. */
  function FindHeading(e: Element, levels: set<nat>): (r: Option<Heading>)
    ensures r.Some? ==> r.value in e.headings && r.value.level in levels
    ensures r.None? <==> forall k :: 0 <= k < |e.headings| ==> e.headings[k].level !in levels
  {
    match HeadingIndex(e.headings, levels, 0)
    case None => None
    case Some(i) => Some(e.headings[i])
  }

  /** The title the adapters read: the first heading at the given levels, cleaned; "" without one. */
  function HeadingTitle(e: Element, levels: set<nat>): (r: string)
    ensures Trimmed(r) && OnlyPlainSpaces(r) && NoAdjacentSpaces(r)
    ensures r != "" <==> FindHeading(e, levels).Some? && Visible(GetText(FindHeading(e, levels).value)) != ""
    ensures FindHeading(e, levels).None? ==> r == ""
    ensures FindHeading(e, levels).Some? ==> r == JoinWords(Words(GetText(FindHeading(e, levels).value)))
  {
    match FindHeading(e, levels)
    case None => ""
    case Some(h) =>
      CleanTextJoinsWords(GetText(h));
      CleanText(GetText(h))
  }
}
