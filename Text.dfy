/**
 * Character classes and the string operations the scrapers rely on:
 * `str.strip()`, `re.sub(r'\s+', ' ', ...)` (clean_text), `str.split('\n')`,
 * `str.lower()`, substring tests (`w in s`), `str.replace(',', '')` and `str(n)`.
 *
 * Case folding is ASCII only and `\d` is the ASCII digits; whitespace is the full
 * set Python's `str.isspace()` (and so `\s` and `strip()`) recognises.
 */
module Text {
  import opened Options

  /** Python's whitespace: what `\s`, `str.strip()` and `str.split()` treat as blank. */
  predicate IsSpace(c: char) {
    ('\t' <= c <= '\r') || ('\U{1C}' <= c <= ' ') || c == '\U{85}' || c == '\U{A0}'
    || c == '\U{1680}' || ('\U{2000}' <= c <= '\U{200A}') || c == '\U{2028}' || c == '\U{2029}'
    || c == '\U{202F}' || c == '\U{205F}' || c == '\U{3000}'
  }

  predicate IsDigit(c: char) { '0' <= c <= '9' }

  predicate IsUpper(c: char) { 'A' <= c <= 'Z' }

  predicate IsLetter(c: char) { IsUpper(c) || 'a' <= c <= 'z' }

  predicate AllDigits(s: string) { forall k :: 0 <= k < |s| ==> IsDigit(s[k]) }

  /** A field that is either unset or a non-empty run of decimal digits. */
  predicate EmptyOrDigits(s: string) { s == "" || AllDigits(s) }

  function LowerChar(c: char): char {
    if IsUpper(c) then (c as int + 32) as char else c
  }

  /** `str.lower()`, restricted to ASCII letters. */
  function Lower(s: string): (r: string)
    ensures |r| == |s|
  {
    seq(|s|, k requires 0 <= k < |s| => LowerChar(s[k]))
  }

  /** One character of a literal, compared with or without IGNORECASE. */
  predicate CharMatch(c: char, p: char, fold: bool) {
    if fold then LowerChar(c) == LowerChar(p) else c == p
  }

  /** The literal `lit` occurs in `s` at index `i`. */
  predicate LitAt(s: string, i: nat, lit: string, fold: bool) {
    i + |lit| <= |s| && forall k :: 0 <= k < |lit| ==> CharMatch(s[i + k], lit[k], fold)
  }

  /** A letter is matched, with or without folding, only by a letter. */
  lemma LetterMatchedByLetter(c: char, p: char, fold: bool)
    requires IsLetter(p) && CharMatch(c, p, fold)
    ensures IsLetter(c)
  {
  }

  // ---------------------------------------------------------------------------
  // Greedy character runs

  datatype CharClass = Space | NonSpace | Digit | DigitOrComma

  predicate InClass(c: char, cls: CharClass) {
    match cls
    case Space => IsSpace(c)
    case NonSpace => !IsSpace(c)
    case Digit => IsDigit(c)
    case DigitOrComma => IsDigit(c) || c == ','
  }

  /** Where a greedy `cls*` that starts at `i` stops: the end of the longest run. */
  function RunEnd(s: string, i: nat, cls: CharClass): (e: nat)
    requires i <= |s|
    ensures i <= e <= |s|
    ensures forall k {:trigger InClass(s[k], cls)} :: i <= k < e ==> InClass(s[k], cls)
    ensures e == |s| || !InClass(s[e], cls)
    decreases |s| - i
  {
    if i < |s| && InClass(s[i], cls) then RunEnd(s, i + 1, cls) else i
  }

  /** Every character of the run `RunEnd` finds is in the class, one index at a time. */
  lemma RunMembers(s: string, i: nat, cls: CharClass)
    requires i <= |s|
    ensures forall k :: i <= k < RunEnd(s, i, cls) ==> InClass(s[k], cls)
  {
  }

  /** Text appended after the run does not move its end, unless it continues the run. */
  lemma {:induction false} RunEndOfConcat(x: string, b: string, i: nat, cls: CharClass)
    requires i <= |x| && (b == [] || !InClass(b[0], cls))
    ensures RunEnd(x + b, i, cls) == RunEnd(x, i, cls)
    decreases |x| - i
  {
    if i < |x| {
      assert (x + b)[i] == x[i];
      RunEndOfConcat(x, b, i + 1, cls);
    } else if b != [] {
      assert (x + b)[i] == b[0];
    }
  }

  /** A string entirely in the class is one run. */
  lemma {:induction false} RunEndOfFullRun(s: string, i: nat, cls: CharClass)
    requires i <= |s| && forall k :: i <= k < |s| ==> InClass(s[k], cls)
    ensures RunEnd(s, i, cls) == |s|
    decreases |s| - i
  {
    if i < |s| {
      RunEndOfFullRun(s, i + 1, cls);
    }
  }

  // ---------------------------------------------------------------------------
  // Substrings

  predicate OccursAt(s: string, w: string, i: nat) {
    i + |w| <= |s| && s[i..i + |w|] == w
  }

  /** The leftmost occurrence of `w` in `s` at or after `i`. */
  function FindFrom(s: string, w: string, i: nat): (r: Option<nat>)
    requires i <= |s|
    ensures r.Some? ==> i <= r.value && OccursAt(s, w, r.value)
    ensures r.Some? ==> forall j :: i <= j < r.value ==> !OccursAt(s, w, j)
    ensures r.None? ==> forall j :: i <= j ==> !OccursAt(s, w, j)
    decreases |s| - i
  {
    if OccursAt(s, w, i) then Some(i) else if i == |s| then None else FindFrom(s, w, i + 1)
  }

  /** Python's `w in s` on strings. */
  predicate Contains(s: string, w: string)
    ensures Contains(s, w) <==> exists j :: OccursAt(s, w, j)
  {
    FindFrom(s, w, 0).Some?
  }

  /** `any(w in s for w in words)`. */
  predicate ContainsAny(s: string, words: seq<string>) {
    exists w :: w in words && Contains(s, w)
  }

  // ---------------------------------------------------------------------------
  // str.strip()

  /** The greatest `b <= j` whose preceding character is not blank; `s[floor]` is not blank. */
  function TrimEnd(s: string, j: nat, floor: nat): (b: nat)
    requires floor < j <= |s| && !IsSpace(s[floor])
    ensures floor < b <= j && !IsSpace(s[b - 1])
    ensures forall k :: b <= k < j ==> IsSpace(s[k])
    decreases j
  {
    if IsSpace(s[j - 1]) then TrimEnd(s, j - 1, floor) else j
  }

  /** The bounds `strip()` keeps: blank before, blank after, non-blank at both ends. */
  function StripSpan(s: string): (p: (nat, nat))
    ensures p.0 <= p.1 <= |s|
    ensures forall k :: 0 <= k < p.0 ==> IsSpace(s[k])
    ensures forall k :: p.1 <= k < |s| ==> IsSpace(s[k])
    ensures p.0 < p.1 ==> !IsSpace(s[p.0]) && !IsSpace(s[p.1 - 1])
  {
    RunMembers(s, 0, Space);
    var a := RunEnd(s, 0, Space);
    if a == |s| then (a, a) else (a, TrimEnd(s, |s|, a))
  }

  predicate Trimmed(s: string) {
    s == "" || (!IsSpace(s[0]) && !IsSpace(s[|s| - 1]))
  }

  /** Python's `str.strip()`. */
  function Strip(s: string): (r: string)
    ensures Trimmed(r) && |r| <= |s|
  {
    s[StripSpan(s).0..StripSpan(s).1]
  }

  lemma StripOfTrimmed(s: string)
    requires Trimmed(s)
    ensures Strip(s) == s
  {
  }

  /** Every non-blank character lies inside the span `strip()` keeps. */
  lemma NonBlankInsideStrip(s: string, j: nat)
    requires j < |s| && !IsSpace(s[j])
    ensures StripSpan(s).0 <= j < StripSpan(s).1
  {
  }

  /** A non-blank word inside `s` survives stripping, and keeps `s` from stripping to "". */
  lemma {:induction false} WordSurvivesStrip(s: string, w: string, j: nat) returns (j': nat)
    requires OccursAt(s, w, j) && w != ""
    requires forall k :: 0 <= k < |w| ==> !IsSpace(w[k])
    ensures Strip(s) != "" && OccursAt(Strip(s), w, j')
  {
    var p := StripSpan(s);
    assert s[j] == w[0];
    assert s[j + |w| - 1] == w[|w| - 1];
    NonBlankInsideStrip(s, j);
    NonBlankInsideStrip(s, j + |w| - 1);
    j' := j - p.0;
    assert Strip(s) == s[p.0..p.1];
    assert Strip(s)[j'..j' + |w|] == s[j..j + |w|];
  }

  // ---------------------------------------------------------------------------
  // clean_text

  /** The non-blank characters of `s`, in order. */
  function Visible(s: string): string {
    if s == [] then [] else (if IsSpace(s[0]) then [] else [s[0]]) + Visible(s[1..])
  }

  predicate OnlyPlainSpaces(s: string) {
    forall k :: 0 <= k < |s| && IsSpace(s[k]) ==> s[k] == ' '
  }

  predicate NoAdjacentSpaces(s: string) {
    forall k :: 0 <= k < |s| - 1 ==> !(IsSpace(s[k]) && IsSpace(s[k + 1]))
  }

  /** `re.sub(r'\s+', ' ', s)`: every maximal blank run becomes a single plain space. */
  function Collapse(s: string): (r: string)
    ensures |r| <= |s|
    ensures OnlyPlainSpaces(r) && NoAdjacentSpaces(r)
    ensures s != [] ==> r != [] && (IsSpace(s[0]) ==> r[0] == ' ') && (!IsSpace(s[0]) ==> r[0] == s[0])
    ensures s != [] && !IsSpace(s[|s| - 1]) ==> r[|r| - 1] == s[|s| - 1]
    decreases |s|
  {
    if s == [] then []
    else if IsSpace(s[0]) then
      RunMembers(s, 0, Space);
      [' '] + Collapse(s[RunEnd(s, 0, Space)..])
    else [s[0]] + Collapse(s[1..])
  }

  lemma {:induction false} VisibleSkipsBlanks(s: string, e: nat)
    requires e <= |s| && forall k :: 0 <= k < e ==> IsSpace(s[k])
    ensures Visible(s) == Visible(s[e..])
    decreases e
  {
    if e > 0 {
      VisibleSkipsBlanks(s[1..], e - 1);
      assert s[1..][e - 1..] == s[e..];
    }
  }

  lemma {:induction false} CollapseKeepsVisible(s: string)
    ensures Visible(Collapse(s)) == Visible(s)
    decreases |s|
  {
    if s != [] {
      if IsSpace(s[0]) {
        var e := RunEnd(s, 0, Space);
        RunMembers(s, 0, Space);
        CollapseKeepsVisible(s[e..]);
        VisibleSkipsBlanks(s, e);
        assert ([' '] + Collapse(s[e..]))[1..] == Collapse(s[e..]);
      } else {
        CollapseKeepsVisible(s[1..]);
        assert ([s[0]] + Collapse(s[1..]))[1..] == Collapse(s[1..]);
      }
    }
  }

  /** A string with no blank runs and only plain spaces is left alone by the substitution. */
  lemma {:induction false} CollapseFixpoint(s: string)
    requires OnlyPlainSpaces(s) && NoAdjacentSpaces(s)
    ensures Collapse(s) == s
    decreases |s|
  {
    if s != [] {
      var t := s[1..];
      assert OnlyPlainSpaces(t) by {
        forall k | 0 <= k < |t| && IsSpace(t[k]) ensures t[k] == ' ' {
          assert t[k] == s[k + 1];
        }
      }
      assert NoAdjacentSpaces(t) by {
        forall k | 0 <= k < |t| - 1 ensures !(IsSpace(t[k]) && IsSpace(t[k + 1])) {
          assert t[k] == s[k + 1] && t[k + 1] == s[k + 2];
        }
      }
      CollapseFixpoint(t);
      if IsSpace(s[0]) {
        assert |s| > 1 ==> !IsSpace(s[1]);
        assert RunEnd(s, 0, Space) == 1;
        assert s == [' '] + t;
      } else {
        assert s == [s[0]] + t;
      }
    }
  }

  /** A trimmed string is blank-free exactly when it is empty. */
  lemma TrimmedVisible(s: string)
    requires Trimmed(s)
    ensures s == "" <==> Visible(s) == ""
  {
    if s != "" {
      assert Visible(s) == [s[0]] + Visible(s[1..]);
    }
  }

  lemma StripKeepsVisible(s: string)
    ensures Visible(Strip(s)) == Visible(s)
  {
    var p := StripSpan(s);
    VisibleSkipsBlanks(s, p.0);
    assert s[p.0..] == Strip(s) + s[p.1..];
    VisibleOfConcat(Strip(s), s[p.1..]);
    VisibleOfBlanks(s[p.1..]);
  }

  lemma {:induction false} VisibleOfConcat(a: string, b: string)
    ensures Visible(a + b) == Visible(a) + Visible(b)
    decreases |a|
  {
    if a != [] {
      var h := if IsSpace(a[0]) then [] else [a[0]];
      VisibleOfConcat(a[1..], b);
      assert (a + b)[0] == a[0];
      assert (a + b)[1..] == a[1..] + b;
      calc {
        Visible(a + b);
        h + Visible(a[1..] + b);
        h + (Visible(a[1..]) + Visible(b));
        (h + Visible(a[1..])) + Visible(b);
      }
    } else {
      assert a + b == b;
    }
  }

  lemma {:induction false} VisibleOfBlanks(s: string)
    requires forall k :: 0 <= k < |s| ==> IsSpace(s[k])
    ensures Visible(s) == ""
    decreases |s|
  {
    if s != [] {
      VisibleOfBlanks(s[1..]);
    }
  }

  /**
   * clean_text: "" for empty input; otherwise the stripped text with each blank run
   * collapsed to one space. The result has the input's non-blank characters in the same
   * order, no blank at either end, only plain spaces and never two blanks in a row.
   */
  function CleanText(text: string): (r: string)
    ensures Trimmed(r) && OnlyPlainSpaces(r) && NoAdjacentSpaces(r)
    ensures Visible(r) == Visible(text)
    ensures r == "" <==> Visible(text) == ""
  {
    StripKeepsVisible(text);
    var t := Strip(text);
    CollapseKeepsVisible(t);
    TrimmedVisible(t);
    var r := if text == "" then "" else Collapse(t);
    TrimmedVisible(r);
    r
  }

  // ---------------------------------------------------------------------------
  // str.split() and ' '.join(...): the words clean_text keeps

  predicate Blankless(w: string) { forall k :: 0 <= k < |w| ==> !IsSpace(w[k]) }

  /** Python's `s.split()`: the maximal runs of non-blank characters, in order. */
  function Words(s: string): (r: seq<string>)
    ensures forall k :: 0 <= k < |r| ==> r[k] != "" && Blankless(r[k])
    decreases |s|
  {
    if s == [] then []
    else if IsSpace(s[0]) then Words(s[1..])
    else
      var e := RunEnd(s, 0, NonSpace);
      RunMembers(s, 0, NonSpace);
      assert Blankless(s[..e]) by {
        forall k | 0 <= k < e ensures !IsSpace(s[..e][k]) {
          assert InClass(s[k], NonSpace);
        }
      }
      [s[..e]] + Words(s[e..])
  }

  /** `' '.join(words)`. */
  function JoinWords(ws: seq<string>): string {
    if ws == [] then "" else if |ws| == 1 then ws[0] else ws[0] + " " + JoinWords(ws[1..])
  }

  lemma JoinWordsCons(w: string, ws: seq<string>)
    requires ws != []
    ensures JoinWords([w] + ws) == w + " " + JoinWords(ws)
  {
    assert ([w] + ws)[1..] == ws;
  }

  lemma {:induction false} WordsSkipsBlanks(s: string, e: nat)
    requires e <= |s| && forall k :: 0 <= k < e ==> IsSpace(s[k])
    ensures Words(s) == Words(s[e..])
    decreases e
  {
    if e > 0 {
      WordsSkipsBlanks(s[1..], e - 1);
      assert s[1..][e - 1..] == s[e..];
    }
  }

  /** Trailing blanks add no word. */
  lemma {:induction false} WordsOfTrailingBlanks(x: string, b: string)
    requires forall k :: 0 <= k < |b| ==> IsSpace(b[k])
    ensures Words(x + b) == Words(x)
    decreases |x|
  {
    if x == [] {
      assert x + b == b;
      WordsSkipsBlanks(b, |b|);
    } else if IsSpace(x[0]) {
      assert (x + b)[1..] == x[1..] + b;
      WordsOfTrailingBlanks(x[1..], b);
    } else {
      var e := RunEnd(x, 0, NonSpace);
      RunEndOfConcat(x, b, 0, NonSpace);
      assert (x + b)[..e] == x[..e];
      assert (x + b)[e..] == x[e..] + b;
      WordsOfTrailingBlanks(x[e..], b);
    }
  }

  /** Stripping keeps every word. */
  lemma WordsOfStrip(s: string)
    ensures Words(Strip(s)) == Words(s)
  {
    var p := StripSpan(s);
    WordsSkipsBlanks(s, p.0);
    assert s[p.0..] == Strip(s) + s[p.1..];
    WordsOfTrailingBlanks(Strip(s), s[p.1..]);
  }

  lemma AppendAssoc<T>(a: seq<T>, b: seq<T>, c: seq<T>)
    ensures a + (b + c) == (a + b) + c
  {
  }

  lemma ConsSlice<T>(s: seq<T>, i: nat, e: nat)
    requires i < e <= |s|
    ensures [s[i]] + s[i + 1..e] == s[i..e]
  {
  }

  /** A non-blank character is kept as it is. */
  lemma CollapseOfWordAt(s: string, i: nat)
    requires i < |s| && !IsSpace(s[i])
    ensures Collapse(s[i..]) == [s[i]] + Collapse(s[i + 1..])
  {
    var x := s[i..];
    assert x[0] == s[i] && x[1..] == s[i + 1..];
  }

  /** A run of non-blanks goes through the substitution unchanged. */
  lemma {:induction false} CollapseSkipsRun(s: string, i: nat)
    requires i <= |s|
    ensures Collapse(s[i..]) == s[i..RunEnd(s, i, NonSpace)] + Collapse(s[RunEnd(s, i, NonSpace)..])
    decreases |s| - i
  {
    var e := RunEnd(s, i, NonSpace);
    if i < e {
      assert !IsSpace(s[i]) && RunEnd(s, i + 1, NonSpace) == e;
      CollapseOfWordAt(s, i);
      CollapseSkipsRun(s, i + 1);
      AppendAssoc([s[i]], s[i + 1..e], Collapse(s[e..]));
      ConsSlice(s, i, e);
    } else {
      assert s[i..e] == [];
    }
  }

  /** A string that starts with a word: that word, then the rest, for both the substitution and the split. */
  lemma LeadingWord(s: string)
    requires s != [] && !IsSpace(s[0])
    ensures 0 < RunEnd(s, 0, NonSpace)
    ensures Collapse(s) == s[..RunEnd(s, 0, NonSpace)] + Collapse(s[RunEnd(s, 0, NonSpace)..])
    ensures Words(s) == [s[..RunEnd(s, 0, NonSpace)]] + Words(s[RunEnd(s, 0, NonSpace)..])
  {
    CollapseSkipsRun(s, 0);
    assert s[0..] == s;
    assert s[0..RunEnd(s, 0, NonSpace)] == s[..RunEnd(s, 0, NonSpace)];
  }

  /** A string that starts with blanks and ends with a word: one space, then a string trimmed at both ends. */
  lemma LeadingBlanks(t: string) returns (g: string)
    requires t != [] && IsSpace(t[0]) && !IsSpace(t[|t| - 1])
    ensures g != [] && Trimmed(g) && |g| < |t|
    ensures Collapse(t) == [' '] + Collapse(g)
    ensures Words(t) == Words(g)
  {
    var f := RunEnd(t, 0, Space);
    RunMembers(t, 0, Space);
    g := t[f..];
    WordsSkipsBlanks(t, f);
  }

  /** On a string without blanks at its ends, the substitution joins the words with single spaces. */
  lemma {:induction false} CollapseJoinsWords(s: string)
    requires Trimmed(s)
    ensures Collapse(s) == JoinWords(Words(s))
    decreases |s|
  {
    if s != [] {
      LeadingWord(s);
      var e := RunEnd(s, 0, NonSpace);
      var w, t := s[..e], s[e..];
      if t == [] {
        assert w == s;
      } else {
        assert t[0] == s[e] && t[|t| - 1] == s[|s| - 1];
        var g := LeadingBlanks(t);
        CollapseJoinsWords(g);
        assert Words(g) != [] by {
          LeadingWord(g);
        }
        JoinWordsCons(w, Words(g));
        AppendAssoc(w, [' '], Collapse(g));
      }
    }
  }

  /** A blank-free word followed by a blank (or nothing) is the first word. */
  lemma WordsOfLeadingWord(w: string, rest: string)
    requires w != "" && Blankless(w) && (rest == [] || IsSpace(rest[0]))
    ensures Words(w + rest) == [w] + Words(rest)
  {
    var s := w + rest;
    assert s[0] == w[0];
    RunEndOfFullRun(w, 0, NonSpace);
    RunEndOfConcat(w, rest, 0, NonSpace);
    assert s[..|w|] == w;
    assert s[|w|..] == rest;
  }

  /** Splitting a string of blank-free words joined by single spaces gives the words back. */
  lemma {:induction false} WordsOfJoin(ws: seq<string>)
    requires forall k :: 0 <= k < |ws| ==> ws[k] != "" && Blankless(ws[k])
    ensures Words(JoinWords(ws)) == ws
    decreases |ws|
  {
    if |ws| == 1 {
      WordsOfLeadingWord(ws[0], "");
      assert ws[0] + "" == ws[0];
    } else if |ws| > 1 {
      var rest := " " + JoinWords(ws[1..]);
      assert JoinWords(ws) == ws[0] + rest;
      WordsOfLeadingWord(ws[0], rest);
      assert rest[1..] == JoinWords(ws[1..]);
      assert Words(rest) == Words(JoinWords(ws[1..]));
      WordsOfJoin(ws[1..]);
      assert ws == [ws[0]] + ws[1..];
    }
  }

  /** clean_text is `' '.join(text.split())`. */
  lemma CleanTextJoinsWords(text: string)
    ensures CleanText(text) == JoinWords(Words(text))
  {
    WordsOfStrip(text);
    CollapseJoinsWords(Strip(text));
  }

  /** clean_text keeps the words of the text, in order, and only them. */
  lemma CleanTextKeepsWords(text: string)
    ensures Words(CleanText(text)) == Words(text)
  {
    CleanTextJoinsWords(text);
    WordsOfJoin(Words(text));
  }

  /** Cleaning clean text changes nothing. */
  lemma CleanTextIdempotent(text: string)
    ensures CleanText(CleanText(text)) == CleanText(text)
  {
    var r := CleanText(text);
    if r != "" {
      StripOfTrimmed(r);
      CollapseFixpoint(r);
    }
  }

  // ---------------------------------------------------------------------------
  // str.split('\n') and the non-blank stripped lines

  /** Python's `s.split('\n')`: always at least one piece. */
  function SplitLines(s: string): (r: seq<string>)
    ensures |r| >= 1
    ensures forall k :: 0 <= k < |r| ==> '\n' !in r[k]
    decreases |s|
  {
    if s == [] then [""]
    else
      var rest := SplitLines(s[1..]);
      if s[0] == '\n' then [""] + rest else [[s[0]] + rest[0]] + rest[1..]
  }

  /** `'\n'.join(pieces)`. */
  function JoinLines(pieces: seq<string>): string
    requires |pieces| >= 1
  {
    if |pieces| == 1 then pieces[0] else pieces[0] + "\n" + JoinLines(pieces[1..])
  }

  /** Splitting on newlines loses nothing: joining the pieces back gives the text. */
  lemma {:induction false} SplitJoin(s: string)
    ensures JoinLines(SplitLines(s)) == s
    decreases |s|
  {
    if s != [] {
      SplitJoin(s[1..]);
      var rest := SplitLines(s[1..]);
      if s[0] != '\n' {
        var r := [[s[0]] + rest[0]] + rest[1..];
        if |rest| > 1 {
          assert r[1..] == rest[1..];
        }
      }
    }
  }

  /** Up to its first newline, the text is the start of the first piece. */
  lemma {:induction false} FirstPiecePrefix(s: string, m: nat)
    requires m <= |s| && forall k :: 0 <= k < m ==> s[k] != '\n'
    ensures m <= |SplitLines(s)[0]| && SplitLines(s)[0][..m] == s[..m]
    decreases m
  {
    if m > 0 {
      FirstPiecePrefix(s[1..], m - 1);
    }
  }

  lemma ConsShiftsSlice<T>(c: T, x: seq<T>, a: nat, n: nat)
    requires a + n <= |x|
    ensures ([c] + x)[a + 1..a + 1 + n] == x[a..a + n]
  {
  }

  /** A word without newlines that occurs in the text occurs within one of its pieces. */
  lemma {:induction false} WordInSomePiece(s: string, w: string, i: nat) returns (k: nat, j: nat)
    requires OccursAt(s, w, i) && '\n' !in w
    ensures k < |SplitLines(s)| && OccursAt(SplitLines(s)[k], w, j)
    decreases i
  {
    if i == 0 {
      forall t | 0 <= t < |w| ensures s[t] != '\n' {
        assert s[t] == w[t];
      }
      FirstPiecePrefix(s, |w|);
      k, j := 0, 0;
    } else {
      assert s[1..][i - 1..i - 1 + |w|] == s[i..i + |w|];
      var k', j' := WordInSomePiece(s[1..], w, i - 1);
      var rest := SplitLines(s[1..]);
      if s[0] == '\n' {
        k, j := k' + 1, j';
      } else if k' == 0 {
        k, j := 0, j' + 1;
        ConsShiftsSlice(s[0], rest[0], j', |w|);
      } else {
        k, j := k', j';
      }
    }
  }

  /** `[p.strip() for p in pieces if p.strip()]`. */
  function KeepNonBlank(pieces: seq<string>): (r: seq<string>)
    ensures forall k :: 0 <= k < |r| ==> r[k] != "" && Trimmed(r[k])
  {
    if pieces == [] then []
    else (if Strip(pieces[0]) == "" then [] else [Strip(pieces[0])]) + KeepNonBlank(pieces[1..])
  }

  /** The `lines` list of the Atsogo extractor: the non-blank lines of the text, stripped. */
  function NonBlankLines(s: string): (r: seq<string>)
    ensures forall k :: 0 <= k < |r| ==> r[k] != "" && Trimmed(r[k])
  {
    KeepNonBlank(SplitLines(s))
  }

  lemma {:induction false} KeptPiece(pieces: seq<string>, k: nat)
    requires k < |pieces| && Strip(pieces[k]) != ""
    ensures Strip(pieces[k]) in KeepNonBlank(pieces)
    decreases k
  {
    if k > 0 {
      KeptPiece(pieces[1..], k - 1);
    }
  }

  /**
   * A non-empty word without blanks that occurs in the text occurs in one of its
   * non-blank stripped lines.
   */
  lemma WordInSomeLine(s: string, w: string, i: nat) returns (line: string)
    requires OccursAt(s, w, i) && w != ""
    requires forall k :: 0 <= k < |w| ==> !IsSpace(w[k])
    ensures line in NonBlankLines(s) && Contains(line, w)
  {
    assert '\n' !in w by {
      forall k | 0 <= k < |w| ensures w[k] != '\n' {
        assert !IsSpace(w[k]);
      }
    }
    var k, j := WordInSomePiece(s, w, i);
    var j' := WordSurvivesStrip(SplitLines(s)[k], w, j);
    KeptPiece(SplitLines(s), k);
    line := Strip(SplitLines(s)[k]);
  }

  // ---------------------------------------------------------------------------
  // str.replace(',', '')

  /** `s.replace(c, '')`. */
  function Without(s: string, c: char): (r: string)
    ensures c !in r && |r| <= |s|
    ensures forall k :: 0 <= k < |r| ==> r[k] in s
  {
    if s == [] then [] else (if s[0] == c then [] else [s[0]]) + Without(s[1..], c)
  }

  lemma {:induction false} WithoutConcat(a: string, b: string, c: char)
    ensures Without(a + b, c) == Without(a, c) + Without(b, c)
    decreases |a|
  {
    if a != [] {
      var h := if a[0] == c then [] else [a[0]];
      WithoutConcat(a[1..], b, c);
      assert (a + b)[0] == a[0];
      assert (a + b)[1..] == a[1..] + b;
      calc {
        Without(a + b, c);
        h + Without(a[1..] + b, c);
        h + (Without(a[1..], c) + Without(b, c));
        (h + Without(a[1..], c)) + Without(b, c);
      }
    } else {
      assert a + b == b;
    }
  }

  // ---------------------------------------------------------------------------
  // str(n) for page numbers

  function DigitChar(d: nat): char
    requires d < 10
  {
    ('0' as int + d) as char
  }

  /** `str(n)`: the decimal numeral of `n`, without leading zeros. */
  function Decimal(n: nat): (r: string)
    ensures r != [] && AllDigits(r)
    ensures n > 0 ==> r[0] != '0'
    decreases n
  {
    if n < 10 then [DigitChar(n)] else Decimal(n / 10) + [DigitChar(n % 10)]
  }

  /** `int(s)` for a string of decimal digits. */
  function DecimalValue(s: string): nat
    requires AllDigits(s)
  {
    if s == [] then 0 else DecimalValue(s[..|s| - 1]) * 10 + (s[|s| - 1] as int - '0' as int)
  }

  /** Reading back the numeral gives the number. */
  lemma {:induction false} DecimalRoundTrip(n: nat)
    ensures DecimalValue(Decimal(n)) == n
    decreases n
  {
    if n >= 10 {
      DecimalRoundTrip(n / 10);
      var d := Decimal(n);
      assert d[..|d| - 1] == Decimal(n / 10);
    } else {
      assert Decimal(n)[..0] == [];
    }
  }

  /** Distinct numbers have distinct numerals. */
  lemma DecimalInjective(n: nat, m: nat)
    requires Decimal(n) == Decimal(m)
    ensures n == m
  {
    DecimalRoundTrip(n);
    DecimalRoundTrip(m);
  }
}
