/** Strings, entities and colour markers shared by both versions of the tool
    (debounce_grep/debounce_grep.go and its predecessor search.go).
    Text is ASCII: one `char` stands for one byte, so rune offsets and byte
    offsets coincide. */
module Text {

  datatype Option<T> = None | Some(value: T)

  const ESC: char := '\U{1B}'
  const SPACE: string := " "
  const LINE_BREAK: string := "\n"
  const ELLIPSIS: string := "..."
  /** SGR "yellow foreground" and "reset" control sequences (ECMA-48,
      section 8.3.117). The model treats them as opaque marker strings. */
  const YELLOW_COLOR_CODE: string := [ESC] + "[33m"
  const CANCEL_COLOR_CODE: string := [ESC] + "[0m"
  const SEARCH_MATCH_SPACE_INDENT: string := "   "
  const LINE_NO_BUFFER: string := "   "
  const SCROLL_BAR_WIDTH: int := 1

  /** Columns left for the text of a matched line on a terminal `ttyWidth` wide. */
  function RoomForText(ttyWidth: int): (room: int)
    ensures room == ttyWidth - 8
  {
    ttyWidth - 1 - |SEARCH_MATCH_SPACE_INDENT| - |LINE_NO_BUFFER| - SCROLL_BAR_WIDTH
  }

  // ---------------------------------------------------------------------------
  // Substring search (strings.Contains, strings.Replace(s, old, "", 1))
  // ---------------------------------------------------------------------------

  predicate OccursAt(s: string, pat: string, i: int) {
    0 <= i && i + |pat| <= |s| && s[i..i + |pat|] == pat
  }

  predicate StartsWith(s: string, pat: string) {
    |pat| <= |s| && s[..|pat|] == pat
  }

  /** The first position at or after `from` where `pat` occurs in `s`. */
  function FindFrom(s: string, pat: string, from: nat): (r: Option<nat>)
    decreases |s| - from
    ensures r.Some? ==> from <= r.value && OccursAt(s, pat, r.value)
    ensures r.Some? ==> forall j :: from <= j < r.value ==> !OccursAt(s, pat, j)
    ensures r.None? ==> forall j :: from <= j ==> !OccursAt(s, pat, j)
  {
    if from + |pat| > |s| then None
    else if s[from..from + |pat|] == pat then Some(from)
    else FindFrom(s, pat, from + 1)
  }

  predicate Contains(s: string, pat: string) {
    FindFrom(s, pat, 0).Some?
  }

  /** `s` with the first occurrence of `pat` cut out; `s` itself when there is none. */
  function RemoveFirst(s: string, pat: string): (r: string)
    ensures |r| == |s| - (if Contains(s, pat) then |pat| else 0)
    ensures !Contains(s, pat) ==> r == s
    ensures Contains(s, pat) ==>
      var i := FindFrom(s, pat, 0).value;
      r == s[..i] + s[i + |pat|..]
  {
    match FindFrom(s, pat, 0)
    case None => s
    case Some(i) => s[..i] + s[i + |pat|..]
  }

  lemma NoEscNoMarker(s: string, marker: string)
    requires ESC !in s
    requires |marker| > 0 && marker[0] == ESC
    ensures !Contains(s, marker)
  {
    forall i | 0 <= i && i + |marker| <= |s|
      ensures !OccursAt(s, marker, i)
    {
      assert s[i..i + |marker|][0] == s[i] != ESC;
    }
  }

  // ---------------------------------------------------------------------------
  // Visible width of an entity (getLengthOfEntity)
  // ---------------------------------------------------------------------------

  /** Bytes of `entity` once one yellow marker and then one cancel marker,
      each only if present, are removed. */
  function LengthOfEntity(entity: string): (r: nat)
    ensures r == |entity| - (if Contains(entity, YELLOW_COLOR_CODE) then |YELLOW_COLOR_CODE| else 0)
                  - (if Contains(RemoveFirst(entity, YELLOW_COLOR_CODE), CANCEL_COLOR_CODE)
                     then |CANCEL_COLOR_CODE| else 0)
    ensures r <= |entity|
  {
    |RemoveFirst(RemoveFirst(entity, YELLOW_COLOR_CODE), CANCEL_COLOR_CODE)|
  }

  /** Marker-free text is as wide as it is long. */
  lemma LengthOfPlainEntity(entity: string)
    requires ESC !in entity
    ensures LengthOfEntity(entity) == |entity|
  {
    NoEscNoMarker(entity, YELLOW_COLOR_CODE);
    NoEscNoMarker(entity, CANCEL_COLOR_CODE);
  }

  /** A word highlighted as a whole is as wide as the bare word. */
  lemma {:induction false} LengthOfHighlightedWord(w: string)
    requires ESC !in w
    ensures LengthOfEntity(YELLOW_COLOR_CODE + w + CANCEL_COLOR_CODE) == |w|
  {
    var e := YELLOW_COLOR_CODE + w + CANCEL_COLOR_CODE;
    assert OccursAt(e, YELLOW_COLOR_CODE, 0) by { assert e[..5] == YELLOW_COLOR_CODE; }
    assert FindFrom(e, YELLOW_COLOR_CODE, 0) == Some(0);
    var e1 := RemoveFirst(e, YELLOW_COLOR_CODE);
    assert e1 == w + CANCEL_COLOR_CODE by { assert e[5..] == w + CANCEL_COLOR_CODE; }
    var f := FindFrom(e1, CANCEL_COLOR_CODE, 0);
    assert OccursAt(e1, CANCEL_COLOR_CODE, |w|) by { assert e1[|w|..|w| + 4] == CANCEL_COLOR_CODE; }
    forall j | 0 <= j < |w|
      ensures !OccursAt(e1, CANCEL_COLOR_CODE, j)
    {
      if j + 4 <= |e1| {
        assert e1[j..j + 4][0] == e1[j] == w[j];
        assert w[j] != ESC == CANCEL_COLOR_CODE[0];
      }
    }
    assert f.value == |w|;
    assert RemoveFirst(e1, CANCEL_COLOR_CODE) == w;
  }

  /** Entities shorter than the cancel marker cannot hold a marker. */
  lemma LengthOfShortEntity(entity: string)
    requires |entity| < |CANCEL_COLOR_CODE|
    ensures LengthOfEntity(entity) == |entity|
  {
  }

  /** Sequence facts used where extensionality is costly. */
  lemma PrefixSnoc<T>(s: seq<T>, i: nat)
    requires i < |s|
    ensures s[..i + 1] == s[..i] + [s[i]] && s[..i + 1][..i] == s[..i]
  {
  }

  lemma WholePrefix<T>(s: seq<T>)
    ensures s[..|s|] == s
  {
  }

  /** Sum of the visible widths of a list of entities. */
  function SumLengths(entities: seq<string>): (total: nat)
  {
    if entities == [] then 0
    else SumLengths(entities[..|entities| - 1]) + LengthOfEntity(entities[|entities| - 1])
  }

  /** The width of a list of two entities. */
  lemma SumLengthsPair(x: string, y: string)
    ensures SumLengths([x, y]) == LengthOfEntity(x) + LengthOfEntity(y)
  {
    assert [x, y][..1] == [x] && [x][..0] == [];
    assert SumLengths([x]) == LengthOfEntity(x);
  }

  lemma {:induction false} SumLengthsAppend(a: seq<string>, b: seq<string>)
    ensures SumLengths(a + b) == SumLengths(a) + SumLengths(b)
    decreases |b|
  {
    if b == [] {
      assert a + b == a;
    } else {
      var n := |b| - 1;
      assert (a + b)[..|a + b| - 1] == a + b[..n];
      assert (a + b)[|a + b| - 1] == b[n];
      SumLengthsAppend(a, b[..n]);
    }
  }

  // ---------------------------------------------------------------------------
  // Words (strings.Split(s, " ")) and entity lists
  // ---------------------------------------------------------------------------

  /** The pieces of `s` between single spaces; consecutive spaces give empty pieces. */
  function Split(s: string): (words: seq<string>)
    ensures |words| >= 1
    ensures forall w <- words :: ' ' !in w
  {
    if s == [] then [[]]
    else if s[0] == ' ' then [[]] + Split(s[1..])
    else
      var rest := Split(s[1..]);
      [[s[0]] + rest[0]] + rest[1..]
  }

  /** The words joined with single spaces (strings.Join(words, " ")). */
  function Join(words: seq<string>): string
    requires |words| >= 1
  {
    if |words| == 1 then words[0] else words[0] + SPACE + Join(words[1..])
  }

  lemma {:induction false} JoinSplit(s: string)
    ensures Join(Split(s)) == s
  {
    if s == [] {
    } else if s[0] == ' ' {
      JoinSplit(s[1..]);
      assert ([[]] + Split(s[1..]))[1..] == Split(s[1..]);
    } else {
      var rest := Split(s[1..]);
      JoinSplit(s[1..]);
      var words := [[s[0]] + rest[0]] + rest[1..];
      if |rest| == 1 {
      } else {
        assert words[1..] == rest[1..];
        assert Join(rest) == rest[0] + SPACE + Join(rest[1..]);
      }
    }
  }

  lemma {:induction false} SplitWord(w: string)
    requires ' ' !in w
    ensures Split(w) == [w]
  {
    if w != [] {
      SplitWord(w[1..]);
      assert [w[0]] + w[1..] == w;
    }
  }

  lemma {:induction false} SplitWordThenSpace(w: string, t: string)
    requires ' ' !in w
    ensures Split(w + SPACE + t) == [w] + Split(t)
  {
    if w == [] {
      assert w + SPACE + t == [' '] + t;
      assert (w + SPACE + t)[1..] == t;
    } else {
      assert (w + SPACE + t)[1..] == w[1..] + SPACE + t;
      SplitWordThenSpace(w[1..], t);
      assert [w[0]] + w[1..] == w;
    }
  }

  /** Splitting undoes joining when no word holds a space. */
  lemma {:induction false} SplitJoin(words: seq<string>)
    requires |words| >= 1
    requires forall w <- words :: ' ' !in w
    ensures Split(Join(words)) == words
  {
    if |words| == 1 {
      SplitWord(words[0]);
    } else {
      SplitJoin(words[1..]);
      SplitWordThenSpace(words[0], Join(words[1..]));
    }
  }

  /** The entity list of a run of words: each neighbouring pair separated by a SPACE entity. */
  function Spaced(words: seq<string>): (entities: seq<string>)
    ensures |entities| == if words == [] then 0 else 2 * |words| - 1
    ensures words != [] ==> entities[0] == words[0] && entities[|entities| - 1] == words[|words| - 1]
  {
    if |words| <= 1 then words else [words[0], SPACE] + Spaced(words[1..])
  }

  lemma {:induction false} SpacedSnoc(words: seq<string>, w: string)
    requires words != []
    ensures Spaced(words + [w]) == Spaced(words) + [SPACE, w]
  {
    if |words| == 1 {
      assert (words + [w])[1..] == [w];
    } else {
      assert (words + [w])[1..] == words[1..] + [w];
      SpacedSnoc(words[1..], w);
    }
  }

  lemma {:induction false} SpacedCons(w: string, words: seq<string>)
    requires words != []
    ensures Spaced([w] + words) == [w, SPACE] + Spaced(words)
  {
    assert ([w] + words)[1..] == words;
  }

  /** Visible width of a spaced run: the words plus one column per separating space. */
  lemma {:induction false} SumLengthsSpaced(words: seq<string>)
    requires words != []
    ensures SumLengths(Spaced(words)) == SumLengths(words) + |words| - 1
  {
    if |words| == 1 {
    } else {
      var n := |words| - 1;
      SumLengthsSpaced(words[..n]);
      assert words[..n] + [words[n]] == words;
      SpacedSnoc(words[..n], words[n]);
      SumLengthsAppend(Spaced(words[..n]), [SPACE, words[n]]);
      SumLengthsAppend(words[..n], [words[n]]);
      assert [SPACE, words[n]][..1] == [SPACE];
      LengthOfShortEntity(SPACE);
    }
  }

  lemma {:induction false} SpacedElements(words: seq<string>, e: string)
    requires e in Spaced(words)
    ensures e == SPACE || e in words
  {
    if |words| > 1 {
      if e !in [words[0], SPACE] {
        SpacedElements(words[1..], e);
      }
    }
  }

  // ---------------------------------------------------------------------------
  // Colour markers around matches (getWordsWithColorCodes) and their removal
  // ---------------------------------------------------------------------------

  /** A match span [start, end) in byte offsets, as FindAllIndex reports it. */
  datatype Span = Span(start: int, end: int)

  /** One byte of the line with the markers that go around it. */
  function MarkedByte(c: char, opens: bool, closes: bool): string {
    (if opens then YELLOW_COLOR_CODE else []) + [c] + (if closes then CANCEL_COLOR_CODE else [])
  }

  /** The pair looked for after the byte at offset `i`: once the byte at
      `next.end - 1` is passed, the following pair, or (-1, -1) when none is left. */
  function NextPair(i: int, next: Span, rest: seq<Span>): Span {
    if i != next.end - 1 then next else if rest != [] then rest[0] else Span(-1, -1)
  }

  function PairsAfter(i: int, next: Span, rest: seq<Span>): seq<Span> {
    if i != next.end - 1 then rest else if rest != [] then rest[1..] else []
  }

  /** The marked-up rest of `text` from offset `i`, where `next` is the pair
      being looked for and `rest` the pairs after it: the yellow marker goes
      before the byte at `next.start` and the cancel marker after the byte at
      `next.end - 1`. */
  function HighlightFrom(text: string, i: nat, next: Span, rest: seq<Span>): string
    requires i <= |text|
    decreases |text| - i
  {
    if i == |text| then []
    else
      MarkedByte(text[i], i == next.start, i == next.end - 1)
      + HighlightFrom(text, i + 1, NextPair(i, next, rest), PairsAfter(i, next, rest))
  }

  /** The line with the markers inserted around every match; the first pair
      is read unconditionally, so at least one is needed. */
  function Highlight(text: string, spans: seq<Span>): string
    requires |spans| >= 1
  {
    HighlightFrom(text, 0, spans[0], spans[1..])
  }

  /** The words of the marked-up line, as getWordsWithColorCodes returns them. */
  function WordsWithColorCodes(text: string, spans: seq<Span>): (words: seq<string>)
    requires |spans| >= 1
    ensures |words| >= 1 && forall w <- words :: ' ' !in w
  {
    Split(Highlight(text, spans))
  }

  /** `s` with every yellow and cancel marker removed, scanning left to right. */
  function Strip(s: string): string
    decreases |s|
  {
    if StartsWith(s, YELLOW_COLOR_CODE) then Strip(s[|YELLOW_COLOR_CODE|..])
    else if StartsWith(s, CANCEL_COLOR_CODE) then Strip(s[|CANCEL_COLOR_CODE|..])
    else if s == [] then []
    else [s[0]] + Strip(s[1..])
  }

  function StripAll(words: seq<string>): (r: seq<string>)
    ensures |r| == |words|
  {
    if words == [] then [] else [Strip(words[0])] + StripAll(words[1..])
  }

  lemma StripAfterYellow(x: string)
    ensures Strip(YELLOW_COLOR_CODE + x) == Strip(x)
  {
    var s := YELLOW_COLOR_CODE + x;
    assert s[..5] == YELLOW_COLOR_CODE;
    assert s[5..] == x;
  }

  lemma StripAfterCancel(x: string)
    ensures Strip(CANCEL_COLOR_CODE + x) == Strip(x)
  {
    var s := CANCEL_COLOR_CODE + x;
    assert s[2] == '0';
    assert !StartsWith(s, YELLOW_COLOR_CODE) by {
      if |s| >= 5 { assert s[..5][2] != YELLOW_COLOR_CODE[2]; }
    }
    assert s[..4] == CANCEL_COLOR_CODE;
    assert s[4..] == x;
  }

  lemma StripAfterPlain(c: char, x: string)
    requires c != ESC
    ensures Strip([c] + x) == [c] + Strip(x)
  {
    var s := [c] + x;
    assert !StartsWith(s, YELLOW_COLOR_CODE) by {
      if |s| >= 5 { assert s[..5][0] == c; }
    }
    assert !StartsWith(s, CANCEL_COLOR_CODE) by {
      if |s| >= 4 { assert s[..4][0] == c; }
    }
    assert s[1..] == x;
  }

  lemma StripMarkedByte(c: char, opens: bool, closes: bool, x: string)
    requires c != ESC
    ensures Strip(MarkedByte(c, opens, closes) + x) == [c] + Strip(x)
  {
    var close: string := if closes then CANCEL_COLOR_CODE else [];
    if closes {
      StripAfterCancel(x);
    } else {
      assert close + x == x;
    }
    StripAfterPlain(c, close + x);
    if opens {
      assert MarkedByte(c, opens, closes) + x == YELLOW_COLOR_CODE + ([c] + (close + x));
      StripAfterYellow([c] + (close + x));
    } else {
      assert MarkedByte(c, opens, closes) + x == [c] + (close + x);
    }
  }

  lemma {:induction false} StripHighlightFrom(text: string, i: nat, next: Span, rest: seq<Span>)
    requires i <= |text|
    requires ESC !in text
    ensures Strip(HighlightFrom(text, i, next, rest)) == text[i..]
    decreases |text| - i
  {
    if i < |text| {
      var tail := HighlightFrom(text, i + 1, NextPair(i, next, rest), PairsAfter(i, next, rest));
      StripHighlightFrom(text, i + 1, NextPair(i, next, rest), PairsAfter(i, next, rest));
      StripMarkedByte(text[i], i == next.start, i == next.end - 1, tail);
      assert [text[i]] + text[i + 1..] == text[i..];
    }
  }

  /** Neither marker holds a space, so a prefix test never looks past a space. */
  lemma StartsWithBeforeSpace(a: string, b: string, marker: string)
    requires ' ' !in a && ' ' !in marker
    ensures StartsWith(a + SPACE + b, marker) <==> StartsWith(a, marker)
  {
    var s := a + SPACE + b;
    if |a| >= |marker| {
      assert s[..|marker|] == a[..|marker|];
    } else {
      assert marker[|a|] != ' ';
      assert |marker| <= |s| ==> s[..|marker|][|a|] == ' ';
    }
  }

  lemma {:induction false} StripAcrossSpace(a: string, b: string)
    requires ' ' !in a
    ensures Strip(a + SPACE + b) == Strip(a) + SPACE + Strip(b)
    decreases |a|
  {
    var s := a + SPACE + b;
    StartsWithBeforeSpace(a, b, YELLOW_COLOR_CODE);
    StartsWithBeforeSpace(a, b, CANCEL_COLOR_CODE);
    if StartsWith(a, YELLOW_COLOR_CODE) {
      assert s[5..] == a[5..] + SPACE + b;
      StripAcrossSpace(a[5..], b);
    } else if StartsWith(a, CANCEL_COLOR_CODE) {
      assert s[4..] == a[4..] + SPACE + b;
      StripAcrossSpace(a[4..], b);
    } else if a == [] {
      assert s == [' '] + b;
      StripAfterPlain(' ', b);
    } else {
      assert s[1..] == a[1..] + SPACE + b;
      StripAcrossSpace(a[1..], b);
    }
  }

  lemma {:induction false} StripJoin(words: seq<string>)
    requires |words| >= 1
    requires forall w <- words :: ' ' !in w
    ensures Strip(Join(words)) == Join(StripAll(words))
  {
    if |words| > 1 {
      StripJoin(words[1..]);
      StripAcrossSpace(words[0], Join(words[1..]));
      assert StripAll(words)[1..] == StripAll(words[1..]);
    }
  }

  /** Removing the markers from the words and joining them with single spaces
      gives back the original line. */
  lemma StripWordsRoundTrip(text: string, spans: seq<Span>)
    requires |spans| >= 1
    requires ESC !in text
    ensures Join(StripAll(WordsWithColorCodes(text, spans))) == text
  {
    var line := Highlight(text, spans);
    StripHighlightFrom(text, 0, spans[0], spans[1..]);
    JoinSplit(line);
    StripJoin(Split(line));
  }
}
