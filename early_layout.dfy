/** The text layout of search.go, the earlier version of the tool: match
    pairs popped off a shared slice while the markers go in, at most three
    words shown before the first match, an overflow test that sums every
    entity of the line, and truncation that trims from the end. */
module EarlyLayout {
  import opened Text
  import opened Matcher
  import opened Layout

  // ---------------------------------------------------------------------------
  // Match pairs popped off a Go slice (popNextMatchIndeces)
  // ---------------------------------------------------------------------------

  /** `b` after `append(s[:0], s[1:n]...)`: the first `n - 1` places take the
      next elements; the rest of the backing array is untouched. */
  function ShiftedLeft(b: seq<Span>, n: nat): (r: seq<Span>)
    requires 1 <= n <= |b|
    ensures |r| == |b|
  {
    b[1..n] + b[n - 1..]
  }

  /** The backing array after `k` pops from a slice that started `n` long:
      the pairs not yet popped move to the front, every place the live slice
      gave up holds the last pair, and the places past the slice are as
      they were. */
  function AfterPops(b: seq<Span>, n: nat, k: nat): (r: seq<Span>)
    requires 1 <= n <= |b| && k <= n
    ensures |r| == |b|
  {
    b[k..n] + Repeat(b[n - 1], k) + b[n..]
  }

  function Repeat(x: Span, k: nat): (r: seq<Span>)
    ensures |r| == k && forall j :: 0 <= j < k ==> r[j] == x
  {
    if k == 0 then [] else Repeat(x, k - 1) + [x]
  }

  /** One more pop moves the live slice along by one place. */
  lemma AfterPopsStep(b: seq<Span>, n: nat, k: nat)
    requires 1 <= n <= |b| && k < n
    ensures ShiftedLeft(AfterPops(b, n, k), n - k) == AfterPops(b, n, k + 1)
  {
    var a, c := AfterPops(b, n, k), AfterPops(b, n, k + 1);
    var s := ShiftedLeft(a, n - k);
    forall j | 0 <= j < |b| ensures s[j] == c[j] {
      if j < n - k - 1 {
        assert s[j] == a[j + 1] == b[k + j + 1] == c[j];
      } else if j < n {
        assert s[j] == a[n - k - 1] == b[n - 1] == c[j];
      } else {
        assert s[j] == a[j] == b[j] == c[j];
      }
    }
  }

  /** A Go slice of match pairs: the first `length` places of a backing array
      that copies of the slice share. */
  class PairSlice {
    const backing: array<Span>
    var length: nat

    predicate Valid()
      reads this
    {
      length <= backing.Length
    }

    function Pairs(): seq<Span>
      reads this, backing
      requires Valid()
    {
      backing[..length]
    }

    /** A slice over a new backing array holding `pairs`. */
    constructor (pairs: seq<Span>)
      ensures Valid() && fresh(backing)
      ensures backing[..] == pairs && length == |pairs|
    {
      backing := new Span[|pairs|](i requires 0 <= i < |pairs| => pairs[i]);
      length := |pairs|;
    }

    /** A copy of the slice header, as Go makes when a struct holding the
        slice is copied: same backing array, same length. */
    constructor Copy(other: PairSlice)
      requires other.Valid()
      ensures Valid() && backing == other.backing && length == other.length
    {
      backing := other.backing;
      length := other.length;
    }

    /** popNextMatchIndeces: the first pair is returned and the live slice
        moves up by one inside the same backing array. */
    method PopNextMatchIndeces() returns (start: int, end: int)
      requires Valid() && length >= 1
      modifies this, backing
      ensures Valid()
      ensures start == old(backing[0]).start && end == old(backing[0]).end
      ensures length == old(length) - 1
      ensures backing[..] == ShiftedLeft(old(backing[..]), old(length))
      ensures Pairs() == old(Pairs())[1..]
    {
      start, end := backing[0].start, backing[0].end;
      ghost var before := backing[..];
      var j := 0;
      while j < length - 1
        invariant length == old(length) && 0 <= j <= length - 1
        invariant forall k :: 0 <= k < j ==> backing[k] == before[k + 1]
        invariant forall k :: j <= k < backing.Length ==> backing[k] == before[k]
      {
        backing[j] := backing[j + 1];
        j := j + 1;
      }
      assert backing[..] == ShiftedLeft(before, length) by {
        var shifted := ShiftedLeft(before, length);
        forall k | 0 <= k < backing.Length ensures backing[k] == shifted[k] {
          if k < length - 1 {
            assert shifted[k] == before[k + 1];
          } else {
            assert shifted[k] == before[k];
          }
        }
      }
      length := length - 1;
    }
  }

  /** Match pairs as FindAllIndex reports them for one line of `len` bytes:
      non-empty, inside the line, in order and not overlapping. */
  predicate WellFormedPairs(pairs: seq<Span>, len: int) {
    (forall k :: 0 <= k < |pairs| ==> 0 <= pairs[k].start < pairs[k].end <= len)
    && (forall k {:trigger pairs[k].start} :: 0 < k < |pairs| ==> pairs[k - 1].end <= pairs[k].start)
  }

  /** The pairs found for a line containing a non-empty term are well formed. */
  lemma {:induction false} MatchSpansWellFormed(line: string, term: string)
    requires |term| > 0
    ensures WellFormedPairs(MatchSpans(line, term), |line|)
  {
  }

  /** `b` and `len` are the backing array and length of a slice that held
      `pairs`, the first `n` places of `original`, and has had `n - len` of
      them popped. */
  ghost predicate PoppedTo(b: seq<Span>, len: nat, original: seq<Span>, n: nat, pairs: seq<Span>) {
    len <= n && 1 <= n <= |original| && pairs == original[..n]
    && b == AfterPops(original, n, n - len) && b[..len] == pairs[n - len..]
  }

  lemma PoppedToStep(b: seq<Span>, len: nat, original: seq<Span>, n: nat, pairs: seq<Span>)
    requires PoppedTo(b, len, original, n, pairs) && len >= 1
    ensures b[0] == pairs[n - len]
    ensures PoppedTo(ShiftedLeft(b, len), len - 1, original, n, pairs)
  {
    AfterPopsStep(original, n, n - len);
    assert b[0] == b[..len][0];
    assert ShiftedLeft(b, len)[..len - 1] == b[..len][1..];
  }

  /** The state of the marker loop before the byte at `i`, as values: the
      slice's backing array `b` and length `len`, the pair `next` being
      looked for and the text `done` written so far. `wellFormed` records
      that the pairs are well formed, in which case the pair looked for
      never ends before `i`. */
  ghost predicate Rendering(text: string, pairs: seq<Span>, original: seq<Span>, n: nat, wellFormed: bool,
                            b: seq<Span>, len: nat, next: Span, i: nat, done: string)
  {
    i <= |text| && len < n && PoppedTo(b, len, original, n, pairs)
    && ((next == Span(-1, -1) && len == 0) || next == pairs[n - len - 1])
    && done + HighlightFrom(text, i, next, b[..len]) == Highlight(text, pairs)
    && (wellFormed ==> WellFormedPairs(pairs, |text|) && (next.end == -1 || i <= next.end - 1))
  }

  /** One turn of the marker loop keeps its state consistent: past the end
      of the pair looked for, the next pair is popped, or (-1, -1) taken
      when none is left. */
  lemma RenderingStep(text: string, pairs: seq<Span>, original: seq<Span>, n: nat, wellFormed: bool,
                      b: seq<Span>, len: nat, next: Span, i: nat, done: string)
    requires Rendering(text, pairs, original, n, wellFormed, b, len, next, i, done) && i < |text|
    ensures var done' := done + MarkedByte(text[i], i == next.start, i == next.end - 1);
      (i != next.end - 1 ==> Rendering(text, pairs, original, n, wellFormed, b, len, next, i + 1, done'))
      && (i == next.end - 1 && len == 0 ==>
            Rendering(text, pairs, original, n, wellFormed, b, len, Span(-1, -1), i + 1, done'))
      && (i == next.end - 1 && len > 0 ==>
            Rendering(text, pairs, original, n, wellFormed, ShiftedLeft(b, len), len - 1, b[0], i + 1, done'))
  {
    var rest := b[..len];
    HighlightAdvance(text, i, next, rest, done, done + MarkedByte(text[i], i == next.start, i == next.end - 1));
    if i == next.end - 1 && len > 0 {
      PoppedToStep(b, len, original, n, pairs);
      assert b[0] == rest[0];
      assert ShiftedLeft(b, len)[..len - 1] == rest[1..];
      if wellFormed {
        var m := n - len;
        assert pairs[m - 1].end <= pairs[m].start < pairs[m].end;
      }
    }
  }

  /** With well-formed pairs every pair is popped by the end of the line. */
  lemma RenderingDone(text: string, pairs: seq<Span>, original: seq<Span>, n: nat,
                      b: seq<Span>, len: nat, next: Span, done: string)
    requires Rendering(text, pairs, original, n, true, b, len, next, |text|, done)
    ensures len == 0 && b == AfterPops(original, n, n)
  {
    var m := n - len - 1;
    assert 0 < pairs[m].end <= |text|;
  }

  /** One turn of the marker loop of search.go's getWordsWithColorCodes:
      the byte at `charIndex` with its markers, then, past the end of the
      pair looked for, the next pair popped off `line`, or (-1, -1) when
      none is left. */
  method RenderByte(text: string, line: PairSlice, charIndex: nat,
                    nextMatchStartIndex: int, nextMatchEndIndex: int, lineToRender: string,
                    ghost pairs: seq<Span>, ghost original: seq<Span>, ghost n: nat, ghost wellFormed: bool)
    returns (nextStart: int, nextEnd: int, rendered: string)
    requires line.Valid() && charIndex < |text|
    requires Rendering(text, pairs, original, n, wellFormed, line.backing[..], line.length,
                       Span(nextMatchStartIndex, nextMatchEndIndex), charIndex, lineToRender)
    modifies line, line.backing
    ensures line.Valid()
    ensures Rendering(text, pairs, original, n, wellFormed, line.backing[..], line.length,
                      Span(nextStart, nextEnd), charIndex + 1, rendered)
  {
    ghost var b := line.backing[..];
    RenderingStep(text, pairs, original, n, wellFormed, b, line.length,
                  Span(nextMatchStartIndex, nextMatchEndIndex), charIndex, lineToRender);
    // the yellow marker before a match's first byte, the cancel marker
    // after its last
    rendered := lineToRender + MarkedByte(text[charIndex], charIndex == nextMatchStartIndex, charIndex == nextMatchEndIndex - 1);
    nextStart, nextEnd := nextMatchStartIndex, nextMatchEndIndex;
    if charIndex == nextMatchEndIndex - 1 {
      if line.length > 0 {
        assert line.backing[0] == b[0];
        nextStart, nextEnd := line.PopNextMatchIndeces();
        assert Span(nextStart, nextEnd) == b[0];
      } else {
        nextStart := -1;
        nextEnd := -1;
      }
    }
  }

  /** The marker loop of search.go's getWordsWithColorCodes. It pops the
      pairs off `line`, a copy of the matched line's slice, so the popping
      also rewrites the backing array the file's own copy reads: once every
      pair is popped, all its places hold the last pair. */
  method HighlightPopping(text: string, line: PairSlice) returns (lineToRender: string)
    requires line.Valid() && line.length >= 1
    modifies line, line.backing
    ensures line.Valid()
    ensures lineToRender == Highlight(text, old(line.Pairs()))
    ensures WellFormedPairs(old(line.Pairs()), |text|) ==>
      line.length == 0 && line.backing[..] == AfterPops(old(line.backing[..]), old(line.length), old(line.length))
  {
    ghost var pairs := line.Pairs();
    ghost var original := line.backing[..];
    ghost var n := line.length;
    ghost var wellFormed := WellFormedPairs(pairs, |text|);
    PoppedToStep(original, n, original, n, pairs);
    var nextMatchStartIndex, nextMatchEndIndex := line.PopNextMatchIndeces();
    lineToRender := [];
    var charIndex := 0;
    assert Highlight(text, pairs) == HighlightFrom(text, 0, pairs[0], line.backing[..][..line.length]);
    while charIndex < |text|
      invariant line.Valid()
      invariant Rendering(text, pairs, original, n, wellFormed, line.backing[..], line.length,
                          Span(nextMatchStartIndex, nextMatchEndIndex), charIndex, lineToRender)
    {
      nextMatchStartIndex, nextMatchEndIndex, lineToRender :=
        RenderByte(text, line, charIndex, nextMatchStartIndex, nextMatchEndIndex, lineToRender,
                   pairs, original, n, wellFormed);
      charIndex := charIndex + 1;
    }
    if wellFormed {
      RenderingDone(text, pairs, original, n, line.backing[..], line.length,
                    Span(nextMatchStartIndex, nextMatchEndIndex), lineToRender);
    }
  }

  /** After one rendering of the line "ab" with matches on both bytes, the
      file's pairs read (1, 2) twice: the next rendering marks only "b". */
  lemma PoppedPairsLoseHighlights()
    ensures AfterPops([Span(0, 1), Span(1, 2)], 2, 2) == [Span(1, 2), Span(1, 2)]
    ensures Highlight("ab", [Span(1, 2), Span(1, 2)]) == "a" + YELLOW_COLOR_CODE + "b" + CANCEL_COLOR_CODE
    ensures Highlight("ab", [Span(0, 1), Span(1, 2)])
      == YELLOW_COLOR_CODE + "a" + CANCEL_COLOR_CODE + YELLOW_COLOR_CODE + "b" + CANCEL_COLOR_CODE
  {
    assert Repeat(Span(1, 2), 2) == [Span(1, 2), Span(1, 2)];
    var late := [Span(1, 2), Span(1, 2)];
    assert HighlightFrom("ab", 2, Span(1, 2), []) == [];
    assert HighlightFrom("ab", 1, Span(1, 2), late[1..]) == YELLOW_COLOR_CODE + "b" + CANCEL_COLOR_CODE;
    assert HighlightFrom("ab", 2, Span(-1, -1), []) == [];
    assert HighlightFrom("ab", 1, Span(1, 2), []) == YELLOW_COLOR_CODE + "b" + CANCEL_COLOR_CODE;
  }

  // ---------------------------------------------------------------------------
  // The words getWordsWithColorCodes returns
  // ---------------------------------------------------------------------------

  /** Where the shown words start when the first matched word is word `k`:
      as many words before it as there are, up to three. */
  function FirstWordToShowIndex(k: nat): (first: nat)
    ensures first <= k
    ensures k - first == if k < 3 then k else 3
  {
    if k < 4 then 0 else k - 3
  }

  /** The words of the marked-up line as getWordsWithColorCodes returns them:
      all of them when lines wrap; in truncate mode a suffix keeping the
      first matched word and at most three words before it. */
  function WordsToShow(words: seq<string>, shouldTruncate: bool): (shown: seq<string>)
    requires |words| >= 1
    ensures 1 <= |shown| <= |words| && shown == words[|words| - |shown|..]
    ensures !shouldTruncate ==> shown == words
    ensures shouldTruncate ==>
      var k := FirstMatchedWordIndex(words);
      var before := if k < 3 then k else 3;
      |words| - |shown| == k - before && shown[before] == words[k]
  {
    if shouldTruncate then words[FirstWordToShowIndex(FirstMatchedWordIndex(words))..] else words
  }

  /** search.go's getWordsWithColorCodes on the line `text` whose match pairs
      `line` holds: mark the matches while popping the pairs, split on
      spaces, and in truncate mode drop all but three words before the first
      match. */
  method GetWordsWithColorCodesV0(text: string, line: PairSlice, shouldTruncate: bool) returns (words: seq<string>)
    requires line.Valid() && line.length >= 1
    modifies line, line.backing
    ensures line.Valid()
    ensures words == WordsToShow(WordsWithColorCodes(text, old(line.Pairs())), shouldTruncate)
    ensures WellFormedPairs(old(line.Pairs()), |text|) ==>
      line.length == 0 && line.backing[..] == AfterPops(old(line.backing[..]), old(line.length), old(line.length))
  {
    var lineToRender := HighlightPopping(text, line);
    words := Split(lineToRender);
    if shouldTruncate {
      var firstMatchedWordIndex := FindFirstMatchedWord(words);
      var firstWordToShowIndex;
      if firstMatchedWordIndex < 4 {
        firstWordToShowIndex := 0;
      } else {
        firstWordToShowIndex := firstMatchedWordIndex - 3;
      }
      words := words[firstWordToShowIndex..];
    }
  }

  /** Without truncation, removing the markers from the words and joining
      them with single spaces gives the line back. */
  lemma WordsToShowRoundTrip(text: string, spans: seq<Span>)
    requires |spans| >= 1 && ESC !in text
    ensures Join(StripAll(WordsToShow(WordsWithColorCodes(text, spans), false))) == text
  {
    StripWordsRoundTrip(text, spans);
  }

  // ---------------------------------------------------------------------------
  // entityWillHitEndOfTty
  // ---------------------------------------------------------------------------

  /** search.go's entityWillHitEndOfTty: the visible width of `entity` plus
      that of every listed entity, line breaks, indents and buffers included,
      against the room for text. */
  predicate WillHitEndOfTtyV0(entity: string, entities: seq<string>, ttyWidth: int) {
    LengthOfEntity(entity) + SumLengths(entities) > RoomForText(ttyWidth)
  }

  lemma {:induction false} RowWidthAtMostSum(entities: seq<string>)
    ensures RowWidth(entities) <= SumLengths(entities)
  {
    if entities != [] && entities[|entities| - 1] != LINE_BREAK {
      RowWidthAtMostSum(entities[..|entities| - 1]);
    }
  }

  /** debounce_grep.go's test measures only the row after the last line break
      and never fires on an empty list. Whenever it fires this one does too,
      and on a non-empty list without line breaks the two agree. */
  lemma WillHitEndOfTtyV0Wider(entity: string, entities: seq<string>, ttyWidth: int)
    ensures WillHitEndOfTty(entity, entities, ttyWidth) ==> WillHitEndOfTtyV0(entity, entities, ttyWidth)
    ensures entities != [] && LINE_BREAK !in entities ==>
      (WillHitEndOfTty(entity, entities, ttyWidth) <==> WillHitEndOfTtyV0(entity, entities, ttyWidth))
  {
    RowWidthAtMostSum(entities);
    if entities != [] && LINE_BREAK !in entities {
      RowWidthWithoutBreaks(entities);
    }
  }

  // ---------------------------------------------------------------------------
  // renderMatchedLineText
  // ---------------------------------------------------------------------------

  /** Each word followed by a SPACE entity, as renderMatchedLineText lays
      out the words that fit. */
  function WithSpaces(words: seq<string>): (entities: seq<string>)
    ensures |entities| == 2 * |words|
  {
    if words == [] then [] else WithSpaces(words[..|words| - 1]) + [words[|words| - 1], SPACE]
  }

  lemma {:induction false} WithSpacesAppend(a: seq<string>, b: seq<string>)
    ensures WithSpaces(a + b) == WithSpaces(a) + WithSpaces(b)
    decreases |b|
  {
    if b == [] {
      assert a + b == a;
    } else {
      var n := |b| - 1;
      assert (a + b)[..|a + b| - 1] == a + b[..n];
      assert (a + b)[|a + b| - 1] == b[n];
      WithSpacesAppend(a, b[..n]);
    }
  }

  /** The spaced words keep every word, in order. */
  lemma {:induction false} WithSpacesContent(words: seq<string>)
    requires PlainWords(words)
    ensures Content(WithSpaces(words)) == words
  {
    if words != [] {
      var n := |words| - 1;
      PlainWordsPrefix(words, n);
      WithSpacesContent(words[..n]);
      assert words[n] in words;
      ContentWordSpace(words[n]);
      ContentAppend(WithSpaces(words[..n]), [words[n], SPACE]);
      PrefixSnoc(words, n);
      WholePrefix(words);
    }
  }

  /** The first word at or after `from` that would pass the room after the
      words before it, laid out with spaces; |words| when none would. */
  function FirstOverflowFrom(words: seq<string>, ttyWidth: int, from: nat): (i: nat)
    requires from <= |words|
    ensures from <= i <= |words|
    ensures i < |words| ==> WillHitEndOfTtyV0(words[i], WithSpaces(words[..i]), ttyWidth)
    ensures forall j :: from <= j < i ==> !WillHitEndOfTtyV0(words[j], WithSpaces(words[..j]), ttyWidth)
    decreases |words| - from
  {
    if from == |words| then from
    else if WillHitEndOfTtyV0(words[from], WithSpaces(words[..from]), ttyWidth) then from
    else FirstOverflowFrom(words, ttyWidth, from + 1)
  }

  /** The trimming loop of renderMatchedLineText: drop the last entity until
      an ellipsis fits after the rest. When even the ellipsis alone is too
      wide the list runs out and Go panics (None). */
  function TrimForEllipsis(entities: seq<string>, ttyWidth: int): (kept: Option<seq<string>>)
    ensures kept.None? <==> RoomForText(ttyWidth) < |ELLIPSIS|
    ensures kept.Some? ==> kept.value <= entities && !WillHitEndOfTtyV0(ELLIPSIS, kept.value, ttyWidth)
    decreases |entities|
  {
    LengthOfShortEntity(ELLIPSIS);
    if !WillHitEndOfTtyV0(ELLIPSIS, entities, ttyWidth) then Some(entities)
    else if entities == [] then None
    else TrimForEllipsis(entities[..|entities| - 1], ttyWidth)
  }

  /** The trimming keeps the longest prefix that leaves room for the
      ellipsis: one more entity would not. */
  lemma {:induction false} TrimKeepsLongest(entities: seq<string>, ttyWidth: int)
    requires TrimForEllipsis(entities, ttyWidth).Some?
    ensures var kept := TrimForEllipsis(entities, ttyWidth).value;
      kept == entities || WillHitEndOfTtyV0(ELLIPSIS, entities[..|kept| + 1], ttyWidth)
    decreases |entities|
  {
    if WillHitEndOfTtyV0(ELLIPSIS, entities, ttyWidth) {
      var shorter := entities[..|entities| - 1];
      TrimKeepsLongest(shorter, ttyWidth);
      var kept := TrimForEllipsis(shorter, ttyWidth).value;
      if kept == shorter {
        assert entities[..|kept| + 1] == entities;
      } else {
        assert shorter[..|kept| + 1] == entities[..|kept| + 1];
      }
    }
  }

  /** What renderMatchedLineText lays out in truncate mode: the words with
      spaces when none would pass the room. Otherwise, at the first word
      that would, the entities before it trimmed until an ellipsis fits,
      without a trailing space, then the ellipsis. None where Go panics: the
      trimming runs out of entities, or none is left to look at. */
  function TruncatedV0(words: seq<string>, ttyWidth: int): Option<seq<string>> {
    var i := FirstOverflowFrom(words, ttyWidth, 0);
    if i == |words| then Some(WithSpaces(words))
    else EllipsisEnding(WithSpaces(words[..i]), ttyWidth)
  }

  /** The entities before the first word that would pass the room, trimmed
      until an ellipsis fits, without a trailing space, then the ellipsis;
      None when the trimming runs out of entities or leaves none. */
  function EllipsisEnding(entities: seq<string>, ttyWidth: int): Option<seq<string>> {
    match TrimForEllipsis(entities, ttyWidth)
    case None => None
    case Some(kept) =>
      if kept == [] then None
      else Some(WithoutTrailingSpace(kept) + [ELLIPSIS])
  }

  function WithoutTrailingSpace(entities: seq<string>): (front: seq<string>)
    requires entities != []
    ensures front <= entities && SumLengths(front) <= SumLengths(entities)
  {
    var n := |entities| - 1;
    assert entities == entities[..n] + [entities[n]];
    SumLengthsAppend(entities[..n], [entities[n]]);
    if entities[n] == SPACE then entities[..n] else entities
  }

  lemma {:induction false} WithSpacesPrefix(words: seq<string>, i: nat)
    requires i <= |words|
    ensures WithSpaces(words[..i]) <= WithSpaces(words)
  {
    WithSpacesAppend(words[..i], words[i..]);
    assert words[..i] + words[i..] == words;
  }

  /** An ellipsis after what the trimming kept fits the room for text. */
  lemma EllipsisFits(kept: seq<string>, ttyWidth: int)
    requires kept != [] && !WillHitEndOfTtyV0(ELLIPSIS, kept, ttyWidth)
    ensures SumLengths(WithoutTrailingSpace(kept) + [ELLIPSIS]) <= RoomForText(ttyWidth)
  {
    SumLengthsAppend(WithoutTrailingSpace(kept), [ELLIPSIS]);
    EllipsisWidth();
    LengthOfShortEntity(ELLIPSIS);
  }

  /** A truncated line ends in the ellipsis, fits the room for text, and
      before the ellipsis is a prefix of the spaced words. */
  lemma TruncatedV0Shape(words: seq<string>, ttyWidth: int)
    requires FirstOverflowFrom(words, ttyWidth, 0) < |words| && TruncatedV0(words, ttyWidth).Some?
    ensures var t := TruncatedV0(words, ttyWidth).value;
      t != [] && t[|t| - 1] == ELLIPSIS && t[..|t| - 1] <= WithSpaces(words)
      && SumLengths(t) <= RoomForText(ttyWidth)
  {
    var i := FirstOverflowFrom(words, ttyWidth, 0);
    var kept := TrimForEllipsis(WithSpaces(words[..i]), ttyWidth).value;
    var t := WithoutTrailingSpace(kept) + [ELLIPSIS];
    assert TruncatedV0(words, ttyWidth) == Some(t);
    assert t[..|t| - 1] == WithoutTrailingSpace(kept);
    WithSpacesPrefix(words, i);
    EllipsisFits(kept, ttyWidth);
  }

  /** A first word wider than the room makes truncate mode panic: nothing is
      left before the ellipsis to look at. */
  lemma FirstWordTooWidePanics(words: seq<string>, ttyWidth: int)
    requires |words| >= 1 && LengthOfEntity(words[0]) > RoomForText(ttyWidth)
    ensures TruncatedV0(words, ttyWidth) == None
  {
    assert WithSpaces(words[..0]) == [];
    assert FirstOverflowFrom(words, ttyWidth, 0) == 0;
  }

  /** What renderMatchedLineText lays out in wrap mode: before each word that
      would pass the room a line break, the indent and the line-number
      buffer; then the word and a space. */
  function WrappedV0(words: seq<string>, ttyWidth: int): seq<string> {
    if words == [] then []
    else
      var n := |words| - 1;
      var before := WrappedV0(words[..n], ttyWidth);
      (if WillHitEndOfTtyV0(words[n], before, ttyWidth)
       then before + [LINE_BREAK, SEARCH_MATCH_SPACE_INDENT, LINE_NO_BUFFER]
       else before)
      + [words[n], SPACE]
  }

  /** Wrapping keeps every word, in order, and adds only separators. */
  lemma {:induction false} WrappedV0Content(words: seq<string>, ttyWidth: int)
    requires PlainWords(words)
    ensures Content(WrappedV0(words, ttyWidth)) == words
  {
    if words != [] {
      var n := |words| - 1;
      PlainWordsPrefix(words, n);
      WrappedV0Content(words[..n], ttyWidth);
      var before := WrappedV0(words[..n], ttyWidth);
      var opening := [LINE_BREAK, SEARCH_MATCH_SPACE_INDENT, LINE_NO_BUFFER];
      var head := if WillHitEndOfTtyV0(words[n], before, ttyWidth) then before + opening else before;
      if WillHitEndOfTtyV0(words[n], before, ttyWidth) {
        ContentAppend(before, opening);
        ContentRowOpening();
      }
      assert words[n] in words;
      ContentWordSpace(words[n]);
      ContentAppend(head, [words[n], SPACE]);
      PrefixSnoc(words, n);
      WholePrefix(words);
    }
  }

  /** The wrapped entities only grow as words are added. */
  lemma {:induction false} WrappedV0Grows(words: seq<string>, ttyWidth: int, k: nat, m: nat)
    requires k <= m <= |words|
    ensures SumLengths(WrappedV0(words[..k], ttyWidth)) <= SumLengths(WrappedV0(words[..m], ttyWidth))
    decreases m
  {
    if k < m {
      WrappedV0Grows(words, ttyWidth, k, m - 1);
      var before := WrappedV0(words[..m - 1], ttyWidth);
      PrefixSnoc(words, m - 1);
      var head := if WillHitEndOfTtyV0(words[m - 1], before, ttyWidth)
        then before + [LINE_BREAK, SEARCH_MATCH_SPACE_INDENT, LINE_NO_BUFFER] else before;
      assert WrappedV0(words[..m], ttyWidth) == head + [words[m - 1], SPACE];
      SumLengthsAppend(head, [words[m - 1], SPACE]);
      SumLengthsAppend(before, [LINE_BREAK, SEARCH_MATCH_SPACE_INDENT, LINE_NO_BUFFER]);
    }
  }

  /** The widths are summed over the whole list, so once one word wraps every
      later word starts a row of its own too, however short. */
  lemma {:induction false} WrappedV0BreaksForever(words: seq<string>, ttyWidth: int, i: nat)
    requires i < |words| && WillHitEndOfTtyV0(words[i], WrappedV0(words[..i], ttyWidth), ttyWidth)
    ensures forall j :: i <= j < |words| ==> WillHitEndOfTtyV0(words[j], WrappedV0(words[..j], ttyWidth), ttyWidth)
  {
    var before := WrappedV0(words[..i], ttyWidth);
    var opening := [LINE_BREAK, SEARCH_MATCH_SPACE_INDENT, LINE_NO_BUFFER];
    PrefixSnoc(words, i);
    assert WrappedV0(words[..i + 1], ttyWidth) == before + opening + [words[i], SPACE];
    SumLengthsAppend(before + opening, [words[i], SPACE]);
    SumLengthsAppend(before, opening);
    assert [words[i], SPACE][..1] == [words[i]];
    forall j | i < j < |words|
      ensures WillHitEndOfTtyV0(words[j], WrappedV0(words[..j], ttyWidth), ttyWidth)
    {
      WrappedV0Grows(words, ttyWidth, i + 1, j);
    }
  }

  /** The entities that open a new row are 7 columns wide. */
  lemma RowOpeningWidth()
    ensures SumLengths([LINE_BREAK, SEARCH_MATCH_SPACE_INDENT, LINE_NO_BUFFER]) == 7
  {
    var opening := [LINE_BREAK, SEARCH_MATCH_SPACE_INDENT, LINE_NO_BUFFER];
    LengthOfShortEntity(LINE_BREAK);
    LengthOfShortEntity(SEARCH_MATCH_SPACE_INDENT);
    LengthOfShortEntity(LINE_NO_BUFFER);
    assert opening[..2] == [LINE_BREAK, SEARCH_MATCH_SPACE_INDENT];
    assert opening[..2][..1] == [LINE_BREAK];
    assert opening[..2][..1][..0] == [];
    assert SumLengths([LINE_BREAK]) == 1;
    assert SumLengths(opening[..2]) == 4;
  }

  /** On a terminal 20 columns wide (12 for text), "bb" wraps after a word
      of 10 bytes, and the earlier test, which still counts the first row,
      wraps "c" after it as well. */
  lemma ShortWordWrapsAloneV0(a: string)
    requires |a| == 10 && ESC !in a
    ensures WrappedV0([a, "bb"], 20)
      == [a, SPACE, LINE_BREAK, SEARCH_MATCH_SPACE_INDENT, LINE_NO_BUFFER, "bb", SPACE]
    ensures WillHitEndOfTtyV0("c", WrappedV0([a, "bb"], 20), 20)
  {
    var first := [a, SPACE];
    var opening := [LINE_BREAK, SEARCH_MATCH_SPACE_INDENT, LINE_NO_BUFFER];
    var second := ["bb", SPACE];
    LengthOfPlainEntity(a);
    LengthOfShortEntity(SPACE);
    LengthOfShortEntity("bb");
    LengthOfShortEntity("c");
    SumLengthsPair(a, SPACE);
    SumLengthsPair("bb", SPACE);
    assert [a, "bb"][..1] == [a] && [a][..0] == [];
    assert WrappedV0([a], 20) == first;
    assert WrappedV0([a, "bb"], 20) == first + opening + second;
    RowOpeningWidth();
    SumLengthsAppend(first + opening, second);
    SumLengthsAppend(first, opening);
  }

  /** The row "bb" opens after a line break is 9 columns wide. */
  lemma RowAfterBreakWidth(a: string)
    ensures RowWidth([a, LINE_BREAK, SEARCH_MATCH_SPACE_INDENT, LINE_NO_BUFFER, "bb", SPACE]) == 9
  {
    var wrapped := [a, LINE_BREAK, SEARCH_MATCH_SPACE_INDENT, LINE_NO_BUFFER, "bb", SPACE];
    LengthOfShortEntity(SPACE);
    LengthOfShortEntity("bb");
    LengthOfShortEntity(SEARCH_MATCH_SPACE_INDENT);
    LengthOfShortEntity(LINE_NO_BUFFER);
    assert wrapped[..5] == [a, LINE_BREAK, SEARCH_MATCH_SPACE_INDENT, LINE_NO_BUFFER, "bb"];
    assert wrapped[..5][..4] == [a, LINE_BREAK, SEARCH_MATCH_SPACE_INDENT, LINE_NO_BUFFER];
    assert wrapped[..5][..4][..3] == [a, LINE_BREAK, SEARCH_MATCH_SPACE_INDENT];
    assert wrapped[..5][..4][..3][..2] == [a, LINE_BREAK];
    assert RowWidth([a, LINE_BREAK]) == 0;
    assert RowWidth(wrapped[..5][..4][..3]) == 3;
    assert RowWidth(wrapped[..5][..4]) == 6;
    assert RowWidth(wrapped[..5]) == 8;
  }

  /** The first row, a word of 10 bytes and a space, leaves no room for "bb". */
  lemma FirstRowFull(a: string)
    requires |a| == 10 && ESC !in a
    ensures WillHitEndOfTty("bb", [a, SPACE], 20)
  {
    LengthOfPlainEntity(a);
    LengthOfShortEntity(SPACE);
    LengthOfShortEntity("bb");
    assert [a, SPACE][..1] == [a] && [a][..0] == [];
    assert a != LINE_BREAK && SPACE != LINE_BREAK;
    assert RowWidth([a]) == 10;
  }

  /** On the same terminal the current test measures only the row that
      "bb" opened, 9 columns wide, so "c" joins that row. */
  lemma ShortWordJoinsRow(a: string)
    requires |a| == 10 && ESC !in a && ' ' !in a && '\n' !in a
    ensures PlainWords([a, "bb"])
    ensures Wrapped([a, "bb"], 20)
      == [a, LINE_BREAK, SEARCH_MATCH_SPACE_INDENT, LINE_NO_BUFFER, "bb", SPACE]
    ensures !WillHitEndOfTty("c", Wrapped([a, "bb"], 20), 20)
  {
    var words := [a, "bb"];
    var first := [a, SPACE];
    assert PlainWords(words);
    assert words[..1] == [a] && [a][..0] == [];
    assert Wrapped(words[..1], 20) == first;
    FirstRowFull(a);
    assert RemoveSpacesOnEnds(first) == [a];
    assert Wrapped(words, 20) == [a] + [LINE_BREAK, SEARCH_MATCH_SPACE_INDENT, LINE_NO_BUFFER] + ["bb", SPACE];
    RowAfterBreakWidth(a);
    LengthOfShortEntity("c");
  }

  /** The end of truncate mode in renderMatchedLineText: drop the last
      entity until the ellipsis fits (indexing the empty list panics, None),
      drop a trailing space, then add the ellipsis. */
  method EndWithEllipsis(entities: seq<string>, ttyWidth: int) returns (ending: Option<seq<string>>)
    ensures ending == EllipsisEnding(entities, ttyWidth)
  {
    var kept := entities;
    // make sure the ellipsis does not hit the end of the tty
    while WillHitEndOfTtyV0(ELLIPSIS, kept, ttyWidth)
      invariant TrimForEllipsis(kept, ttyWidth) == TrimForEllipsis(entities, ttyWidth)
      decreases |kept|
    {
      if kept == [] {
        return None;
      }
      kept := kept[..|kept| - 1];
    }
    if kept == [] {
      return None;
    }
    // the last entity before the ellipsis is not a space
    if kept[|kept| - 1] == SPACE {
      kept := kept[..|kept| - 1];
    }
    ending := Some(kept + [ELLIPSIS]);
  }

  /** One more word of the truncate-mode loop, when it does not pass the
      room: the word and a space follow, and the first word that would pass
      the room is still ahead. */
  lemma WithSpacesStep(words: seq<string>, i: nat, ttyWidth: int)
    requires i < |words| && i <= FirstOverflowFrom(words, ttyWidth, 0)
    requires !WillHitEndOfTtyV0(words[i], WithSpaces(words[..i]), ttyWidth)
    ensures WithSpaces(words[..i + 1]) == WithSpaces(words[..i]) + [words[i]] + [SPACE]
    ensures i + 1 <= FirstOverflowFrom(words, ttyWidth, 0)
  {
    var first := FirstOverflowFrom(words, ttyWidth, 0);
    assert first != i;
    var spaced := WithSpaces(words[..i]);
    PrefixSnoc(words, i);
    assert WithSpaces(words[..i + 1]) == spaced + [words[i], SPACE];
  }

  /** One more word of the wrap-mode loop. */
  lemma WrappedV0Step(words: seq<string>, i: nat, ttyWidth: int)
    requires i < |words|
    ensures var before := WrappedV0(words[..i], ttyWidth);
      WrappedV0(words[..i + 1], ttyWidth)
      == (if WillHitEndOfTtyV0(words[i], before, ttyWidth)
          then before + [LINE_BREAK, SEARCH_MATCH_SPACE_INDENT, LINE_NO_BUFFER]
          else before) + [words[i]] + [SPACE]
  {
    PrefixSnoc(words, i);
  }

  /** The word loop of search.go's renderMatchedLineText. In truncate mode
      the first word that would pass the room ends the line: entities are
      dropped from the end until an ellipsis fits, then a trailing space,
      and the ellipsis goes last. In wrap mode a new row is opened before
      each such word. None stands for the panics of the truncation. */
  method LayOutWordsV0(words: seq<string>, ttyWidth: int, shouldTruncate: bool)
    returns (entitiesToPrint: Option<seq<string>>)
    ensures shouldTruncate ==> entitiesToPrint == TruncatedV0(words, ttyWidth)
    ensures !shouldTruncate ==> entitiesToPrint == Some(WrappedV0(words, ttyWidth))
  {
    var entities: seq<string> := [];
    var i := 0;
    while i < |words|
      invariant 0 <= i <= |words|
      invariant shouldTruncate ==> i <= FirstOverflowFrom(words, ttyWidth, 0) && entities == WithSpaces(words[..i])
      invariant !shouldTruncate ==> entities == WrappedV0(words[..i], ttyWidth)
    {
      var word := words[i];
      if WillHitEndOfTtyV0(word, entities, ttyWidth) {
        if shouldTruncate {
          assert i == FirstOverflowFrom(words, ttyWidth, 0);
          entitiesToPrint := EndWithEllipsis(entities, ttyWidth);
          return;
        } else {
          entities := entities + [LINE_BREAK, SEARCH_MATCH_SPACE_INDENT, LINE_NO_BUFFER];
        }
      }
      entities := entities + [word];
      entities := entities + [SPACE];
      if shouldTruncate {
        WithSpacesStep(words, i, ttyWidth);
      } else {
        WrappedV0Step(words, i, ttyWidth);
      }
      i := i + 1;
    }
    WholePrefix(words);
    entitiesToPrint := Some(entities);
  }

  /** search.go's renderMatchedLineText without the printing: the words of
      the line laid out for the terminal. */
  method RenderMatchedLineTextV0(text: string, line: PairSlice, ttyWidth: int, shouldTruncate: bool)
    returns (entitiesToPrint: Option<seq<string>>)
    requires line.Valid() && line.length >= 1
    modifies line, line.backing
    ensures line.Valid()
    ensures var words := WordsToShow(WordsWithColorCodes(text, old(line.Pairs())), shouldTruncate);
      entitiesToPrint == if shouldTruncate then TruncatedV0(words, ttyWidth) else Some(WrappedV0(words, ttyWidth))
    ensures WellFormedPairs(old(line.Pairs()), |text|) ==>
      line.length == 0 && line.backing[..] == AfterPops(old(line.backing[..]), old(line.length), old(line.length))
  {
    var words := GetWordsWithColorCodesV0(text, line, shouldTruncate);
    entitiesToPrint := LayOutWordsV0(words, ttyWidth, shouldTruncate);
  }
}
