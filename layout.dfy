/** How debounce_grep.go lays out one matched line: the overflow test that
    only looks at the row after the last line break, whole-line wrapping,
    and truncation that grows around the first matched word. */
module Layout {
  import opened Text
  import opened Matcher

  // ---------------------------------------------------------------------------
  // Entities
  // ---------------------------------------------------------------------------

  /** Words cut from one line of a file: no space (they were split on it)
      and no line feed (lines are read without it). */
  predicate PlainWords(words: seq<string>) {
    forall w <- words :: ' ' !in w && '\n' !in w
  }

  /** The entities the layout inserts between words. */
  predicate IsSeparator(e: string) {
    e == SPACE || e == LINE_BREAK || e == SEARCH_MATCH_SPACE_INDENT || e == LINE_NO_BUFFER
  }

  lemma {:induction false} PlainWordIsNotSeparator(w: string)
    requires ' ' !in w && '\n' !in w
    ensures !IsSeparator(w)
  {
    assert SPACE[0] == ' ' && LINE_BREAK[0] == '\n';
    assert SEARCH_MATCH_SPACE_INDENT[0] == ' ' && LINE_NO_BUFFER[0] == ' ';
  }

  /** The words of an entity list: everything but the separators, in order. */
  function Content(entities: seq<string>): seq<string> {
    if entities == [] then []
    else
      var n := |entities| - 1;
      Content(entities[..n]) + (if IsSeparator(entities[n]) then [] else [entities[n]])
  }

  lemma {:induction false} ContentAppend(a: seq<string>, b: seq<string>)
    ensures Content(a + b) == Content(a) + Content(b)
    decreases |b|
  {
    if b == [] {
      assert a + b == a;
    } else {
      var n := |b| - 1;
      assert (a + b)[..|a + b| - 1] == a + b[..n];
      assert (a + b)[|a + b| - 1] == b[n];
      ContentAppend(a, b[..n]);
    }
  }

  lemma {:induction false} ContentSingle(e: string)
    ensures Content([e]) == if IsSeparator(e) then [] else [e]
  {
    assert [e][..0] == [];
  }

  /** A spaced run of plain words has exactly those words as content. */
  lemma {:induction false} ContentSpaced(words: seq<string>)
    requires PlainWords(words)
    ensures Content(Spaced(words)) == words
  {
    if |words| == 1 {
      PlainWordIsNotSeparator(words[0]);
      ContentSingle(words[0]);
      assert Spaced(words) == [words[0]];
    } else if |words| > 1 {
      var w := words[0];
      var tail := words[1..];
      assert PlainWords(tail) by {
        forall v | v in tail ensures ' ' !in v && '\n' !in v {
          assert v in words;
        }
      }
      ContentSpaced(tail);
      PlainWordIsNotSeparator(w);
      ContentSingle(w);
      ContentSingle(SPACE);
      ContentAppend([w], [SPACE]);
      assert [w] + [SPACE] == [w, SPACE];
      ContentAppend([w, SPACE], Spaced(tail));
      calc {
        Content(Spaced(words));
        { assert Spaced(words) == [w, SPACE] + Spaced(tail); }
        Content([w, SPACE] + Spaced(tail));
        Content([w, SPACE]) + Content(Spaced(tail));
        [w] + tail;
        { assert words == [w] + tail; }
        words;
      }
    }
  }

  function Pad(present: bool): seq<string> {
    if present then [SPACE] else []
  }

  // ---------------------------------------------------------------------------
  // entityWillHitEndOfTty and removeSpacesOnEnds
  // ---------------------------------------------------------------------------

  /** Position of the last LINE_BREAK entity, or -1 when there is none. */
  function LastLineBreakIndex(entities: seq<string>): (i: int)
    ensures -1 <= i < |entities|
    ensures i >= 0 ==> entities[i] == LINE_BREAK
    ensures forall j :: i < j < |entities| ==> entities[j] != LINE_BREAK
  {
    if entities == [] then -1
    else if entities[|entities| - 1] == LINE_BREAK then |entities| - 1
    else LastLineBreakIndex(entities[..|entities| - 1])
  }

  /** Visible width of the entities after the last LINE_BREAK (the row being
      built). */
  function RowWidth(entities: seq<string>): nat {
    if entities == [] then 0
    else if entities[|entities| - 1] == LINE_BREAK then 0
    else RowWidth(entities[..|entities| - 1]) + LengthOfEntity(entities[|entities| - 1])
  }

  /** Whether adding `entity` to the row being built would pass the room for
      text: never for an empty list; otherwise the visible width of `entity`
      plus that of every entity after the last line break. */
  predicate WillHitEndOfTty(entity: string, entities: seq<string>, ttyWidth: int) {
    |entities| != 0 && LengthOfEntity(entity) + RowWidth(entities) > RoomForText(ttyWidth)
  }

  /** The row width is the sum over the slice after the last line break, as
      entityWillHitEndOfTty finds it with its backward search. */
  lemma {:induction false} RowWidthAfterLastBreak(entities: seq<string>)
    ensures RowWidth(entities) == SumLengths(entities[LastLineBreakIndex(entities) + 1..])
  {
    if entities == [] {
    } else if entities[|entities| - 1] == LINE_BREAK {
      assert entities[|entities|..] == [];
    } else {
      var n := |entities| - 1;
      var prefix := entities[..n];
      RowWidthAfterLastBreak(prefix);
      var i := LastLineBreakIndex(prefix);
      assert LastLineBreakIndex(entities) == i;
      var tail := entities[i + 1..];
      assert tail[..|tail| - 1] == prefix[i + 1..];
      assert tail[|tail| - 1] == entities[n];
      assert RowWidth(entities) == RowWidth(prefix) + LengthOfEntity(entities[n]);
      assert SumLengths(tail) == SumLengths(prefix[i + 1..]) + LengthOfEntity(entities[n]);
    }
  }

  /** Without line breaks, the row is the whole list. */
  lemma {:induction false} RowWidthWithoutBreaks(entities: seq<string>)
    requires LINE_BREAK !in entities
    ensures RowWidth(entities) == SumLengths(entities)
  {
    if entities != [] {
      var n := |entities| - 1;
      assert entities[n] in entities;
      assert LINE_BREAK !in entities[..n] by {
        forall e | e in entities[..n] ensures e != LINE_BREAK {
          assert e in entities;
        }
      }
      RowWidthWithoutBreaks(entities[..n]);
    }
  }

  /** Appending entities without a line break widens the row by their width. */
  lemma {:induction false} RowWidthAppend(xs: seq<string>, ys: seq<string>)
    requires LINE_BREAK !in ys
    ensures RowWidth(xs + ys) == RowWidth(xs) + SumLengths(ys)
    decreases |ys|
  {
    if ys == [] {
      assert xs + ys == xs;
    } else {
      var n := |ys| - 1;
      assert ys[n] in ys;
      assert LINE_BREAK !in ys[..n] by {
        forall e | e in ys[..n] ensures e != LINE_BREAK {
          assert e in ys;
        }
      }
      assert (xs + ys)[..|xs + ys| - 1] == xs + ys[..n];
      assert (xs + ys)[|xs + ys| - 1] == ys[n];
      RowWidthAppend(xs, ys[..n]);
    }
  }

  /** Without a line break the whole list is one row. */
  lemma {:induction false} WillHitEndOfTtyWithoutBreaks(entity: string, entities: seq<string>, ttyWidth: int)
    requires entities != [] && LINE_BREAK !in entities
    ensures WillHitEndOfTty(entity, entities, ttyWidth)
        <==> LengthOfEntity(entity) + SumLengths(entities) > RoomForText(ttyWidth)
  {
    RowWidthWithoutBreaks(entities);
  }

  /** Only the entities after the last line break are measured. */
  lemma {:induction false} WillHitEndOfTtyAfterBreak(entity: string, before: seq<string>, row: seq<string>, ttyWidth: int)
    requires LINE_BREAK !in row
    ensures WillHitEndOfTty(entity, before + [LINE_BREAK] + row, ttyWidth)
        <==> LengthOfEntity(entity) + SumLengths(row) > RoomForText(ttyWidth)
  {
    RowWidthAppend(before + [LINE_BREAK], row);
  }

  /** A lone ellipsis is a row three columns wide. */
  lemma {:induction false} WillHitEndOfTtyBeforeEllipsis(entity: string, ttyWidth: int)
    ensures WillHitEndOfTty(entity, [ELLIPSIS], ttyWidth)
        <==> LengthOfEntity(entity) + |ELLIPSIS| > RoomForText(ttyWidth)
  {
    EllipsisWidth();
    assert LINE_BREAK !in [ELLIPSIS] by {
      assert [ELLIPSIS][0] != LINE_BREAK;
    }
    RowWidthWithoutBreaks([ELLIPSIS]);
  }

  lemma EllipsisWidth()
    ensures SumLengths([ELLIPSIS]) == |ELLIPSIS|
  {
    LengthOfShortEntity(ELLIPSIS);
    assert [ELLIPSIS][..0] == [];
  }

  /** The list without one leading and one trailing SPACE entity; the words
      it holds are unchanged. */
  function RemoveSpacesOnEnds(entities: seq<string>): (trimmed: seq<string>)
    requires |entities| >= 1 && (entities[0] == SPACE ==> |entities| >= 2)
    ensures Content(trimmed) == Content(entities)
    ensures entities[0] != SPACE && entities[|entities| - 1] == SPACE ==> trimmed == entities[..|entities| - 1]
    ensures entities[0] == SPACE && entities[|entities| - 1] != SPACE ==> trimmed == entities[1..]
    ensures entities[0] != SPACE && entities[|entities| - 1] != SPACE ==> trimmed == entities
    ensures entities[0] == SPACE && entities[|entities| - 1] == SPACE ==> trimmed == entities[1..|entities| - 1]
  {
    var front := if entities[0] == SPACE then entities[1..] else entities;
    ContentWithoutFirstSpace(entities);
    var back := if front[|front| - 1] == SPACE then front[..|front| - 1] else front;
    ContentWithoutLastSpace(front);
    back
  }

  lemma ContentWithoutFirstSpace(entities: seq<string>)
    requires |entities| >= 1
    ensures entities[0] == SPACE ==> Content(entities[1..]) == Content(entities)
  {
    ContentAppend(entities[..1], entities[1..]);
    assert entities == entities[..1] + entities[1..];
    assert entities[..1] == [entities[0]];
    ContentSingle(entities[0]);
  }

  lemma ContentWithoutLastSpace(entities: seq<string>)
    requires |entities| >= 1
    ensures entities[|entities| - 1] == SPACE ==> Content(entities[..|entities| - 1]) == Content(entities)
  {
    var n := |entities| - 1;
    assert entities == entities[..n] + [entities[n]];
    ContentAppend(entities[..n], [entities[n]]);
    ContentSingle(entities[n]);
  }

  // ---------------------------------------------------------------------------
  // getWordsWithColorCodes
  // ---------------------------------------------------------------------------

  lemma {:induction false} SplitKeepsOut(s: string, c: char)
    requires c !in s
    ensures forall w <- Split(s) :: c !in w
  {
    if s != [] {
      SplitKeepsOut(s[1..], c);
    }
  }

  lemma {:induction false} HighlightKeepsOut(text: string, i: nat, next: Span, rest: seq<Span>, c: char)
    requires i <= |text| && c !in text[i..]
    requires c !in YELLOW_COLOR_CODE && c !in CANCEL_COLOR_CODE
    ensures c !in HighlightFrom(text, i, next, rest)
    decreases |text| - i
  {
    if i < |text| {
      assert text[i] in text[i..];
      assert text[i + 1..] == text[i..][1..];
      HighlightKeepsOut(text, i + 1, NextPair(i, next, rest), PairsAfter(i, next, rest), c);
    }
  }

  /** A line without a line feed gives plain words once the markers are in. */
  lemma {:induction false} WordsWithColorCodesArePlain(text: string, spans: seq<Span>)
    requires |spans| >= 1 && '\n' !in text
    ensures PlainWords(WordsWithColorCodes(text, spans))
  {
    assert text[0..] == text;
    HighlightKeepsOut(text, 0, spans[0], spans[1..], '\n');
    SplitKeepsOut(Highlight(text, spans), '\n');
  }

  lemma {:induction false} HighlightFromStep(text: string, i: nat, next: Span, rest: seq<Span>)
    requires i < |text|
    ensures HighlightFrom(text, i, next, rest)
      == MarkedByte(text[i], i == next.start, i == next.end - 1)
         + HighlightFrom(text, i + 1, NextPair(i, next, rest), PairsAfter(i, next, rest))
  {
  }

  lemma {:induction false} HighlightAdvance(text: string, i: nat, next: Span, rest: seq<Span>, before: string, after: string)
    requires i < |text|
    requires after == before + MarkedByte(text[i], i == next.start, i == next.end - 1)
    ensures after + HighlightFrom(text, i + 1, NextPair(i, next, rest), PairsAfter(i, next, rest))
         == before + HighlightFrom(text, i, next, rest)
  {
    HighlightFromStep(text, i, next, rest);
  }

  /** The marker loop of getWordsWithColorCodes: walk the bytes of the line,
      putting the yellow marker before each match and the cancel marker after
      it, reading the pairs by index. */
  method InsertColorCodes(text: string, spans: seq<Span>) returns (lineToRender: string)
    requires |spans| >= 1
    ensures lineToRender == Highlight(text, spans)
  {
    lineToRender := [];
    var nextMatchIndexPairIndex := 0;
    var nextMatchStartIndex, nextMatchEndIndex := spans[0].start, spans[0].end;
    ghost var rest := spans[1..];
    ghost var marked := Highlight(text, spans);
    var charIndex := 0;
    while charIndex < |text|
      invariant 0 <= charIndex <= |text|
      invariant PairCursor(spans, nextMatchIndexPairIndex, nextMatchStartIndex, nextMatchEndIndex, rest)
      invariant lineToRender + HighlightFrom(text, charIndex, Span(nextMatchStartIndex, nextMatchEndIndex), rest) == marked
    {
      ghost var next := Span(nextMatchStartIndex, nextMatchEndIndex);
      ghost var restBefore := rest;
      ghost var before := lineToRender;
      var ch := text[charIndex];
      ghost var opening, closing := charIndex == next.start, charIndex == next.end - 1;
      if charIndex == nextMatchStartIndex {
        lineToRender := lineToRender + YELLOW_COLOR_CODE;
      }
      ghost var withOpening := lineToRender;
      lineToRender := lineToRender + [ch];
      if charIndex == nextMatchEndIndex - 1 {
        lineToRender := lineToRender + CANCEL_COLOR_CODE;
      }
      assert lineToRender + HighlightFrom(text, charIndex + 1, NextPair(charIndex, next, restBefore),
                                          PairsAfter(charIndex, next, restBefore)) == marked by {
        MarkedByteAppended(before, withOpening, lineToRender, ch, opening, closing);
        HighlightAdvance(text, charIndex, next, restBefore, before, lineToRender);
      }
      if charIndex == nextMatchEndIndex - 1 {
        PairCursorAdvance(spans, nextMatchIndexPairIndex, nextMatchStartIndex, nextMatchEndIndex, rest, charIndex);
        if nextMatchIndexPairIndex < |spans| - 1 {
          nextMatchIndexPairIndex := nextMatchIndexPairIndex + 1;
          nextMatchStartIndex, nextMatchEndIndex := spans[nextMatchIndexPairIndex].start, spans[nextMatchIndexPairIndex].end;
          rest := rest[1..];
        } else {
          nextMatchStartIndex, nextMatchEndIndex := -1, -1;
          rest := [];
        }
      }
      charIndex := charIndex + 1;
    }
  }

  /** Appending the opening marker when due, the byte, then the closing
      marker when due, appends the marked byte. */
  lemma MarkedByteAppended(before: string, withOpening: string, after: string, c: char, opens: bool, closes: bool)
    requires withOpening == before + (if opens then YELLOW_COLOR_CODE else [])
    requires after == withOpening + [c] + (if closes then CANCEL_COLOR_CODE else [])
    ensures after == before + MarkedByte(c, opens, closes)
  {
  }

  /** Where the marker loop stands in the pairs of a line: at pair `i`, with
      the pairs after it still to come, or past the last pair, at (-1, -1). */
  ghost predicate PairCursor(spans: seq<Span>, i: int, start: int, end: int, rest: seq<Span>) {
    0 <= i < |spans|
    && ((start == -1 && end == -1 && rest == [])
        || (Span(start, end) == spans[i] && rest == spans[i + 1..]))
  }

  /** Passing the last byte of the current pair moves the cursor to the next
      pair, or past the last one, just as the marked-up line expects. */
  lemma PairCursorAdvance(spans: seq<Span>, i: int, start: int, end: int, rest: seq<Span>, charIndex: nat)
    requires PairCursor(spans, i, start, end, rest) && charIndex == end - 1
    ensures i < |spans| - 1 ==>
      rest != [] && PairCursor(spans, i + 1, spans[i + 1].start, spans[i + 1].end, rest[1..])
      && Span(spans[i + 1].start, spans[i + 1].end) == NextPair(charIndex, Span(start, end), rest)
      && rest[1..] == PairsAfter(charIndex, Span(start, end), rest)
    ensures i >= |spans| - 1 ==>
      PairCursor(spans, i, -1, -1, [])
      && Span(-1, -1) == NextPair(charIndex, Span(start, end), rest)
      && [] == PairsAfter(charIndex, Span(start, end), rest)
  {
    if i < |spans| - 1 {
      assert rest == spans[i + 1..];
      assert rest[1..] == spans[i + 2..];
    }
  }

  /** getWordsWithColorCodes: the marked-up line split on spaces. Stripping
      the markers and joining the words with single spaces gives the line
      back. */
  method GetWordsWithColorCodes(line: LineWithMatches) returns (words: seq<string>)
    requires |line.matchIndeces| >= 1
    ensures words == WordsWithColorCodes(line.text, line.matchIndeces)
    ensures ESC !in line.text ==> Join(StripAll(words)) == line.text
  {
    var lineToRender := InsertColorCodes(line.text, line.matchIndeces);
    words := Split(lineToRender);
    if ESC !in line.text {
      StripWordsRoundTrip(line.text, line.matchIndeces);
    }
  }

  // ---------------------------------------------------------------------------
  // insertLineBreaksAndBuffers
  // ---------------------------------------------------------------------------

  lemma {:induction false} ContentWordSpace(w: string)
    requires ' ' !in w && '\n' !in w
    ensures Content([w, SPACE]) == [w]
  {
    PlainWordIsNotSeparator(w);
    ContentSingle(w);
    ContentSingle(SPACE);
    ContentAppend([w], [SPACE]);
    assert [w] + [SPACE] == [w, SPACE];
  }

  lemma {:induction false} ContentRowOpening()
    ensures Content([LINE_BREAK, SEARCH_MATCH_SPACE_INDENT, LINE_NO_BUFFER]) == []
  {
    ContentSingle(LINE_BREAK);
    ContentSingle(SEARCH_MATCH_SPACE_INDENT);
    ContentSingle(LINE_NO_BUFFER);
    ContentAppend([LINE_BREAK], [SEARCH_MATCH_SPACE_INDENT]);
    ContentAppend([LINE_BREAK, SEARCH_MATCH_SPACE_INDENT], [LINE_NO_BUFFER]);
    assert [LINE_BREAK] + [SEARCH_MATCH_SPACE_INDENT] == [LINE_BREAK, SEARCH_MATCH_SPACE_INDENT];
    assert [LINE_BREAK, SEARCH_MATCH_SPACE_INDENT] + [LINE_NO_BUFFER] == [LINE_BREAK, SEARCH_MATCH_SPACE_INDENT, LINE_NO_BUFFER];
  }

  /** One word of insertLineBreaksAndBuffers: when `word` would pass the room,
      the row is closed (end spaces trimmed) and a new one is opened with a
      line break, the indent and the line-number buffer; then the word and a
      space follow. */
  function WrapStep(entities: seq<string>, word: string, ttyWidth: int): seq<string>
    requires entities == [] || (|entities| >= 2 && entities[0] != SPACE)
  {
    (if WillHitEndOfTty(word, entities, ttyWidth)
     then RemoveSpacesOnEnds(entities) + [LINE_BREAK, SEARCH_MATCH_SPACE_INDENT, LINE_NO_BUFFER]
     else entities)
    + [word, SPACE]
  }

  lemma {:induction false} PlainWordsPrefix(words: seq<string>, n: nat)
    requires PlainWords(words) && n <= |words|
    ensures PlainWords(words[..n])
  {
    forall w | w in words[..n] ensures ' ' !in w && '\n' !in w {
      var j :| 0 <= j < n && words[..n][j] == w;
      assert words[j] == w;
    }
  }

  /** The entity list insertLineBreaksAndBuffers builds from `words`. */
  function Wrapped(words: seq<string>, ttyWidth: int): (entities: seq<string>)
    requires PlainWords(words)
    ensures words == [] <==> entities == []
    ensures words != [] ==> |entities| >= 2 && entities[0] == words[0] && entities[|entities| - 1] == SPACE
  {
    if words == [] then []
    else
      var n := |words| - 1;
      PlainWordsPrefix(words, n);
      PlainWordIsNotSeparator(words[0]);
      WrapStep(Wrapped(words[..n], ttyWidth), words[n], ttyWidth)
  }

  lemma {:induction false} ContentWrapStep(entities: seq<string>, word: string, ttyWidth: int)
    requires entities == [] || (|entities| >= 2 && entities[0] != SPACE)
    requires ' ' !in word && '\n' !in word
    ensures Content(WrapStep(entities, word, ttyWidth)) == Content(entities) + [word]
  {
    var opening := [LINE_BREAK, SEARCH_MATCH_SPACE_INDENT, LINE_NO_BUFFER];
    var head := if WillHitEndOfTty(word, entities, ttyWidth) then RemoveSpacesOnEnds(entities) + opening else entities;
    assert WrapStep(entities, word, ttyWidth) == head + [word, SPACE];
    if WillHitEndOfTty(word, entities, ttyWidth) {
      ContentAppend(RemoveSpacesOnEnds(entities), opening);
      ContentRowOpening();
    }
    ContentAppend(head, [word, SPACE]);
    ContentWordSpace(word);
  }

  /** Wrapping keeps every word, in order, and adds only separators. */
  lemma {:induction false} WrappedContent(words: seq<string>, ttyWidth: int)
    requires PlainWords(words)
    ensures Content(Wrapped(words, ttyWidth)) == words
  {
    if words != [] {
      var n := |words| - 1;
      PlainWordsPrefix(words, n);
      WrappedContent(words[..n], ttyWidth);
      if n > 0 {
        PlainWordIsNotSeparator(words[0]);
      }
      var acc := Wrapped(words[..n], ttyWidth);
      assert Wrapped(words, ttyWidth) == WrapStep(acc, words[n], ttyWidth);
      assert acc == [] || (|acc| >= 2 && acc[0] != SPACE);
      ContentWrapStep(acc, words[n], ttyWidth);
      PrefixSnoc(words, n);
    }
  }

  lemma {:induction false} WrappedSnoc(words: seq<string>, i: nat, ttyWidth: int)
    requires PlainWords(words) && i < |words|
    ensures PlainWords(words[..i]) && PlainWords(words[..i + 1])
    ensures var acc := Wrapped(words[..i], ttyWidth);
      (acc == [] || (|acc| >= 2 && acc[0] != SPACE))
      && Wrapped(words[..i + 1], ttyWidth) == WrapStep(acc, words[i], ttyWidth)
  {
    PlainWordsPrefix(words, i);
    PlainWordsPrefix(words, i + 1);
    PrefixSnoc(words, i);
    if i > 0 {
      PlainWordIsNotSeparator(words[0]);
    }
  }

  /** The rows of an entity list: the runs between LINE_BREAK entities. */
  function Rows(entities: seq<string>): (rows: seq<seq<string>>)
    ensures |rows| >= 1
    decreases |entities|
  {
    var i := LastLineBreakIndex(entities);
    if i < 0 then [entities] else Rows(entities[..i]) + [entities[i + 1..]]
  }

  /** The last row is what the overflow test measures. */
  lemma {:induction false} RowsLast(entities: seq<string>)
    ensures Rows(entities)[|Rows(entities)| - 1] == entities[LastLineBreakIndex(entities) + 1..]
  {
    if LastLineBreakIndex(entities) < 0 {
      assert entities[0..] == entities;
    }
  }

  lemma {:induction false} LastLineBreakIndexAppend(xs: seq<string>, ys: seq<string>)
    requires LINE_BREAK !in ys
    ensures LastLineBreakIndex(xs + ys) == LastLineBreakIndex(xs)
    decreases |ys|
  {
    if ys != [] {
      var n := |ys| - 1;
      assert ys[n] in ys;
      assert (xs + ys)[..|xs + ys| - 1] == xs + ys[..n];
      assert LINE_BREAK !in ys[..n] by {
        forall e | e in ys[..n] ensures e != LINE_BREAK {
          var j :| 0 <= j < n && ys[..n][j] == e;
          assert ys[j] == e;
          assert ys[j] in ys;
        }
      }
      LastLineBreakIndexAppend(xs, ys[..n]);
    } else {
      assert xs + ys == xs;
    }
  }

  /** Appending entities without a line break extends the last row. */
  lemma {:induction false} RowsAppendWithoutBreak(xs: seq<string>, ys: seq<string>)
    requires LINE_BREAK !in ys
    ensures var r := Rows(xs); var k := |r| - 1;
      Rows(xs + ys) == r[..k] + [r[k] + ys]
  {
    LastLineBreakIndexAppend(xs, ys);
    var i := LastLineBreakIndex(xs);
    var r := Rows(xs);
    var k := |r| - 1;
    if i < 0 {
      assert r[..k] == [];
    } else {
      assert (xs + ys)[..i] == xs[..i];
      assert (xs + ys)[i + 1..] == xs[i + 1..] + ys;
      assert r == Rows(xs[..i]) + [xs[i + 1..]];
      assert r[..k] == Rows(xs[..i]);
    }
  }

  /** A line break followed by entities without one opens a new last row. */
  lemma {:induction false} RowsAppendBreak(xs: seq<string>, ys: seq<string>)
    requires LINE_BREAK !in ys
    ensures Rows(xs + [LINE_BREAK] + ys) == Rows(xs) + [ys]
  {
    var entities := xs + [LINE_BREAK] + ys;
    assert entities[|xs|] == LINE_BREAK;
    assert forall j :: |xs| < j < |entities| ==> entities[j] == ys[j - |xs| - 1];
    assert LastLineBreakIndex(entities) == |xs|;
    assert entities[..|xs|] == xs;
    assert entities[|xs| + 1..] == ys;
  }

  /** A row is within the room for text (plus the space left after its last
      word), unless it holds a single word that alone is too wide. */
  predicate RowFits(row: seq<string>, ttyWidth: int) {
    SumLengths(row) <= RoomForText(ttyWidth) + 1 || |Content(row)| <= 1
  }

  predicate AllRowsFit(entities: seq<string>, ttyWidth: int) {
    forall row <- Rows(entities) :: RowFits(row, ttyWidth)
  }

  lemma {:induction false} RowsOfOneWord(w: string)
    requires ' ' !in w && '\n' !in w
    ensures Rows([w, SPACE]) == [[w, SPACE]]
  {
    PlainWordIsNotSeparator(w);
    assert [w, SPACE] == [] + [w, SPACE];
    assert LINE_BREAK !in [w, SPACE];
    RowsAppendWithoutBreak([], [w, SPACE]);
  }

  /** A word that fits joins the current row, which then still fits. */
  lemma {:induction false} SameRowFits(entities: seq<string>, word: string, ttyWidth: int)
    requires entities != [] && !WillHitEndOfTty(word, entities, ttyWidth)
    requires ' ' !in word && '\n' !in word
    requires AllRowsFit(entities, ttyWidth)
    ensures AllRowsFit(entities + [word, SPACE], ttyWidth)
  {
    var tail := [word, SPACE];
    PlainWordIsNotSeparator(word);
    assert LINE_BREAK !in tail;
    LengthOfShortEntity(SPACE);
    var r := Rows(entities);
    var k := |r| - 1;
    RowsLast(entities);
    RowWidthAfterLastBreak(entities);
    RowsAppendWithoutBreak(entities, tail);
    SumLengthsAppend(r[k], tail);
    SumLengthsAppend([word], [SPACE]);
    assert [word] + [SPACE] == tail;
    var grown := Rows(entities + tail);
    assert grown == r[..k] + [r[k] + tail];
    assert RowFits(r[k] + tail, ttyWidth);
    forall row | row in grown ensures RowFits(row, ttyWidth) {
      if row != r[k] + tail {
        assert row in r[..k];
        assert row in r;
      }
    }
  }

  /** Closing a row drops its trailing space; the closed row still fits and
      the new row holds one word. */
  lemma {:induction false} NewRowFits(entities: seq<string>, word: string, ttyWidth: int)
    requires |entities| >= 2 && entities[|entities| - 1] == SPACE
    requires ' ' !in word && '\n' !in word
    requires AllRowsFit(entities, ttyWidth)
    ensures AllRowsFit(entities[..|entities| - 1]
      + [LINE_BREAK] + [SEARCH_MATCH_SPACE_INDENT, LINE_NO_BUFFER, word, SPACE], ttyWidth)
  {
    var trimmed := entities[..|entities| - 1];
    var newRow := [SEARCH_MATCH_SPACE_INDENT, LINE_NO_BUFFER, word, SPACE];
    PlainWordIsNotSeparator(word);
    assert LINE_BREAK !in newRow;
    RowsAppendBreak(trimmed, newRow);
    TrimmedRowsFit(entities, ttyWidth);
    NewRowContent(word);
    assert RowFits(newRow, ttyWidth);
    var t := Rows(trimmed);
    forall row | row in t + [newRow] ensures RowFits(row, ttyWidth) {
      if row != newRow {
        assert row in t;
      }
    }
  }

  /** Dropping the trailing space of the last row keeps every row fitting. */
  lemma TrimmedRowsFit(entities: seq<string>, ttyWidth: int)
    requires |entities| >= 2 && entities[|entities| - 1] == SPACE
    requires AllRowsFit(entities, ttyWidth)
    ensures AllRowsFit(entities[..|entities| - 1], ttyWidth)
  {
    var trimmed := entities[..|entities| - 1];
    assert LINE_BREAK !in [SPACE];
    assert entities == trimmed + [SPACE];
    RowsAppendWithoutBreak(trimmed, [SPACE]);
    var t := Rows(trimmed);
    var k := |t| - 1;
    assert Rows(entities) == t[..k] + [t[k] + [SPACE]];
    assert t[k] + [SPACE] in Rows(entities);
    SumLengthsAppend(t[k], [SPACE]);
    ContentAppend(t[k], [SPACE]);
    ContentSingle(SPACE);
    assert RowFits(t[k], ttyWidth);
    forall row | row in t ensures RowFits(row, ttyWidth) {
      if row != t[k] {
        var j :| 0 <= j < |t| && t[j] == row;
        assert row in t[..k];
        assert row in Rows(entities);
      }
    }
  }

  lemma {:induction false} NewRowContent(word: string)
    requires ' ' !in word && '\n' !in word
    ensures Content([SEARCH_MATCH_SPACE_INDENT, LINE_NO_BUFFER, word, SPACE]) == [word]
  {
    ContentWordSpace(word);
    ContentSingle(SEARCH_MATCH_SPACE_INDENT);
    ContentSingle(LINE_NO_BUFFER);
    ContentAppend([SEARCH_MATCH_SPACE_INDENT], [LINE_NO_BUFFER]);
    assert [SEARCH_MATCH_SPACE_INDENT] + [LINE_NO_BUFFER] == [SEARCH_MATCH_SPACE_INDENT, LINE_NO_BUFFER];
    ContentAppend([SEARCH_MATCH_SPACE_INDENT, LINE_NO_BUFFER], [word, SPACE]);
    assert [SEARCH_MATCH_SPACE_INDENT, LINE_NO_BUFFER] + [word, SPACE]
      == [SEARCH_MATCH_SPACE_INDENT, LINE_NO_BUFFER, word, SPACE];
  }

  lemma {:induction false} WrapStepRowsFit(entities: seq<string>, word: string, ttyWidth: int)
    requires entities == [] || (|entities| >= 2 && entities[0] != SPACE && entities[|entities| - 1] == SPACE)
    requires ' ' !in word && '\n' !in word
    requires AllRowsFit(entities, ttyWidth)
    ensures AllRowsFit(WrapStep(entities, word, ttyWidth), ttyWidth)
  {
    if entities == [] {
      RowsOfOneWord(word);
      ContentWordSpace(word);
      assert WrapStep(entities, word, ttyWidth) == [word, SPACE];
    } else if !WillHitEndOfTty(word, entities, ttyWidth) {
      SameRowFits(entities, word, ttyWidth);
    } else {
      assert WrapStep(entities, word, ttyWidth) == entities[..|entities| - 1]
        + [LINE_BREAK] + [SEARCH_MATCH_SPACE_INDENT, LINE_NO_BUFFER, word, SPACE];
      NewRowFits(entities, word, ttyWidth);
    }
  }

  /** Every row of a wrapped line fits the room for text, counting the
      trailing space, unless it holds one word that alone is wider. */
  lemma {:induction false} WrappedRowsFit(words: seq<string>, ttyWidth: int)
    requires PlainWords(words)
    ensures AllRowsFit(Wrapped(words, ttyWidth), ttyWidth)
  {
    if words == [] {
      assert Rows([]) == [[]];
    } else {
      var n := |words| - 1;
      WrappedSnoc(words, n, ttyWidth);
      WrappedRowsFit(words[..n], ttyWidth);
      WrapStepRowsFit(Wrapped(words[..n], ttyWidth), words[n], ttyWidth);
      WholePrefix(words);
    }
  }

  /** insertLineBreaksAndBuffers: lay the words out whole, opening a new row
      before each word that would pass the room for text. */
  method InsertLineBreaksAndBuffers(words: seq<string>, ttyWidth: int) returns (entitiesToPrint: seq<string>)
    requires PlainWords(words)
    ensures entitiesToPrint == Wrapped(words, ttyWidth)
    ensures Content(entitiesToPrint) == words
    ensures AllRowsFit(entitiesToPrint, ttyWidth)
  {
    entitiesToPrint := [];
    var i := 0;
    while i < |words|
      invariant 0 <= i <= |words|
      invariant entitiesToPrint == Wrapped(words[..i], ttyWidth)
    {
      var word := words[i];
      WrappedSnoc(words, i, ttyWidth);
      if WillHitEndOfTty(word, entitiesToPrint, ttyWidth) {
        entitiesToPrint := RemoveSpacesOnEnds(entitiesToPrint);
        entitiesToPrint := entitiesToPrint + [LINE_BREAK, SEARCH_MATCH_SPACE_INDENT, LINE_NO_BUFFER];
      }
      entitiesToPrint := entitiesToPrint + [word, SPACE];
      i := i + 1;
    }
    WholePrefix(words);
    WrappedContent(words, ttyWidth);
    WrappedRowsFit(words, ttyWidth);
  }

  // ---------------------------------------------------------------------------
  // getTruncatedLine
  // ---------------------------------------------------------------------------

  /** Index of the first word at or after `from` holding a cancel marker,
      or |words| if none. */
  function IndexOfFirstCancel(words: seq<string>, from: nat): (k: nat)
    requires from <= |words|
    ensures from <= k <= |words|
    ensures k < |words| ==> Contains(words[k], CANCEL_COLOR_CODE)
    ensures forall j :: from <= j < k ==> !Contains(words[j], CANCEL_COLOR_CODE)
    decreases |words| - from
  {
    if from == |words| then from
    else if Contains(words[from], CANCEL_COLOR_CODE) then from
    else IndexOfFirstCancel(words, from + 1)
  }

  /** The word the truncated line is built around: the first one where a
      match ends, or the first word when none does. */
  function FirstMatchedWordIndex(words: seq<string>): (k: nat)
    requires |words| >= 1
    ensures k < |words|
  {
    var k := IndexOfFirstCancel(words, 0);
    if k == |words| then 0 else k
  }

  /** `entities` is a run of consecutive words around word `k`, separated by
      spaces and followed by an ellipsis, that fits the room for text. */
  predicate FittingRun(words: seq<string>, k: nat, ttyWidth: int, entities: seq<string>) {
    exists lo, hi :: 0 <= lo <= k < hi <= |words| && entities == Spaced(words[lo..hi]) + [ELLIPSIS]
      && SumLengths(entities) <= RoomForText(ttyWidth)
  }

  lemma {:induction false} NoBreakInRun(words: seq<string>, lo: nat, hi: nat, padLeft: bool, padRight: bool)
    requires PlainWords(words) && lo < hi <= |words|
    ensures LINE_BREAK !in Pad(padLeft) + Spaced(words[lo..hi]) + Pad(padRight) + [ELLIPSIS]
  {
    var run := Spaced(words[lo..hi]);
    forall e | e in run ensures e != LINE_BREAK {
      SpacedElements(words[lo..hi], e);
      if e != SPACE {
        assert e in words;
        PlainWordIsNotSeparator(e);
      }
    }
    assert ELLIPSIS != LINE_BREAK;
    assert SPACE != LINE_BREAK;
  }

  /** One step of the growth loop: `entity` goes on the left or the right. */
  lemma {:induction false} GrowLeft(words: seq<string>, lo: nat, hi: nat, padRight: bool)
    requires 1 <= lo < hi <= |words|
    ensures [words[lo - 1]] + (Pad(true) + Spaced(words[lo..hi]) + Pad(padRight) + [ELLIPSIS])
         == Pad(false) + Spaced(words[lo - 1..hi]) + Pad(padRight) + [ELLIPSIS]
  {
    var run := words[lo..hi];
    assert words[lo - 1..hi] == [words[lo - 1]] + run;
    SpacedCons(words[lo - 1], run);
    PadsAroundCons(words[lo - 1], Spaced(run), padRight);
  }

  lemma PadsAroundCons(w: string, run: seq<string>, padRight: bool)
    ensures [w] + (Pad(true) + run + Pad(padRight) + [ELLIPSIS])
         == Pad(false) + ([w, SPACE] + run) + Pad(padRight) + [ELLIPSIS]
  {
    var tail := run + Pad(padRight) + [ELLIPSIS];
    assert Pad(true) + run + Pad(padRight) + [ELLIPSIS] == [SPACE] + tail;
    assert Pad(false) + ([w, SPACE] + run) + Pad(padRight) + [ELLIPSIS] == [w, SPACE] + tail;
  }

  lemma {:induction false} GrowRight(words: seq<string>, lo: nat, hi: nat, padLeft: bool)
    requires lo < hi < |words|
    ensures var entities := Pad(padLeft) + Spaced(words[lo..hi]) + Pad(true) + [ELLIPSIS];
      entities[..|entities| - 1] + [words[hi]] + [ELLIPSIS]
        == Pad(padLeft) + Spaced(words[lo..hi + 1]) + Pad(false) + [ELLIPSIS]
  {
    assert words[lo..hi + 1] == words[lo..hi] + [words[hi]];
    SpacedSnoc(words[lo..hi], words[hi]);
  }

  /** The sum of widths does not depend on where an entity is inserted. */
  lemma {:induction false} SumLengthsInsert(a: seq<string>, e: string, b: seq<string>)
    ensures SumLengths(a + [e] + b) == SumLengths(a + b) + LengthOfEntity(e)
  {
    SumLengthsAppend(a + [e], b);
    SumLengthsAppend(a, [e]);
    SumLengthsAppend(a, b);
    assert [e][..0] == [];
  }

  lemma {:induction false} SumLengthsCons(e: string, entities: seq<string>)
    ensures SumLengths([e] + entities) == LengthOfEntity(e) + SumLengths(entities)
  {
    SumLengthsInsert([], e, entities);
    assert [] + [e] + entities == [e] + entities;
    assert [] + entities == entities;
  }

  /** The whole line with an ellipsis does not fit when the line alone does not. */
  lemma {:induction false} FullRunOverflows(words: seq<string>, ttyWidth: int)
    requires |words| >= 1 && PlainWords(words)
    requires SumLengths(Spaced(words)) > RoomForText(ttyWidth)
    ensures SumLengths(Spaced(words[0..|words|]) + [ELLIPSIS]) > RoomForText(ttyWidth)
  {
    assert words[0..|words|] == words;
    SumLengthsAppend(Spaced(words), [ELLIPSIS]);
  }

  /** The entities after the growth loop: a run of words around `k` with a
      space possibly pending on either side, then the ellipsis. */
  predicate Grown(words: seq<string>, k: nat, entities: seq<string>, lo: nat, hi: nat, padLeft: bool, padRight: bool) {
    0 <= lo <= k < hi <= |words|
    && (lo == 0 ==> !padLeft) && (hi == |words| ==> !padRight)
    && entities == Pad(padLeft) + Spaced(words[lo..hi]) + Pad(padRight) + [ELLIPSIS]
  }

  /** What the growth loop of getTruncatedLine keeps: a grown list that fits
      and does not yet hold the whole line. */
  predicate Growing(words: seq<string>, k: nat, ttyWidth: int, entities: seq<string>,
                    lo: nat, hi: nat, padLeft: bool, padRight: bool) {
    Grown(words, k, entities, lo, hi, padLeft, padRight)
    && SumLengths(entities) <= RoomForText(ttyWidth)
    && !(lo == 0 && hi == |words|)
  }

  /** The first loop of getTruncatedLine: find the first word where a match ends. */
  method FindFirstMatchedWord(words: seq<string>) returns (firstMatchedWordIndex: nat)
    requires |words| >= 1
    ensures firstMatchedWordIndex == FirstMatchedWordIndex(words)
    ensures firstMatchedWordIndex > 0 ==> Contains(words[firstMatchedWordIndex], CANCEL_COLOR_CODE)
    ensures forall j :: 0 <= j < firstMatchedWordIndex ==> !Contains(words[j], CANCEL_COLOR_CODE)
  {
    firstMatchedWordIndex := 0;
    var wordIndex := 0;
    while wordIndex < |words|
      invariant 0 <= wordIndex <= |words|
      invariant forall j :: 0 <= j < wordIndex ==> !Contains(words[j], CANCEL_COLOR_CODE)
      invariant firstMatchedWordIndex == 0
    {
      if Contains(words[wordIndex], CANCEL_COLOR_CODE) {
        firstMatchedWordIndex := wordIndex;
        break;
      }
      wordIndex := wordIndex + 1;
    }
  }

  /** Adding on the left: a pending word when a space is already there,
      otherwise a space. */
  lemma {:induction false} GrowLeftStep(words: seq<string>, k: nat, entities: seq<string>, lo: nat, hi: nat,
                                        padLeft: bool, padRight: bool, entity: string, ttyWidth: int, next: nat)
    requires PlainWords(words) && SumLengths(Spaced(words)) > RoomForText(ttyWidth)
    requires Grown(words, k, entities, lo, hi, padLeft, padRight) && 1 <= lo
    requires entity == (if padLeft then words[lo - 1] else SPACE)
    requires !WillHitEndOfTty(entity, entities, ttyWidth)
    requires next == if padLeft then lo - 1 else lo
    ensures Growing(words, k, ttyWidth, [entity] + entities, next, hi, !padLeft, padRight)
  {
    GrownWillHitEndOfTty(words, k, entities, lo, hi, padLeft, padRight, entity, ttyWidth);
    SumLengthsCons(entity, entities);
    if padLeft {
      GrowLeftWord(words, k, lo, hi, padRight);
    } else {
      GrowLeftSpace(words, k, lo, hi, padRight);
    }
    GrownIsNotWholeLine(words, k, [entity] + entities, if padLeft then lo - 1 else lo, hi, !padLeft, padRight, ttyWidth);
  }

  lemma GrowLeftWord(words: seq<string>, k: nat, lo: nat, hi: nat, padRight: bool)
    requires 1 <= lo < hi <= |words|
    requires Grown(words, k, Pad(true) + Spaced(words[lo..hi]) + Pad(padRight) + [ELLIPSIS], lo, hi, true, padRight)
    ensures Grown(words, k, [words[lo - 1]] + (Pad(true) + Spaced(words[lo..hi]) + Pad(padRight) + [ELLIPSIS]),
                  lo - 1, hi, false, padRight)
  {
    GrowLeft(words, lo, hi, padRight);
  }

  lemma GrowLeftSpace(words: seq<string>, k: nat, lo: nat, hi: nat, padRight: bool)
    requires 1 <= lo < hi <= |words|
    requires Grown(words, k, Pad(false) + Spaced(words[lo..hi]) + Pad(padRight) + [ELLIPSIS], lo, hi, false, padRight)
    ensures Grown(words, k, [SPACE] + (Pad(false) + Spaced(words[lo..hi]) + Pad(padRight) + [ELLIPSIS]),
                  lo, hi, true, padRight)
  {
    var rest := Spaced(words[lo..hi]) + Pad(padRight) + [ELLIPSIS];
    assert Pad(false) + Spaced(words[lo..hi]) + Pad(padRight) + [ELLIPSIS] == rest;
    assert [SPACE] + rest == Pad(true) + Spaced(words[lo..hi]) + Pad(padRight) + [ELLIPSIS];
  }

  /** Adding on the right, just before the ellipsis. */
  lemma {:induction false} GrowRightStep(words: seq<string>, k: nat, entities: seq<string>, lo: nat, hi: nat,
                                         padLeft: bool, padRight: bool, entity: string, ttyWidth: int)
    requires PlainWords(words) && SumLengths(Spaced(words)) > RoomForText(ttyWidth)
    requires Grown(words, k, entities, lo, hi, padLeft, padRight) && hi < |words|
    requires entity == (if padRight then words[hi] else SPACE)
    requires !WillHitEndOfTty(entity, entities, ttyWidth)
    ensures Growing(words, k, ttyWidth, entities[..|entities| - 1] + [entity] + [ELLIPSIS],
                    lo, if !padRight then hi else hi + 1, padLeft, !padRight)
  {
    GrownWillHitEndOfTty(words, k, entities, lo, hi, padLeft, padRight, entity, ttyWidth);
    var front := entities[..|entities| - 1];
    assert entities == front + [ELLIPSIS];
    SumLengthsInsert(front, entity, [ELLIPSIS]);
    if padRight {
      GrowRight(words, lo, hi, padLeft);
    }
    GrownIsNotWholeLine(words, k, front + [entity] + [ELLIPSIS], lo, if padRight then hi + 1 else hi, padLeft, !padRight, ttyWidth);
  }

  /** A grown list that fits cannot hold the whole line. */
  lemma {:induction false} GrownIsNotWholeLine(words: seq<string>, k: nat, entities: seq<string>, lo: nat, hi: nat,
                                               padLeft: bool, padRight: bool, ttyWidth: int)
    requires PlainWords(words) && Grown(words, k, entities, lo, hi, padLeft, padRight)
    requires SumLengths(Spaced(words)) > RoomForText(ttyWidth)
    requires SumLengths(entities) <= RoomForText(ttyWidth)
    ensures !(lo == 0 && hi == |words|)
  {
    TrimGrown(words, k, entities, lo, hi, padLeft, padRight);
    if lo == 0 && hi == |words| {
      FullRunOverflows(words, ttyWidth);
      assert false;
    }
  }

  /** A grown list holds no line break, so the overflow test measures all of it. */
  lemma GrownWillHitEndOfTty(words: seq<string>, k: nat, entities: seq<string>, lo: nat, hi: nat,
                             padLeft: bool, padRight: bool, entity: string, ttyWidth: int)
    requires PlainWords(words) && Grown(words, k, entities, lo, hi, padLeft, padRight)
    ensures WillHitEndOfTty(entity, entities, ttyWidth)
        <==> LengthOfEntity(entity) + SumLengths(entities) > RoomForText(ttyWidth)
  {
    NoBreakInRun(words, lo, hi, padLeft, padRight);
    WillHitEndOfTtyWithoutBreaks(entity, entities, ttyWidth);
  }

  /** The growth loop starts from the first matched word and the ellipsis,
      which fit, and which are not the whole line. */
  lemma GrownAtStart(words: seq<string>, k: nat, ttyWidth: int)
    requires PlainWords(words) && k < |words|
    requires SumLengths(Spaced(words)) > RoomForText(ttyWidth)
    requires LengthOfEntity(words[k]) + |ELLIPSIS| <= RoomForText(ttyWidth)
    ensures Growing(words, k, ttyWidth, [words[k], ELLIPSIS], k, k + 1, false, false)
  {
    var entities := [words[k], ELLIPSIS];
    GrownStartShape(words, k);
    SumLengthsPair(words[k], ELLIPSIS);
    LengthOfShortEntity(ELLIPSIS);
    GrownIsNotWholeLine(words, k, entities, k, k + 1, false, false, ttyWidth);
  }

  lemma GrownStartShape(words: seq<string>, k: nat)
    requires k < |words|
    ensures Grown(words, k, [words[k], ELLIPSIS], k, k + 1, false, false)
  {
    assert words[k..k + 1] == [words[k]];
    assert Spaced([words[k]]) == [words[k]];
  }

  /** A state of the growth loop of getTruncatedLine, in its own variables:
      the entities so far, the next word index on each side, whose turn it
      is, and whether each side needs a space before its next word. The
      entities hold the words from `left + 1` up to `right`, with a pending
      space on each side that needs none. */
  datatype Growth = Growth(entities: seq<string>, left: int, right: int, leftsTurn: bool,
                           needsSpaceLeft: bool, needsSpaceRight: bool)

  /** The bounds the loop's variables keep, whether or not the entities fit:
      a run of at least one word, no space pending past either end of the
      line, and the ellipsis. */
  predicate LoopBounds(words: seq<string>, entities: seq<string>, left: int, right: int,
                       needsSpaceLeft: bool, needsSpaceRight: bool) {
    -1 <= left && left + 1 < right <= |words|
    && (left == -1 ==> needsSpaceLeft) && (right == |words| ==> needsSpaceRight)
    && |entities| >= 2
  }

  /** Loop variables whose entities are a grown list that fits and does not
      hold the whole line. */
  predicate GrowthFits(words: seq<string>, k: nat, ttyWidth: int, entities: seq<string>, left: int, right: int,
                       needsSpaceLeft: bool, needsSpaceRight: bool) {
    -1 <= left && 0 <= right
    && Growing(words, k, ttyWidth, entities, left + 1, right, !needsSpaceLeft, !needsSpaceRight)
  }

  /** A loop state whose variables fit. */
  predicate GrowthValid(words: seq<string>, k: nat, ttyWidth: int, g: Growth) {
    GrowthFits(words, k, ttyWidth, g.entities, g.left, g.right, g.needsSpaceLeft, g.needsSpaceRight)
  }

  /** The side whose turn it is still has a word. */
  predicate HasTurn(words: seq<string>, g: Growth) {
    if g.leftsTurn then 0 <= g.left < |words| else 0 <= g.right < |words|
  }

  /** The entity the loop tries next in state `g`: a space when that side
      needs one, or else its next word. */
  function NextEntity(words: seq<string>, g: Growth): string
    requires HasTurn(words, g)
  {
    if g.leftsTurn then (if g.needsSpaceLeft then SPACE else words[g.left])
    else (if g.needsSpaceRight then SPACE else words[g.right])
  }

  /** The growth loop of getTruncatedLine as a recursive function of its
      variables, returning the state it stops in: an exhausted side passes
      the turn on; otherwise the side whose turn it is offers a space or its
      next word, the loop stops when that would pass the room for text, and
      adds it otherwise (in front on the left, before the ellipsis on the
      right) and passes the turn on. When both sides are exhausted the Go
      loop would pass the turn back and forth for ever; that state holds the
      whole line, which never fits (GrowthEnds), and here it stops. */
  function GrowFrom(words: seq<string>, ttyWidth: int, entities: seq<string>, left: int, right: int,
                    leftsTurn: bool, needsSpaceLeft: bool, needsSpaceRight: bool): (r: Growth)
    requires LoopBounds(words, entities, left, right, needsSpaceLeft, needsSpaceRight)
    ensures LoopBounds(words, r.entities, r.left, r.right, r.needsSpaceLeft, r.needsSpaceRight)
    decreases 2 * left + (if needsSpaceLeft then 2 else 1) + 2 * (|words| - 1 - right) + (if needsSpaceRight then 2 else 1),
      if leftsTurn then (if left < 0 then 1 else 0) else (if right > |words| - 1 then 1 else 0)
  {
    var here := Growth(entities, left, right, leftsTurn, needsSpaceLeft, needsSpaceRight);
    if left < 0 && right > |words| - 1 then here
    else if leftsTurn then
      if left < 0 then GrowFrom(words, ttyWidth, entities, left, right, false, needsSpaceLeft, needsSpaceRight)
      else
        var entityToAdd := if needsSpaceLeft then SPACE else words[left];
        if (if needsSpaceLeft then WillHitEndOfTty(SPACE, entities, ttyWidth)
            else WillHitEndOfTty(words[left], entities, ttyWidth)) then here
        else GrowFrom(words, ttyWidth, [entityToAdd] + entities, if needsSpaceLeft then left else left - 1, right,
                      false, !needsSpaceLeft, needsSpaceRight)
    else
      if right > |words| - 1 then GrowFrom(words, ttyWidth, entities, left, right, true, needsSpaceLeft, needsSpaceRight)
      else
        var entityToAdd := if needsSpaceRight then SPACE else words[right];
        if (if needsSpaceRight then WillHitEndOfTty(SPACE, entities, ttyWidth)
            else WillHitEndOfTty(words[right], entities, ttyWidth)) then here
        else GrowFrom(words, ttyWidth, entities[..|entities| - 1] + [entityToAdd] + [ELLIPSIS], left,
                      if needsSpaceRight then right else right + 1, true, needsSpaceLeft, !needsSpaceRight)
  }

  /** The state the loop stops in when it starts in state `g`. */
  function Grow(words: seq<string>, ttyWidth: int, g: Growth): (r: Growth)
    requires LoopBounds(words, g.entities, g.left, g.right, g.needsSpaceLeft, g.needsSpaceRight)
  {
    GrowFrom(words, ttyWidth, g.entities, g.left, g.right, g.leftsTurn, g.needsSpaceLeft, g.needsSpaceRight)
  }

  /** The loop stops only where the entity it would add next, on the side
      whose turn it is, passes the room for text, or where both sides are
      exhausted. */
  lemma {:induction false} GrowthStops(words: seq<string>, ttyWidth: int, entities: seq<string>,
                                       left: int, right: int, leftsTurn: bool,
                                       needsSpaceLeft: bool, needsSpaceRight: bool)
    requires LoopBounds(words, entities, left, right, needsSpaceLeft, needsSpaceRight)
    ensures var r := GrowFrom(words, ttyWidth, entities, left, right, leftsTurn, needsSpaceLeft, needsSpaceRight);
      (r.left < 0 && r.right > |words| - 1)
      || (HasTurn(words, r) && WillHitEndOfTty(NextEntity(words, r), r.entities, ttyWidth))
    decreases 2 * left + (if needsSpaceLeft then 2 else 1) + 2 * (|words| - 1 - right) + (if needsSpaceRight then 2 else 1),
      if leftsTurn then (if left < 0 then 1 else 0) else (if right > |words| - 1 then 1 else 0)
  {
    if left < 0 && right > |words| - 1 {
    } else if leftsTurn && left < 0 {
      GrowthStops(words, ttyWidth, entities, left, right, false, needsSpaceLeft, needsSpaceRight);
    } else if !leftsTurn && right > |words| - 1 {
      GrowthStops(words, ttyWidth, entities, left, right, true, needsSpaceLeft, needsSpaceRight);
    } else if leftsTurn {
      var entityToAdd := if needsSpaceLeft then SPACE else words[left];
      if !(if needsSpaceLeft then WillHitEndOfTty(SPACE, entities, ttyWidth)
           else WillHitEndOfTty(words[left], entities, ttyWidth)) {
        GrowthStops(words, ttyWidth, [entityToAdd] + entities, if needsSpaceLeft then left else left - 1, right,
                    false, !needsSpaceLeft, needsSpaceRight);
      }
    } else {
      var entityToAdd := if needsSpaceRight then SPACE else words[right];
      if !(if needsSpaceRight then WillHitEndOfTty(SPACE, entities, ttyWidth)
           else WillHitEndOfTty(words[right], entities, ttyWidth)) {
        GrowthStops(words, ttyWidth, entities[..|entities| - 1] + [entityToAdd] + [ELLIPSIS], left,
                    if needsSpaceRight then right else right + 1, true, needsSpaceLeft, !needsSpaceRight);
      }
    }
  }

  /** From a state that fits and is not the whole line, the loop ends in
      such a state. */
  lemma {:induction false} GrowthEnds(words: seq<string>, k: nat, ttyWidth: int, entities: seq<string>,
                                      left: int, right: int, leftsTurn: bool,
                                      needsSpaceLeft: bool, needsSpaceRight: bool)
    requires PlainWords(words) && SumLengths(Spaced(words)) > RoomForText(ttyWidth)
    requires GrowthFits(words, k, ttyWidth, entities, left, right, needsSpaceLeft, needsSpaceRight)
    ensures LoopBounds(words, entities, left, right, needsSpaceLeft, needsSpaceRight)
    ensures GrowthValid(words, k, ttyWidth,
                        GrowFrom(words, ttyWidth, entities, left, right, leftsTurn, needsSpaceLeft, needsSpaceRight))
    decreases 2 * left + (if needsSpaceLeft then 2 else 1) + 2 * (|words| - 1 - right) + (if needsSpaceRight then 2 else 1),
      if leftsTurn then (if left < 0 then 1 else 0) else (if right > |words| - 1 then 1 else 0)
  {
    if leftsTurn && left < 0 {
      GrowthEnds(words, k, ttyWidth, entities, left, right, false, needsSpaceLeft, needsSpaceRight);
    } else if !leftsTurn && right > |words| - 1 {
      GrowthEnds(words, k, ttyWidth, entities, left, right, true, needsSpaceLeft, needsSpaceRight);
    } else if leftsTurn {
      var entityToAdd := if needsSpaceLeft then SPACE else words[left];
      if !(if needsSpaceLeft then WillHitEndOfTty(SPACE, entities, ttyWidth)
           else WillHitEndOfTty(words[left], entities, ttyWidth)) {
        StepLeftFits(words, k, ttyWidth, entities, left, right, needsSpaceLeft, needsSpaceRight);
        GrowthEnds(words, k, ttyWidth, [entityToAdd] + entities, if needsSpaceLeft then left else left - 1, right,
                   false, !needsSpaceLeft, needsSpaceRight);
      }
    } else {
      var entityToAdd := if needsSpaceRight then SPACE else words[right];
      if !(if needsSpaceRight then WillHitEndOfTty(SPACE, entities, ttyWidth)
           else WillHitEndOfTty(words[right], entities, ttyWidth)) {
        StepRightFits(words, k, ttyWidth, entities, left, right, needsSpaceLeft, needsSpaceRight);
        GrowthEnds(words, k, ttyWidth, entities[..|entities| - 1] + [entityToAdd] + [ELLIPSIS], left,
                   if needsSpaceRight then right else right + 1, true, needsSpaceLeft, !needsSpaceRight);
      }
    }
  }

  /** A step on the left that does not pass the room for text leaves a
      state that fits. */
  lemma StepLeftFits(words: seq<string>, k: nat, ttyWidth: int, entities: seq<string>,
                     left: int, right: int, needsSpaceLeft: bool, needsSpaceRight: bool)
    requires PlainWords(words) && SumLengths(Spaced(words)) > RoomForText(ttyWidth)
    requires GrowthFits(words, k, ttyWidth, entities, left, right, needsSpaceLeft, needsSpaceRight) && 0 <= left
    requires !(if needsSpaceLeft then WillHitEndOfTty(SPACE, entities, ttyWidth)
               else WillHitEndOfTty(words[left], entities, ttyWidth))
    ensures GrowthFits(words, k, ttyWidth, [if needsSpaceLeft then SPACE else words[left]] + entities,
                       if needsSpaceLeft then left else left - 1, right, !needsSpaceLeft, needsSpaceRight)
  {
    if needsSpaceLeft {
      StepLeftSpace(words, k, ttyWidth, entities, left, right, needsSpaceRight);
    } else {
      StepLeftWord(words, k, ttyWidth, entities, left, right, needsSpaceRight);
    }
  }

  /** A space added on the left keeps the loop state fitting. */
  lemma StepLeftSpace(words: seq<string>, k: nat, ttyWidth: int, entities: seq<string>,
                      left: int, right: int, needsSpaceRight: bool)
    requires PlainWords(words) && SumLengths(Spaced(words)) > RoomForText(ttyWidth)
    requires 0 <= left && 0 <= right
    requires Grown(words, k, entities, left + 1, right, false, !needsSpaceRight)
    requires !WillHitEndOfTty(SPACE, entities, ttyWidth)
    ensures GrowthFits(words, k, ttyWidth, [SPACE] + entities, left, right, false, needsSpaceRight)
  {
    GrowLeftStep(words, k, entities, left + 1, right, false, !needsSpaceRight, SPACE, ttyWidth, left + 1);
  }

  /** A word added on the left keeps the loop state fitting. */
  lemma StepLeftWord(words: seq<string>, k: nat, ttyWidth: int, entities: seq<string>,
                     left: int, right: int, needsSpaceRight: bool)
    requires PlainWords(words) && SumLengths(Spaced(words)) > RoomForText(ttyWidth)
    requires 0 <= left && 0 <= right
    requires Grown(words, k, entities, left + 1, right, true, !needsSpaceRight)
    requires !WillHitEndOfTty(words[left], entities, ttyWidth)
    ensures GrowthFits(words, k, ttyWidth, [words[left]] + entities, left - 1, right, true, needsSpaceRight)
  {
    var lo: nat := left + 1;
    var entity := words[lo - 1];
    GrowLeftStep(words, k, entities, lo, right, true, !needsSpaceRight, entity, ttyWidth, left - 1 + 1);
  }

  /** A step on the right that does not pass the room for text leaves a
      state that fits. */
  lemma StepRightFits(words: seq<string>, k: nat, ttyWidth: int, entities: seq<string>,
                      left: int, right: int, needsSpaceLeft: bool, needsSpaceRight: bool)
    requires PlainWords(words) && SumLengths(Spaced(words)) > RoomForText(ttyWidth)
    requires GrowthFits(words, k, ttyWidth, entities, left, right, needsSpaceLeft, needsSpaceRight)
    requires right < |words|
    requires !(if needsSpaceRight then WillHitEndOfTty(SPACE, entities, ttyWidth)
               else WillHitEndOfTty(words[right], entities, ttyWidth))
    ensures |entities| >= 1
    ensures GrowthFits(words, k, ttyWidth,
                       entities[..|entities| - 1] + [if needsSpaceRight then SPACE else words[right]] + [ELLIPSIS],
                       left, if needsSpaceRight then right else right + 1, needsSpaceLeft, !needsSpaceRight)
  {
    if needsSpaceRight {
      StepRightEntity(words, k, ttyWidth, entities, left, right, needsSpaceLeft, true, SPACE);
    } else {
      StepRightEntity(words, k, ttyWidth, entities, left, right, needsSpaceLeft, false, words[right]);
    }
  }

  /** A space or a word added on the right keeps the loop state fitting. */
  lemma StepRightEntity(words: seq<string>, k: nat, ttyWidth: int, entities: seq<string>,
                        left: int, right: int, needsSpaceLeft: bool, needsSpaceRight: bool, entity: string)
    requires PlainWords(words) && SumLengths(Spaced(words)) > RoomForText(ttyWidth)
    requires -1 <= left && 0 <= right
    requires Grown(words, k, entities, left + 1, right, !needsSpaceLeft, !needsSpaceRight)
    requires right < |words| && entity == (if needsSpaceRight then SPACE else words[right])
    requires !WillHitEndOfTty(entity, entities, ttyWidth)
    ensures |entities| >= 1
    ensures GrowthFits(words, k, ttyWidth, entities[..|entities| - 1] + [entity] + [ELLIPSIS],
                       left, if needsSpaceRight then right else right + 1, needsSpaceLeft, !needsSpaceRight)
  {
    assert Growing(words, k, ttyWidth, entities[..|entities| - 1] + [entity] + [ELLIPSIS],
                   left + 1, if needsSpaceRight then right else right + 1, !needsSpaceLeft, needsSpaceRight) by {
      GrowRightStep(words, k, entities, left + 1, right, !needsSpaceLeft, !needsSpaceRight, entity, ttyWidth);
    }
  }

  /** A grown list that fits keeps the loop's bounds and is not the whole line. */
  lemma GrownBounds(words: seq<string>, k: nat, ttyWidth: int, entities: seq<string>, lo: nat, hi: nat,
                    padLeft: bool, padRight: bool)
    requires Growing(words, k, ttyWidth, entities, lo, hi, padLeft, padRight)
    ensures LoopBounds(words, entities, lo - 1, hi, !padLeft, !padRight) && !(lo == 0 && hi == |words|)
  {
  }

  /** The loop only ever widens the run. */
  lemma {:induction false} GrowWidens(words: seq<string>, ttyWidth: int, entities: seq<string>,
                                      left: int, right: int, leftsTurn: bool,
                                      needsSpaceLeft: bool, needsSpaceRight: bool)
    requires LoopBounds(words, entities, left, right, needsSpaceLeft, needsSpaceRight)
    ensures var r := GrowFrom(words, ttyWidth, entities, left, right, leftsTurn, needsSpaceLeft, needsSpaceRight);
      r.left <= left && right <= r.right
    decreases 2 * left + (if needsSpaceLeft then 2 else 1) + 2 * (|words| - 1 - right) + (if needsSpaceRight then 2 else 1),
      if leftsTurn then (if left < 0 then 1 else 0) else (if right > |words| - 1 then 1 else 0)
  {
    if left < 0 && right > |words| - 1 {
    } else if leftsTurn && left < 0 {
      GrowWidens(words, ttyWidth, entities, left, right, false, needsSpaceLeft, needsSpaceRight);
    } else if !leftsTurn && right > |words| - 1 {
      GrowWidens(words, ttyWidth, entities, left, right, true, needsSpaceLeft, needsSpaceRight);
    } else if leftsTurn {
      var entityToAdd := if needsSpaceLeft then SPACE else words[left];
      if !(if needsSpaceLeft then WillHitEndOfTty(SPACE, entities, ttyWidth)
           else WillHitEndOfTty(words[left], entities, ttyWidth)) {
        GrowWidens(words, ttyWidth, [entityToAdd] + entities, if needsSpaceLeft then left else left - 1, right,
                   false, !needsSpaceLeft, needsSpaceRight);
      }
    } else {
      var entityToAdd := if needsSpaceRight then SPACE else words[right];
      if !(if needsSpaceRight then WillHitEndOfTty(SPACE, entities, ttyWidth)
           else WillHitEndOfTty(words[right], entities, ttyWidth)) {
        GrowWidens(words, ttyWidth, entities[..|entities| - 1] + [entityToAdd] + [ELLIPSIS], left,
                   if needsSpaceRight then right else right + 1, true, needsSpaceLeft, !needsSpaceRight);
      }
    }
  }

  /** The state the growth loop ends in, from its start: the first matched
      word and the ellipsis, the turn on the left, a space needed on both
      sides. */
  function FinalGrowth(words: seq<string>, k: nat, ttyWidth: int): (r: Growth)
    requires k < |words|
    ensures LoopBounds(words, r.entities, r.left, r.right, r.needsSpaceLeft, r.needsSpaceRight)
  {
    GrowFrom(words, ttyWidth, [words[k], ELLIPSIS], k - 1, k + 1, true, true, true)
  }

  /** When the line overflows and the first matched word fits with the
      ellipsis, the loop ends with entities that fit and are not the whole
      line. */
  lemma FinalGrowthFits(words: seq<string>, k: nat, ttyWidth: int)
    requires PlainWords(words) && k < |words|
    requires SumLengths(Spaced(words)) > RoomForText(ttyWidth)
    requires LengthOfEntity(words[k]) + |ELLIPSIS| <= RoomForText(ttyWidth)
    ensures GrowthValid(words, k, ttyWidth, FinalGrowth(words, k, ttyWidth))
  {
    GrownAtStart(words, k, ttyWidth);
    GrowthEnds(words, k, ttyWidth, [words[k], ELLIPSIS], k - 1, k + 1, true, true, true);
  }

  /** The loop stops because the entity it would add next, on the side whose
      turn it is, passes the room for text. */
  lemma FinalGrowthStops(words: seq<string>, k: nat, ttyWidth: int)
    requires PlainWords(words) && k < |words|
    requires SumLengths(Spaced(words)) > RoomForText(ttyWidth)
    requires LengthOfEntity(words[k]) + |ELLIPSIS| <= RoomForText(ttyWidth)
    ensures var r := FinalGrowth(words, k, ttyWidth);
      HasTurn(words, r) && WillHitEndOfTty(NextEntity(words, r), r.entities, ttyWidth)
  {
    var r := FinalGrowth(words, k, ttyWidth);
    FinalIsNotWholeLine(words, k, ttyWidth);
    GrowthStops(words, ttyWidth, [words[k], ELLIPSIS], k - 1, k + 1, true, true, true);
  }

  /** The state the loop ends in does not hold the whole line. */
  lemma FinalIsNotWholeLine(words: seq<string>, k: nat, ttyWidth: int)
    requires PlainWords(words) && k < |words|
    requires SumLengths(Spaced(words)) > RoomForText(ttyWidth)
    requires LengthOfEntity(words[k]) + |ELLIPSIS| <= RoomForText(ttyWidth)
    ensures var r := FinalGrowth(words, k, ttyWidth);
      !(r.left == -1 && r.right == |words|)
  {
    FinalGrowthFits(words, k, ttyWidth);
  }

  /** One turn of the loop on the left, in the terms of GrowFrom: a space
      when one is needed, which the loop adds unless it passes the room. */
  lemma LeftSpaceTurn(words: seq<string>, ttyWidth: int, entities: seq<string>, left: int, right: int,
                      needsSpaceRight: bool)
    requires LoopBounds(words, entities, left, right, true, needsSpaceRight) && 0 <= left
    ensures var r := Grow(words, ttyWidth, Growth(entities, left, right, true, true, needsSpaceRight));
      if WillHitEndOfTty(SPACE, entities, ttyWidth) then r == Growth(entities, left, right, true, true, needsSpaceRight)
      else r == Grow(words, ttyWidth, Growth([SPACE] + entities, left, right, false, false, needsSpaceRight))
  {
  }

  /** One turn on the left when a space is already there: the next word. */
  lemma LeftWordTurn(words: seq<string>, ttyWidth: int, entities: seq<string>, left: int, right: int,
                     needsSpaceRight: bool)
    requires LoopBounds(words, entities, left, right, false, needsSpaceRight) && 0 <= left
    ensures var r := Grow(words, ttyWidth, Growth(entities, left, right, true, false, needsSpaceRight));
      if WillHitEndOfTty(words[left], entities, ttyWidth) then r == Growth(entities, left, right, true, false, needsSpaceRight)
      else r == Grow(words, ttyWidth, Growth([words[left]] + entities, left - 1, right, false, true, needsSpaceRight))
  {
  }

  /** One turn on the right when a space is needed. */
  lemma RightSpaceTurn(words: seq<string>, ttyWidth: int, entities: seq<string>, left: int, right: int,
                       needsSpaceLeft: bool)
    requires LoopBounds(words, entities, left, right, needsSpaceLeft, true) && right <= |words| - 1
    ensures var r := Grow(words, ttyWidth, Growth(entities, left, right, false, needsSpaceLeft, true));
      if WillHitEndOfTty(SPACE, entities, ttyWidth) then r == Growth(entities, left, right, false, needsSpaceLeft, true)
      else r == Grow(words, ttyWidth, Growth(entities[..|entities| - 1] + [SPACE] + [ELLIPSIS], left, right,
                         true, needsSpaceLeft, false))
  {
  }

  /** One turn on the right when a space is already there: the next word. */
  lemma RightWordTurn(words: seq<string>, ttyWidth: int, entities: seq<string>, left: int, right: int,
                      needsSpaceLeft: bool)
    requires LoopBounds(words, entities, left, right, needsSpaceLeft, false) && right <= |words| - 1
    ensures var r := Grow(words, ttyWidth, Growth(entities, left, right, false, needsSpaceLeft, false));
      if WillHitEndOfTty(words[right], entities, ttyWidth) then r == Growth(entities, left, right, false, needsSpaceLeft, false)
      else r == Grow(words, ttyWidth, Growth(entities[..|entities| - 1] + [words[right]] + [ELLIPSIS], left, right + 1,
                         true, needsSpaceLeft, true))
  {
  }

  /** An exhausted side passes the turn on, unless both sides are exhausted. */
  lemma PassTurn(words: seq<string>, ttyWidth: int, entities: seq<string>, left: int, right: int,
                 leftsTurn: bool, needsSpaceLeft: bool, needsSpaceRight: bool)
    requires LoopBounds(words, entities, left, right, needsSpaceLeft, needsSpaceRight)
    requires !(left < 0 && right > |words| - 1)
    requires if leftsTurn then left < 0 else right > |words| - 1
    ensures Grow(words, ttyWidth, Growth(entities, left, right, leftsTurn, needsSpaceLeft, needsSpaceRight))
         == Grow(words, ttyWidth, Growth(entities, left, right, !leftsTurn, needsSpaceLeft, needsSpaceRight))
  {
  }

  /** The growth loop of getTruncatedLine. */
  method GrowAroundFirstMatch(words: seq<string>, k: nat, ttyWidth: int) returns (entitiesToPrint: seq<string>)
    requires PlainWords(words) && k < |words|
    requires SumLengths(Spaced(words)) > RoomForText(ttyWidth)
    requires LengthOfEntity(words[k]) + |ELLIPSIS| <= RoomForText(ttyWidth)
    ensures entitiesToPrint == FinalGrowth(words, k, ttyWidth).entities
  {
    entitiesToPrint := [words[k], ELLIPSIS];
    var leftOfFirstMatchIndex := k - 1;
    var rightOfFirstMatchIndex := k + 1;
    var leftsTurn := true;
    var needsSpaceLeft := true;
    var needsSpaceRight := true;
    // The loop ends where FinalGrowth does, which is not the whole line;
    // the run only widens, so no state before it holds the whole line either.
    ghost var final := FinalGrowth(words, k, ttyWidth);
    FinalIsNotWholeLine(words, k, ttyWidth);
    while true
      invariant LoopBounds(words, entitiesToPrint, leftOfFirstMatchIndex, rightOfFirstMatchIndex,
                           needsSpaceLeft, needsSpaceRight)
      invariant Grow(words, ttyWidth, Growth(entitiesToPrint, leftOfFirstMatchIndex, rightOfFirstMatchIndex,
                                            leftsTurn, needsSpaceLeft, needsSpaceRight)) == final
      decreases 2 * leftOfFirstMatchIndex + (if needsSpaceLeft then 2 else 1)
          + 2 * (|words| - 1 - rightOfFirstMatchIndex) + (if needsSpaceRight then 2 else 1),
        if leftsTurn then (if leftOfFirstMatchIndex < 0 then 1 else 0)
        else (if rightOfFirstMatchIndex > |words| - 1 then 1 else 0)
    {
      GrowWidens(words, ttyWidth, entitiesToPrint, leftOfFirstMatchIndex, rightOfFirstMatchIndex,
                 leftsTurn, needsSpaceLeft, needsSpaceRight);
      var entityToAdd;
      if leftsTurn {
        if leftOfFirstMatchIndex < 0 {
          PassTurn(words, ttyWidth, entitiesToPrint, leftOfFirstMatchIndex, rightOfFirstMatchIndex,
                   true, needsSpaceLeft, needsSpaceRight);
          leftsTurn := false;
          continue;
        }
        if needsSpaceLeft {
          LeftSpaceTurn(words, ttyWidth, entitiesToPrint, leftOfFirstMatchIndex, rightOfFirstMatchIndex,
                        needsSpaceRight);
          entityToAdd := SPACE;
          needsSpaceLeft := false;
        } else {
          LeftWordTurn(words, ttyWidth, entitiesToPrint, leftOfFirstMatchIndex, rightOfFirstMatchIndex,
                       needsSpaceRight);
          entityToAdd := words[leftOfFirstMatchIndex];
          needsSpaceLeft := true;
          leftOfFirstMatchIndex := leftOfFirstMatchIndex - 1;
        }
      } else {
        if rightOfFirstMatchIndex > |words| - 1 {
          PassTurn(words, ttyWidth, entitiesToPrint, leftOfFirstMatchIndex, rightOfFirstMatchIndex,
                   false, needsSpaceLeft, needsSpaceRight);
          leftsTurn := true;
          continue;
        }
        if needsSpaceRight {
          RightSpaceTurn(words, ttyWidth, entitiesToPrint, leftOfFirstMatchIndex, rightOfFirstMatchIndex,
                         needsSpaceLeft);
          entityToAdd := SPACE;
          needsSpaceRight := false;
        } else {
          RightWordTurn(words, ttyWidth, entitiesToPrint, leftOfFirstMatchIndex, rightOfFirstMatchIndex,
                        needsSpaceLeft);
          entityToAdd := words[rightOfFirstMatchIndex];
          needsSpaceRight := true;
          rightOfFirstMatchIndex := rightOfFirstMatchIndex + 1;
        }
      }
      if WillHitEndOfTty(entityToAdd, entitiesToPrint, ttyWidth) {
        break;
      }
      if leftsTurn {
        entitiesToPrint := [entityToAdd] + entitiesToPrint;
        leftsTurn := false;
      } else {
        //add element to the left of the last element which is ELLIPSIS
        entitiesToPrint := entitiesToPrint[..|entitiesToPrint| - 1] + [entityToAdd];
        entitiesToPrint := entitiesToPrint + [ELLIPSIS];
        leftsTurn := true;
      }
    }
  }

  /** Dropping the pending spaces leaves the bare run and the ellipsis. */
  lemma {:induction false} TrimGrown(words: seq<string>, k: nat, entities: seq<string>, lo: nat, hi: nat, padLeft: bool, padRight: bool)
    requires PlainWords(words) && Grown(words, k, entities, lo, hi, padLeft, padRight)
    ensures |entities| >= 2 && entities[|entities| - 1] == ELLIPSIS
    ensures WithoutPendingSpaces(entities) == Spaced(words[lo..hi]) + [ELLIPSIS]
    ensures SumLengths(Spaced(words[lo..hi]) + [ELLIPSIS]) <= SumLengths(entities)
  {
    var run := Spaced(words[lo..hi]);
    SpacedRunEnds(words, lo, hi);
    var middle := Pad(padLeft) + run;
    assert middle[|middle| - 1] == run[|run| - 1];
    DropPendingSpace(middle, padRight);
    TrimmedRun(run, padLeft);
    GrownRunWidth(run, padLeft, padRight);
  }

  /** Removing the spaces on the ends of an optional space, a run and the
      ellipsis leaves the run and the ellipsis. */
  lemma TrimmedRun(run: seq<string>, padLeft: bool)
    requires |run| >= 1 && run[0] != SPACE && run[|run| - 1] != SPACE
    ensures RemoveSpacesOnEnds(Pad(padLeft) + run + [ELLIPSIS]) == run + [ELLIPSIS]
  {
    var dropped := Pad(padLeft) + run + [ELLIPSIS];
    assert ELLIPSIS != SPACE;
    assert dropped[|dropped| - 1] == ELLIPSIS;
    if padLeft {
      assert dropped[0] == SPACE;
      assert dropped[1..] == run + [ELLIPSIS];
    } else {
      assert dropped == run + [ELLIPSIS];
      assert dropped[0] == run[0];
    }
  }

  /** Leaving out the pending spaces does not widen the entities. */
  lemma GrownRunWidth(run: seq<string>, padLeft: bool, padRight: bool)
    ensures SumLengths(run + [ELLIPSIS]) <= SumLengths(Pad(padLeft) + run + Pad(padRight) + [ELLIPSIS])
  {
    var middle := Pad(padLeft) + run;
    SumLengthsAppend(middle + Pad(padRight), [ELLIPSIS]);
    SumLengthsAppend(middle, Pad(padRight));
    SumLengthsAppend(Pad(padLeft), run);
    SumLengthsAppend(run, [ELLIPSIS]);
  }

  /** A run of plain words neither starts nor ends with a space. */
  lemma SpacedRunEnds(words: seq<string>, lo: nat, hi: nat)
    requires PlainWords(words) && lo < hi <= |words|
    ensures var run := Spaced(words[lo..hi]);
      |run| >= 1 && run[0] != SPACE && run[|run| - 1] != SPACE
  {
    assert words[lo] in words && words[hi - 1] in words;
    PlainWordIsNotSeparator(words[lo]);
    PlainWordIsNotSeparator(words[hi - 1]);
  }

  /** Removing the second-to-last entity when it is a space takes out the
      pending space before the ellipsis, and only that. */
  lemma DropPendingSpace(middle: seq<string>, padRight: bool)
    requires |middle| >= 1 && middle[|middle| - 1] != SPACE
    ensures DroppedPendingSpace(middle + Pad(padRight) + [ELLIPSIS]) == middle + [ELLIPSIS]
  {
    var entities := middle + Pad(padRight) + [ELLIPSIS];
    var s := |entities| - 2;
    if padRight {
      assert entities[s] == SPACE;
      assert entities[..s] == middle;
    } else {
      assert entities[s] == middle[|middle| - 1];
    }
  }

  /** A loop state that fits, trimmed of its pending spaces, is the spaced
      run it grew and the ellipsis, which fits the room for text. */
  lemma GrownRun(words: seq<string>, k: nat, ttyWidth: int, r: Growth)
    requires PlainWords(words) && GrowthValid(words, k, ttyWidth, r)
    ensures 0 <= r.left + 1 <= k < r.right <= |words|
    ensures |r.entities| >= 2 && r.entities[|r.entities| - 1] == ELLIPSIS
    ensures WithoutPendingSpaces(r.entities) == GrownWords(words, r)
    ensures SumLengths(GrownWords(words, r)) <= RoomForText(ttyWidth)
  {
    var lo, hi := r.left + 1, r.right;
    assert Grown(words, k, r.entities, lo, hi, !r.needsSpaceLeft, !r.needsSpaceRight);
    TrimGrown(words, k, r.entities, lo, hi, !r.needsSpaceLeft, !r.needsSpaceRight);
    assert GrownWords(words, r) == Spaced(words[lo..hi]) + [ELLIPSIS];
  }

  /** A loop state whose run fits has taken in a fitting run. */
  lemma GrownRunFits(words: seq<string>, k: nat, ttyWidth: int, r: Growth)
    requires 0 <= r.left + 1 <= k < r.right <= |words|
    requires SumLengths(GrownWords(words, r)) <= RoomForText(ttyWidth)
    ensures FittingRun(words, k, ttyWidth, GrownWords(words, r))
  {
  }

  /** The truncated line is read off the final loop state. */
  lemma TruncatedAroundIs(words: seq<string>, k: nat, ttyWidth: int, r: Growth)
    requires PlainWords(words) && k < |words|
    requires SumLengths(Spaced(words)) > RoomForText(ttyWidth)
    requires LengthOfEntity(words[k]) + |ELLIPSIS| <= RoomForText(ttyWidth)
    requires r == FinalGrowth(words, k, ttyWidth)
    requires 0 <= r.left + 1 <= r.right <= |words|
    ensures TruncatedAround(words, k, ttyWidth) == GrownWords(words, r)
  {
  }

  /** What getTruncatedLine prints when the first matched word fits: the run
      of words the growth loop ends with, spaced, then the ellipsis. */
  function TruncatedAround(words: seq<string>, k: nat, ttyWidth: int): seq<string>
    requires PlainWords(words) && k < |words|
    requires SumLengths(Spaced(words)) > RoomForText(ttyWidth)
    requires LengthOfEntity(words[k]) + |ELLIPSIS| <= RoomForText(ttyWidth)
  {
    GrownWords(words, FinalGrowth(words, k, ttyWidth))
  }

  /** The words a loop state has taken in, spaced, then the ellipsis. */
  function GrownWords(words: seq<string>, r: Growth): seq<string>
    requires 0 <= r.left + 1 <= r.right <= |words|
  {
    Spaced(words[r.left + 1..r.right]) + [ELLIPSIS]
  }

  /** The truncated line is a spaced run of consecutive words around the
      first matched word, then the ellipsis, and it fits the room for text. */
  lemma TruncatedAroundRuns(words: seq<string>, k: nat, ttyWidth: int)
    requires PlainWords(words) && k < |words|
    requires SumLengths(Spaced(words)) > RoomForText(ttyWidth)
    requires LengthOfEntity(words[k]) + |ELLIPSIS| <= RoomForText(ttyWidth)
    ensures FittingRun(words, k, ttyWidth, TruncatedAround(words, k, ttyWidth))
  {
    var r := FinalGrowth(words, k, ttyWidth);
    FinalGrowthFits(words, k, ttyWidth);
    GrownRun(words, k, ttyWidth, r);
    GrownRunFits(words, k, ttyWidth, r);
  }

  /** Dropping the second-to-last entity of the loop's result when it is a
      space, then the spaces on the ends, leaves the run it grew and the
      ellipsis. */
  lemma TrimFinalGrowth(words: seq<string>, k: nat, ttyWidth: int, r: Growth)
    requires PlainWords(words) && k < |words|
    requires SumLengths(Spaced(words)) > RoomForText(ttyWidth)
    requires LengthOfEntity(words[k]) + |ELLIPSIS| <= RoomForText(ttyWidth)
    requires r == FinalGrowth(words, k, ttyWidth)
    ensures 0 <= r.left + 1 <= r.right <= |words|
    ensures |r.entities| >= 2 && r.entities[|r.entities| - 1] == ELLIPSIS
    ensures WithoutPendingSpaces(r.entities) == GrownWords(words, r)
  {
    assert GrowthValid(words, k, ttyWidth, r) by {
      FinalGrowthFits(words, k, ttyWidth);
    }
    GrownRun(words, k, ttyWidth, r);
  }

  /** The growth loop followed by the removal of the pending spaces: the
      second-to-last entity when it is a space, then the spaces on the ends. */
  method TruncateAroundFirstMatch(words: seq<string>, k: nat, ttyWidth: int) returns (entitiesToPrint: seq<string>)
    requires PlainWords(words) && k < |words|
    requires SumLengths(Spaced(words)) > RoomForText(ttyWidth)
    requires LengthOfEntity(words[k]) + |ELLIPSIS| <= RoomForText(ttyWidth)
    ensures entitiesToPrint == TruncatedAround(words, k, ttyWidth)
  {
    var grownEntities := GrowAroundFirstMatch(words, k, ttyWidth);
    ghost var grown := FinalGrowth(words, k, ttyWidth);
    assert |grownEntities| >= 2 && grownEntities[|grownEntities| - 1] == ELLIPSIS by {
      TrimFinalGrowth(words, k, ttyWidth, grown);
    }
    entitiesToPrint := DropPendingSpaces(grownEntities);
    assert entitiesToPrint == TruncatedAround(words, k, ttyWidth) by {
      TrimFinalGrowth(words, k, ttyWidth, grown);
      TruncatedAroundIs(words, k, ttyWidth, grown);
    }
  }

  /** The end of getTruncatedLine: drop the space the growth loop was about
      to print before the ellipsis, then the spaces on either end. */
  method DropPendingSpaces(grownEntities: seq<string>) returns (entitiesToPrint: seq<string>)
    requires |grownEntities| >= 2 && grownEntities[|grownEntities| - 1] == ELLIPSIS
    ensures entitiesToPrint == WithoutPendingSpaces(grownEntities)
  {
    entitiesToPrint := grownEntities;
    var secondToLastIndex := |entitiesToPrint| - 2;
    if entitiesToPrint[secondToLastIndex] == SPACE {
      entitiesToPrint := entitiesToPrint[..secondToLastIndex] + entitiesToPrint[secondToLastIndex + 1..];
    }
    entitiesToPrint := RemoveSpacesOnEnds(entitiesToPrint);
  }

  /** What the end of getTruncatedLine leaves of the growth loop's entities. */
  function WithoutPendingSpaces(entities: seq<string>): seq<string>
    requires |entities| >= 2 && entities[|entities| - 1] == ELLIPSIS
  {
    RemoveSpacesOnEnds(DroppedPendingSpace(entities))
  }

  /** The entities without the second-to-last one when it is a space. */
  function DroppedPendingSpace(entities: seq<string>): (dropped: seq<string>)
    requires |entities| >= 2
    ensures |dropped| >= |entities| - 1 && dropped[|dropped| - 1] == entities[|entities| - 1]
  {
    var s := |entities| - 2;
    if entities[s] == SPACE then entities[..s] + entities[s + 1..] else entities
  }

  /** The first matched word alone is too wide: keep its first bytes, as many
      as the room for text less the ellipsis plus the two markers' lengths.
      Go panics when the word is shorter than that; here the result is None. */
  method CutFirstMatchedWord(firstMatchedWord: string, ttyWidth: int) returns (truncated: Option<seq<string>>)
    ensures var n := RoomForText(ttyWidth) - |ELLIPSIS| + |YELLOW_COLOR_CODE| + |CANCEL_COLOR_CODE|;
      truncated == (if 0 <= n <= |firstMatchedWord| then Some([firstMatchedWord[..n], ELLIPSIS]) else None)
  {
    var roomForText := RoomForText(ttyWidth);
    var lengthOfTruncatedEntity := roomForText - |ELLIPSIS| + |YELLOW_COLOR_CODE| + |CANCEL_COLOR_CODE|;
    if !(0 <= lengthOfTruncatedEntity <= |firstMatchedWord|) {
      return None;
    }
    var singleTruncatedEntity := firstMatchedWord[..lengthOfTruncatedEntity];
    return Some([singleTruncatedEntity, ELLIPSIS]);
  }

  /** What getTruncatedLine returns for `words`, whose whole line does not
      fit. When the first matched word with the ellipsis is too wide, the
      word's first room+6 bytes and the ellipsis (room less the ellipsis, plus
      room for both markers), or a failure when the word is shorter than
      that (a Go slice panic). Otherwise the result of the growth loop with
      its pending spaces removed. */
  predicate Truncation(words: seq<string>, ttyWidth: int, truncated: Option<seq<string>>)
    requires |words| >= 1 && PlainWords(words)
    requires SumLengths(Spaced(words)) > RoomForText(ttyWidth)
  {
    var k := FirstMatchedWordIndex(words);
    var first := words[k];
    var room := RoomForText(ttyWidth);
    if LengthOfEntity(first) + |ELLIPSIS| > room then
      truncated == (if 0 <= room + 6 <= |first| then Some([first[..room + 6], ELLIPSIS]) else None)
    else
      truncated == Some(TruncatedAround(words, k, ttyWidth))
  }

  /** getTruncatedLine: start from the first matched word and an ellipsis,
      then add a space or a word alternately on the left and on the right
      until the next one would pass the room for text. When the first matched
      word alone is too wide it is cut instead. */
  method GetTruncatedLine(words: seq<string>, ttyWidth: int) returns (truncated: Option<seq<string>>)
    requires |words| >= 1 && PlainWords(words)
    requires SumLengths(Spaced(words)) > RoomForText(ttyWidth)
    ensures Truncation(words, ttyWidth, truncated)
  {
    var firstMatchedWordIndex := FindFirstMatchedWord(words);
    var firstMatchedWord := words[firstMatchedWordIndex];
    WillHitEndOfTtyBeforeEllipsis(firstMatchedWord, ttyWidth);
    if WillHitEndOfTty(firstMatchedWord, [ELLIPSIS], ttyWidth) {
      truncated := CutFirstMatchedWord(firstMatchedWord, ttyWidth);
      return;
    }
    var entitiesToPrint := TruncateAroundFirstMatch(words, firstMatchedWordIndex, ttyWidth);
    truncated := Some(entitiesToPrint);
  }

  /** A truncated line ends in the ellipsis. Either it is a prefix of the first
      matched word, or its words are consecutive input words, in order, that
      include the first matched word. */
  lemma {:induction false} TruncationShape(words: seq<string>, ttyWidth: int, t: seq<string>)
    requires |words| >= 1 && PlainWords(words)
    requires SumLengths(Spaced(words)) > RoomForText(ttyWidth) && Truncation(words, ttyWidth, Some(t))
    ensures |t| >= 2 && t[|t| - 1] == ELLIPSIS
    ensures var k := FirstMatchedWordIndex(words);
      (|t| == 2 && |t[0]| <= |words[k]| && words[k][..|t[0]|] == t[0])
      || exists lo, hi :: 0 <= lo <= k < hi <= |words| && Content(t[..|t| - 1]) == words[lo..hi]
    ensures var k := FirstMatchedWordIndex(words);
      LengthOfEntity(words[k]) + |ELLIPSIS| <= RoomForText(ttyWidth) ==> FittingRun(words, k, ttyWidth, t)
  {
    var k := FirstMatchedWordIndex(words);
    var room := RoomForText(ttyWidth);
    if LengthOfEntity(words[k]) + |ELLIPSIS| > room {
      assert t == [words[k][..room + 6], ELLIPSIS];
    } else {
      assert FittingRun(words, k, ttyWidth, t) by {
        TruncatedAroundRuns(words, k, ttyWidth);
      }
      FittingRunShape(words, k, ttyWidth, t);
    }
  }

  /** The run the loop grew, once trimmed, ends with the ellipsis, and its
      words without the spaces are a slice of the line around the first
      matched word. */
  lemma TruncatedAroundShape(words: seq<string>, k: nat, ttyWidth: int)
    requires PlainWords(words) && k < |words|
    requires SumLengths(Spaced(words)) > RoomForText(ttyWidth)
    requires LengthOfEntity(words[k]) + |ELLIPSIS| <= RoomForText(ttyWidth)
    ensures var t := TruncatedAround(words, k, ttyWidth);
      |t| >= 2 && t[|t| - 1] == ELLIPSIS
      && exists lo, hi :: 0 <= lo <= k < hi <= |words| && Content(t[..|t| - 1]) == words[lo..hi]
  {
    TruncatedAroundRuns(words, k, ttyWidth);
    FittingRunShape(words, k, ttyWidth, TruncatedAround(words, k, ttyWidth));
  }

  /** A fitting run ends with the ellipsis, and its words without the spaces
      are a slice of the line around word `k`. */
  lemma FittingRunShape(words: seq<string>, k: nat, ttyWidth: int, t: seq<string>)
    requires PlainWords(words) && FittingRun(words, k, ttyWidth, t)
    ensures |t| >= 2 && t[|t| - 1] == ELLIPSIS
    ensures exists lo, hi :: 0 <= lo <= k < hi <= |words| && Content(t[..|t| - 1]) == words[lo..hi]
  {
    var lo, hi :| 0 <= lo <= k < hi <= |words| && t == Spaced(words[lo..hi]) + [ELLIPSIS]
      && SumLengths(t) <= RoomForText(ttyWidth);
    var run := words[lo..hi];
    assert PlainWords(run) by {
      forall w | w in run ensures ' ' !in w && '\n' !in w {
        assert w in words;
      }
    }
    ContentSpaced(run);
    assert t[..|t| - 1] == Spaced(run);
  }

  /** The line of the worked case below: "aaa bbb ccc ddd" with "bbb" marked. */
  function ExampleLine(): seq<string> {
    ["aaa", YELLOW_COLOR_CODE + "bbb" + CANCEL_COLOR_CODE, "ccc", "ddd"]
  }

  /** The worked line has plain words, 15 columns, and its match in word 1. */
  lemma ExampleLineShape()
    ensures var words := ExampleLine();
      PlainWords(words) && SumLengths(Spaced(words)) == 15 && FirstMatchedWordIndex(words) == 1
      && LengthOfEntity(words[0]) == 3 && LengthOfEntity(words[1]) == 3 && LengthOfEntity(words[2]) == 3
  {
    var words := ExampleLine();
    ExampleFirstMatch();
    ExampleEntityLengths();
    ExampleWordsLength(words[1]);
    assert words == ["aaa", words[1]] + ["ccc", "ddd"];
    SumLengthsSpaced(words);
  }

  /** Each word of the worked case is three columns wide, the marked one
      included. */
  lemma ExampleEntityLengths()
    ensures LengthOfEntity("aaa") == 3 && LengthOfEntity(ExampleLine()[1]) == 3
    ensures LengthOfEntity("ccc") == 3 && LengthOfEntity("ddd") == 3
  {
    LengthOfHighlightedWord("bbb");
    LengthOfPlainEntity("aaa");
    LengthOfPlainEntity("ccc");
    LengthOfPlainEntity("ddd");
  }

  /** The four words of the worked case take 12 columns. */
  lemma ExampleWordsLength(marked: string)
    requires LengthOfEntity(marked) == 3 && LengthOfEntity("aaa") == 3
    requires LengthOfEntity("ccc") == 3 && LengthOfEntity("ddd") == 3
    ensures SumLengths(["aaa", marked] + ["ccc", "ddd"]) == 12
  {
    SumLengthsAppend(["aaa", marked], ["ccc", "ddd"]);
    SumLengthsPair("aaa", marked);
    SumLengthsPair("ccc", "ddd");
  }

  /** In the worked case the first matched word is the second one. */
  lemma ExampleFirstMatch()
    ensures PlainWords(ExampleLine()) && FirstMatchedWordIndex(ExampleLine()) == 1
  {
    var words := ExampleLine();
    assert ESC != ' ' && ESC != '\n';
    NoEscNoMarker("aaa", CANCEL_COLOR_CODE);
    assert OccursAt(words[1], CANCEL_COLOR_CODE, 8) by {
      assert words[1][8..12] == CANCEL_COLOR_CODE;
    }
  }

  /** The widths of the lists the loop builds in the worked case. */
  lemma ExampleRowWidths(marked: string)
    requires LengthOfEntity(marked) == 3 && LengthOfEntity("aaa") == 3
    ensures RowWidth([marked, ELLIPSIS]) == 6
    ensures RowWidth([SPACE, marked, ELLIPSIS]) == 7
    ensures RowWidth([SPACE, marked, SPACE, ELLIPSIS]) == 8
    ensures RowWidth(["aaa", SPACE, marked, SPACE, ELLIPSIS]) == 11
  {
    LengthOfPlainEntity(SPACE);
    LengthOfPlainEntity(ELLIPSIS);
    assert RowWidth([marked, ELLIPSIS]) == 6 by {
      RowWidthWithoutBreaks([marked, ELLIPSIS]);
      SumLengthsPair(marked, ELLIPSIS);
    }
    assert RowWidth([SPACE, marked, ELLIPSIS]) == 7 by {
      RowWidthWithoutBreaks([SPACE, marked, ELLIPSIS]);
      assert [SPACE, marked, ELLIPSIS] == [SPACE] + [marked, ELLIPSIS];
      ExampleSum([SPACE], [marked, ELLIPSIS]);
      SumLengthsPair(marked, ELLIPSIS);
    }
    assert RowWidth([SPACE, marked, SPACE, ELLIPSIS]) == 8 by {
      RowWidthWithoutBreaks([SPACE, marked, SPACE, ELLIPSIS]);
      assert [SPACE, marked, SPACE, ELLIPSIS] == [SPACE, marked] + [SPACE, ELLIPSIS];
      ExampleSum([SPACE, marked], [SPACE, ELLIPSIS]);
      SumLengthsPair(SPACE, marked);
      SumLengthsPair(SPACE, ELLIPSIS);
    }
    assert RowWidth(["aaa", SPACE, marked, SPACE, ELLIPSIS]) == 11 by {
      RowWidthWithoutBreaks(["aaa", SPACE, marked, SPACE, ELLIPSIS]);
      assert ["aaa", SPACE, marked, SPACE, ELLIPSIS] == ["aaa", SPACE] + [marked, SPACE, ELLIPSIS];
      ExampleSum(["aaa", SPACE], [marked, SPACE, ELLIPSIS]);
      SumLengthsPair("aaa", SPACE);
      assert [marked, SPACE, ELLIPSIS] == [marked] + [SPACE, ELLIPSIS];
      ExampleSum([marked], [SPACE, ELLIPSIS]);
      SumLengthsPair(SPACE, ELLIPSIS);
    }
  }

  /** The width of a list, taken in two parts; a single entity is its own width. */
  lemma ExampleSum(a: seq<string>, b: seq<string>)
    ensures SumLengths(a + b) == SumLengths(a) + SumLengths(b)
    ensures |a| == 1 ==> SumLengths(a) == LengthOfEntity(a[0])
  {
    SumLengthsAppend(a, b);
    if |a| == 1 {
      assert a[..0] == [];
    }
  }

  /** In the worked case the loop adds a space on the left, a space on the
      right and "aaa" on the left, and stops before "ccc". */
  lemma ExampleGrowth()
    ensures var words := ExampleLine();
      FinalGrowth(words, 1, 20) == Growth(["aaa", SPACE, words[1], SPACE, ELLIPSIS], -1, 2, false, true, false)
  {
    var words := ExampleLine();
    var marked := words[1];
    ExampleLineShape();
    ExampleRowWidths(marked);
    LengthOfPlainEntity(SPACE);
    var s0 := [marked, ELLIPSIS];
    var s1 := [SPACE] + s0;
    var s2 := s1[..|s1| - 1] + [SPACE] + [ELLIPSIS];
    var s3 := ["aaa"] + s2;
    assert s1 == [SPACE, marked, ELLIPSIS];
    assert s2 == [SPACE, marked, SPACE, ELLIPSIS];
    assert s3 == ["aaa", SPACE, marked, SPACE, ELLIPSIS];
    LeftSpaceTurn(words, 20, s0, 0, 2, true);
    RightSpaceTurn(words, 20, s1, 0, 2, false);
    LeftWordTurn(words, 20, s2, 0, 2, false);
    RightWordTurn(words, 20, s3, -1, 2, true);
  }

  /** A worked case of getTruncatedLine. On a terminal 20 columns wide the
      room for text is 12. The loop grows "bbb" to " bbb " and then to
      "aaa bbb " (11 columns); "ccc" would make 14, so it stops there, and the
      space before the ellipsis is dropped. */
  lemma TruncationExample()
    ensures var words := ExampleLine();
      PlainWords(words) && SumLengths(Spaced(words)) > RoomForText(20)
      && Truncation(words, 20, Some(["aaa", SPACE, words[1], ELLIPSIS]))
  {
    var words := ExampleLine();
    ExampleLineShape();
    ExampleGrowth();
    var r := FinalGrowth(words, 1, 20);
    assert TruncatedAround(words, 1, 20) == Spaced(words[r.left + 1..r.right]) + [ELLIPSIS];
    assert words[r.left + 1..r.right] == ["aaa", words[1]];
    assert Spaced(["aaa", words[1]]) == ["aaa", SPACE, words[1]] by {
      assert ["aaa", words[1]][1..] == [words[1]];
    }
    assert TruncatedAround(words, 1, 20) == ["aaa", SPACE, words[1], ELLIPSIS];
    assert RoomForText(20) == 12;
    assert !(LengthOfEntity(words[1]) + |ELLIPSIS| > 12);
  }

  /** Words never hold a line feed, so a spaced line is a single row. */
  lemma {:induction false} SpacedHasNoBreak(words: seq<string>)
    requires PlainWords(words)
    ensures LINE_BREAK !in Spaced(words)
  {
    forall e | e in Spaced(words) ensures e != LINE_BREAK {
      SpacedElements(words, e);
      if e != SPACE {
        PlainWordIsNotSeparator(e);
      }
    }
  }

  /** renderMatchedLineText without the printing: the entities for one matched
      line. In truncate mode the whole spaced line when it fits and the
      truncated line otherwise; in wrap mode the line with breaks. `None`
      stands for the panic of the cut in getTruncatedLine. */
  method RenderMatchedLineText(line: LineWithMatches, ttyWidth: int, shouldPrintWholeLines: bool)
    returns (entitiesToPrint: Option<seq<string>>)
    requires |line.matchIndeces| >= 1 && '\n' !in line.text
    ensures var words := WordsWithColorCodes(line.text, line.matchIndeces);
      PlainWords(words) &&
      if shouldPrintWholeLines then
        entitiesToPrint == Some(Wrapped(words, ttyWidth))
        && Content(entitiesToPrint.value) == words && AllRowsFit(entitiesToPrint.value, ttyWidth)
      else if SumLengths(Spaced(words)) <= RoomForText(ttyWidth) then
        entitiesToPrint == Some(Spaced(words))
      else
        Truncation(words, ttyWidth, entitiesToPrint)
  {
    var words := GetWordsWithColorCodes(line);
    WordsWithColorCodesArePlain(line.text, line.matchIndeces);
    if !shouldPrintWholeLines {
      var wholeLine: seq<string> := [];
      var i := 0;
      while i < |words|
        invariant 0 <= i <= |words|
        invariant i == 0 ==> wholeLine == []
        invariant i > 0 ==> wholeLine == Spaced(words[..i]) + [SPACE]
      {
        var word := words[i];
        PrefixSnoc(words, i);
        if i > 0 {
          SpacedSnoc(words[..i], word);
        }
        wholeLine := wholeLine + [word];
        wholeLine := wholeLine + [SPACE];
        i := i + 1;
      }
      WholePrefix(words);
      wholeLine := wholeLine[..|wholeLine| - 1];
      SpacedHasNoBreak(words);
      LengthOfShortEntity("");
      WillHitEndOfTtyWithoutBreaks("", wholeLine, ttyWidth);
      if !WillHitEndOfTty("", wholeLine, ttyWidth) {
        entitiesToPrint := Some(wholeLine);
      } else {
        entitiesToPrint := GetTruncatedLine(words, ttyWidth);
      }
    } else {
      var wrapped := InsertLineBreaksAndBuffers(words, ttyWidth);
      entitiesToPrint := Some(wrapped);
    }
  }
}
