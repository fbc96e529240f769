/** The line matcher shared by both versions of the tool: which lines of a
    candidate file hold the search term, and where. The term is matched as a
    literal string; the regular-expression engine is not modelled. */
module Matcher {
  import opened Text

  /** A matched line: its 1-based number, its match pairs and its text. */
  datatype LineWithMatches = LineWithMatches(lineNo: int, matchIndeces: seq<Span>, text: string)

  /** A candidate file. `lines` stands for the file's contents on disk, which
      the tool reads line by line on every search. */
  datatype File = File(
    path: string,
    lines: seq<string>,
    linesWithMatches: seq<LineWithMatches>,
    isSelected: bool,
    isOpen: bool)

  /** The non-overlapping occurrences of `term` in `line` at or after `from`,
      leftmost first (what FindAllIndex reports for a literal pattern). */
  function MatchSpansFrom(line: string, term: string, from: nat): (spans: seq<Span>)
    requires |term| > 0
    decreases |line| - from
    ensures forall k :: 0 <= k < |spans| ==>
      from <= spans[k].start && spans[k].end == spans[k].start + |term| && OccursAt(line, term, spans[k].start)
    ensures forall k :: 0 < k < |spans| ==> spans[k - 1].end <= spans[k].start
    ensures spans == [] <==> forall j :: from <= j ==> !OccursAt(line, term, j)
  {
    if from + |term| > |line| then []
    else if line[from..from + |term|] == term then
      assert OccursAt(line, term, from);
      [Span(from, from + |term|)] + MatchSpansFrom(line, term, from + |term|)
    else MatchSpansFrom(line, term, from + 1)
  }

  function MatchSpans(line: string, term: string): seq<Span>
    requires |term| > 0
  {
    MatchSpansFrom(line, term, 0)
  }

  /** Every line that contains the term has at least one match pair, so the
      first pair that getWordsWithColorCodes reads unconditionally exists. */
  lemma {:induction false} MatchSpansOfContainingLine(line: string, term: string)
    requires |term| > 0
    ensures Contains(line, term) <==> |MatchSpans(line, term)| >= 1
  {
    if Contains(line, term) {
      assert OccursAt(line, term, FindFrom(line, term, 0).value);
    }
  }

  /** The matched lines of `lines`, numbered from 1, in file order. */
  function MatchedLines(lines: seq<string>, term: string): seq<LineWithMatches>
    requires |term| > 0
  {
    if lines == [] then []
    else
      var n := |lines| - 1;
      MatchedLines(lines[..n], term)
      + (if Contains(lines[n], term) then [LineWithMatches(n + 1, MatchSpans(lines[n], term), lines[n])] else [])
  }

  function LineNumbers(matched: seq<LineWithMatches>): set<int> {
    set e | e in matched :: e.lineNo
  }

  /** Each matched line is the line of that number, contains the term, and
      carries every match of the term in it; numbers are 1-based and strictly
      increasing. */
  lemma {:induction false} MatchedLinesSound(lines: seq<string>, term: string)
    requires |term| > 0
    ensures forall e <- MatchedLines(lines, term) ::
      1 <= e.lineNo <= |lines| && e.text == lines[e.lineNo - 1] && Contains(e.text, term)
      && e.matchIndeces == MatchSpans(e.text, term) && |e.matchIndeces| >= 1
    ensures forall a, b :: 0 <= a < b < |MatchedLines(lines, term)| ==>
      MatchedLines(lines, term)[a].lineNo < MatchedLines(lines, term)[b].lineNo
  {
    if lines != [] {
      var n := |lines| - 1;
      MatchedLinesSound(lines[..n], term);
      MatchSpansOfContainingLine(lines[n], term);
    }
  }

  /** A line is reported exactly when it contains the term. */
  lemma {:induction false} MatchedLinesComplete(lines: seq<string>, term: string)
    requires |term| > 0
    ensures forall k :: 0 <= k < |lines| ==>
      (k + 1 in LineNumbers(MatchedLines(lines, term)) <==> Contains(lines[k], term))
  {
    if lines != [] {
      var n := |lines| - 1;
      MatchedLinesComplete(lines[..n], term);
      MatchedLinesSound(lines[..n], term);
      var prev := MatchedLines(lines[..n], term);
      var last := if Contains(lines[n], term) then [LineWithMatches(n + 1, MatchSpans(lines[n], term), lines[n])] else [];
      LineNumbersAppend(prev, last);
      assert n + 1 !in LineNumbers(prev);
      forall k | 0 <= k < n
        ensures k + 1 in LineNumbers(MatchedLines(lines, term)) <==> Contains(lines[k], term)
      {
        assert lines[..n][k] == lines[k];
      }
    }
  }

  lemma LineNumbersAppend(a: seq<LineWithMatches>, b: seq<LineWithMatches>)
    ensures LineNumbers(a + b) == LineNumbers(a) + LineNumbers(b)
  {
    forall x | x in LineNumbers(a + b) ensures x in LineNumbers(a) + LineNumbers(b) {
      var e :| e in a + b && e.lineNo == x;
    }
    forall x | x in LineNumbers(a) + LineNumbers(b) ensures x in LineNumbers(a + b) {
      if x in LineNumbers(a) {
        var e :| e in a && e.lineNo == x;
        assert e in a + b;
      } else {
        var e :| e in b && e.lineNo == x;
        assert e in a + b;
      }
    }
  }

  /** getLinesWithMatches: scan the file's lines, counting line numbers from 1,
      and keep each line that contains the term with its match pairs. */
  method GetLinesWithMatches(lines: seq<string>, searchTerm: string) returns (linesWithMatches: seq<LineWithMatches>)
    requires |searchTerm| > 0
    ensures linesWithMatches == MatchedLines(lines, searchTerm)
  {
    linesWithMatches := [];
    var lineNumber := 1;
    var i := 0;
    while i < |lines|
      invariant 0 <= i <= |lines| && lineNumber == i + 1
      invariant linesWithMatches == MatchedLines(lines[..i], searchTerm)
    {
      var line := lines[i];
      assert lines[..i + 1][..i] == lines[..i];
      if Contains(line, searchTerm) {
        var matchIndeces := MatchSpans(line, searchTerm);
        linesWithMatches := linesWithMatches + [LineWithMatches(lineNumber, matchIndeces, line)];
      }
      lineNumber := lineNumber + 1;
      i := i + 1;
    }
    assert lines[..i] == lines;
  }

  predicate HasMatch(file: File, term: string)
    requires |term| > 0
  {
    MatchedLines(file.lines, term) != []
  }

  function WithMatchedLines(file: File, term: string): File
    requires |term| > 0
  {
    file.(linesWithMatches := MatchedLines(file.lines, term))
  }

  /** getFilesWithMatches' result: the candidates with at least one matching
      line, each carrying its matched lines, in candidate order; nothing for
      an empty term or an empty candidate list. */
  function FilesWithMatches(files: seq<File>, term: string): seq<File>
  {
    if |files| == 0 || |term| == 0 then []
    else
      var n := |files| - 1;
      FilesWithMatches(files[..n], term)
      + (if HasMatch(files[n], term) then [WithMatchedLines(files[n], term)] else [])
  }

  /** Only files with a matching line are kept, and every such file is kept. */
  lemma {:induction false} FilesWithMatchesSpec(files: seq<File>, term: string)
    ensures |term| == 0 ==> FilesWithMatches(files, term) == []
    ensures forall f <- FilesWithMatches(files, term) ::
      |term| > 0 && f.linesWithMatches == MatchedLines(f.lines, term) && f.linesWithMatches != []
    ensures |term| > 0 ==> forall k :: 0 <= k < |files| && HasMatch(files[k], term) ==>
      WithMatchedLines(files[k], term) in FilesWithMatches(files, term)
    ensures |FilesWithMatches(files, term)| <= |files|
  {
    if |files| > 0 && |term| > 0 {
      var n := |files| - 1;
      FilesWithMatchesSpec(files[..n], term);
      if |files| > 1 {
        assert forall k :: 0 <= k < n ==> files[k] == files[..n][k];
      }
    }
  }

  /** Every kept file is a candidate with a matching line, carrying its matched
      lines and otherwise unchanged (path, contents, open flag). */
  lemma {:induction false} FilesWithMatchesFromCandidates(files: seq<File>, term: string)
    requires |term| > 0
    ensures forall f <- FilesWithMatches(files, term) ::
      exists g <- files :: HasMatch(g, term) && f == WithMatchedLines(g, term)
  {
    if |files| > 0 {
      var n := |files| - 1;
      FilesWithMatchesFromCandidates(files[..n], term);
      var prev := FilesWithMatches(files[..n], term);
      forall f | f in FilesWithMatches(files, term)
        ensures exists g <- files :: HasMatch(g, term) && f == WithMatchedLines(g, term)
      {
        if f in prev {
          var g :| g in files[..n] && HasMatch(g, term) && f == WithMatchedLines(g, term);
          assert g in files;
        } else {
          assert files[n] in files;
        }
      }
    }
  }
}
