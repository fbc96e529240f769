/** Which files of the match list debounce_grep.go puts on screen
    (renderSearchMatches, steps 1 to 3), how many rows each takes
    (getNumberOfLinesRendered) and which matched lines an open file shows
    (File.open). */
module Window {
  import opened Text
  import opened Matcher
  import opened Sorting

  /** Rows a file takes: its path line, at most `maxLinesToPrintPerFile`
      matched lines, and one blank row under them. */
  function NumberOfLinesRendered(file: File, maxLinesToPrintPerFile: int): (rows: int)
    ensures rows - 2 <= |file.linesWithMatches| && rows - 2 <= maxLinesToPrintPerFile
    ensures rows - 2 == |file.linesWithMatches| || rows - 2 == maxLinesToPrintPerFile
  {
    if |file.linesWithMatches| > maxLinesToPrintPerFile then maxLinesToPrintPerFile + 2
    else |file.linesWithMatches| + 2
  }

  /** Every index in the open-file queue names a file of the list. */
  predicate InRange(queue: seq<int>, files: seq<File>) {
    forall j :: 0 <= j < |queue| ==> 0 <= queue[j] < |files|
  }

  /** Total rows of the listed files. */
  function RowsOf(files: seq<File>, indices: seq<int>, maxLinesToPrintPerFile: int): int
    requires InRange(indices, files)
  {
    if indices == [] then 0
    else
      var n := |indices| - 1;
      RowsOf(files, indices[..n], maxLinesToPrintPerFile) + NumberOfLinesRendered(files[indices[n]], maxLinesToPrintPerFile)
  }

  /** The open-file pass after the last `k` entries of the queue, most
      recent first: the indices taken and the rows still to spare. A file is
      taken when its rows fit, or in any case when it is the only open file. */
  function OpenPass(files: seq<File>, queue: seq<int>, k: nat, ttyHeight: int, maxLinesToPrintPerFile: int): (r: (seq<int>, int))
    requires k <= |queue| && InRange(queue, files)
  {
    if k == 0 then ([], ttyHeight - 1)
    else
      var before := OpenPass(files, queue, k - 1, ttyHeight, maxLinesToPrintPerFile);
      var openFileIndex := queue[|queue| - k];
      var linesForFile := NumberOfLinesRendered(files[openFileIndex], maxLinesToPrintPerFile);
      if before.1 - linesForFile >= 0 || |queue| == 1 then (before.0 + [openFileIndex], before.1 - linesForFile)
      else before
  }

  /** The closed-file pass from `fileIndex` to `bottom`: closed files are
      taken one row each, until the list ends or the rows to spare are
      exactly zero. */
  function ClosedPass(files: seq<File>, fileIndex: nat, bottom: int, spare: int): (picked: seq<int>)
    decreases |files| - fileIndex
  {
    if fileIndex > bottom || |files| <= fileIndex || spare == 0 then []
    else if !files[fileIndex].isOpen then [fileIndex] + ClosedPass(files, fileIndex + 1, bottom, spare - 1)
    else ClosedPass(files, fileIndex + 1, bottom, spare)
  }

  /** The window: both passes, sorted by file index. Nothing when there are
      no matched files, whatever the queue holds. */
  function WindowOf(files: seq<File>, queue: seq<int>, top: nat, ttyHeight: int, maxLinesToPrintPerFile: int): seq<int>
    requires |files| > 0 ==> InRange(queue, files)
  {
    if |files| == 0 then []
    else
      var openPass := OpenPass(files, queue, |queue|, ttyHeight, maxLinesToPrintPerFile);
      SortBy(openPass.0 + ClosedPass(files, top, top + ttyHeight - 1, openPass.1), IntKey)
  }

  /** Step 1 of renderSearchMatches: walk the open-file queue from its end.
      An entry that names no file of the list makes Go panic when the file
      is looked up; `ok` is then false. */
  method OpenFilesPass(filesWithMatches: seq<File>, openFileIndexQueue: seq<int>, ttyHeight: int, maxLinesToPrintPerFile: int)
    returns (ok: bool, filesInWindowIndeces: seq<int>, linesToSpareForMatches: int)
    ensures ok == InRange(openFileIndexQueue, filesWithMatches)
    ensures ok ==> filesInWindowIndeces == OpenPass(filesWithMatches, openFileIndexQueue, |openFileIndexQueue|, ttyHeight, maxLinesToPrintPerFile).0
    ensures ok ==> linesToSpareForMatches == OpenPass(filesWithMatches, openFileIndexQueue, |openFileIndexQueue|, ttyHeight, maxLinesToPrintPerFile).1
  {
    filesInWindowIndeces := [];
    linesToSpareForMatches := ttyHeight - 1;
    var i := |openFileIndexQueue| - 1;
    while i >= 0
      invariant -1 <= i < |openFileIndexQueue|
      invariant forall j :: i < j < |openFileIndexQueue| ==> 0 <= openFileIndexQueue[j] < |filesWithMatches|
      invariant InRange(openFileIndexQueue, filesWithMatches) ==>
        filesInWindowIndeces == OpenPass(filesWithMatches, openFileIndexQueue, |openFileIndexQueue| - 1 - i, ttyHeight, maxLinesToPrintPerFile).0
      invariant InRange(openFileIndexQueue, filesWithMatches) ==>
        linesToSpareForMatches == OpenPass(filesWithMatches, openFileIndexQueue, |openFileIndexQueue| - 1 - i, ttyHeight, maxLinesToPrintPerFile).1
    {
      var openFileIndex := openFileIndexQueue[i];
      if !(0 <= openFileIndex < |filesWithMatches|) {
        return false, filesInWindowIndeces, linesToSpareForMatches;
      }
      var linesForFile := NumberOfLinesRendered(filesWithMatches[openFileIndex], maxLinesToPrintPerFile);
      if linesToSpareForMatches - linesForFile >= 0 {
        filesInWindowIndeces := filesInWindowIndeces + [openFileIndex];
        linesToSpareForMatches := linesToSpareForMatches - linesForFile;
      } else {
        // the only open file is shown even when it passes the bottom
        if |openFileIndexQueue| == 1 {
          filesInWindowIndeces := filesInWindowIndeces + [openFileIndex];
          linesToSpareForMatches := linesToSpareForMatches - linesForFile;
        }
      }
      i := i - 1;
    }
    ok := true;
  }

  /** Step 2 of renderSearchMatches: closed files in index order from the top
      of the window, one row each. */
  method ClosedFilesPass(filesWithMatches: seq<File>, matchIndexAtTopOfWindow: nat, ttyHeight: int, linesToSpare: int)
    returns (filesInWindowIndeces: seq<int>)
    ensures filesInWindowIndeces
      == ClosedPass(filesWithMatches, matchIndexAtTopOfWindow, matchIndexAtTopOfWindow + ttyHeight - 1, linesToSpare)
  {
    filesInWindowIndeces := [];
    var linesToSpareForMatches := linesToSpare;
    var top := matchIndexAtTopOfWindow;
    var bottom := matchIndexAtTopOfWindow + ttyHeight - 1;
    var fileIndex := top;
    while fileIndex <= bottom
      invariant top <= fileIndex
      invariant ClosedPass(filesWithMatches, top, bottom, linesToSpare)
        == filesInWindowIndeces + ClosedPass(filesWithMatches, fileIndex, bottom, linesToSpareForMatches)
      decreases bottom - fileIndex
    {
      if |filesWithMatches| <= fileIndex {
        break;
      } else if linesToSpareForMatches == 0 {
        break;
      }
      var file := filesWithMatches[fileIndex];
      if !file.isOpen {
        filesInWindowIndeces := filesInWindowIndeces + [fileIndex];
        linesToSpareForMatches := linesToSpareForMatches - 1;
      }
      fileIndex := fileIndex + 1;
    }
  }

  /** What steps 1 to 3 of renderSearchMatches give for any queue: None when
      there are matched files and the queue names an index outside them
      (Go panics on the lookup), and the window otherwise. */
  function RenderedWindow(files: seq<File>, queue: seq<int>, top: nat, ttyHeight: int, maxLinesToPrintPerFile: int): Option<seq<int>>
  {
    if |files| > 0 && !InRange(queue, files) then None
    else Some(WindowOf(files, queue, top, ttyHeight, maxLinesToPrintPerFile))
  }

  /** Steps 1 to 3 of renderSearchMatches: the indices of the files to show,
      in ascending order, or None when the open pass panics. */
  method FilesInWindowIndeces(filesWithMatches: seq<File>, openFileIndexQueue: seq<int>, matchIndexAtTopOfWindow: nat,
                              ttyHeight: int, maxLinesToPrintPerFile: int)
    returns (window: Option<seq<int>>)
    ensures window == RenderedWindow(filesWithMatches, openFileIndexQueue, matchIndexAtTopOfWindow, ttyHeight, maxLinesToPrintPerFile)
  {
    var filesInWindowIndeces := [];
    if |filesWithMatches| > 0 {
      var ok, linesToSpareForMatches;
      ok, filesInWindowIndeces, linesToSpareForMatches := OpenFilesPass(filesWithMatches, openFileIndexQueue, ttyHeight, maxLinesToPrintPerFile);
      if !ok {
        return None;
      }
      var closedFiles := ClosedFilesPass(filesWithMatches, matchIndexAtTopOfWindow, ttyHeight, linesToSpareForMatches);
      filesInWindowIndeces := filesInWindowIndeces + closedFiles;
      filesInWindowIndeces := SortBy(filesInWindowIndeces, IntKey);
    }
    window := Some(filesInWindowIndeces);
  }

  /** The render panics exactly when there are matched files and some queue
      entry names none of them; with no matched files nothing is drawn,
      whatever the queue holds. */
  lemma RenderedWindowPanics(files: seq<File>, queue: seq<int>, top: nat, ttyHeight: int, maxLinesToPrintPerFile: int)
    ensures RenderedWindow(files, queue, top, ttyHeight, maxLinesToPrintPerFile).None?
        <==> |files| > 0 && exists j :: 0 <= j < |queue| && (queue[j] < 0 || |files| <= queue[j])
    ensures |files| == 0 ==> RenderedWindow(files, queue, top, ttyHeight, maxLinesToPrintPerFile) == Some([])
  {
  }

  // ---------------------------------------------------------------------------
  // Properties of the window
  // ---------------------------------------------------------------------------

  predicate Distinct(xs: seq<int>) {
    forall i, j :: 0 <= i < j < |xs| ==> xs[i] != xs[j]
  }

  lemma {:induction false} RowsOfSnoc(files: seq<File>, indices: seq<int>, i: int, maxLinesToPrintPerFile: int)
    requires InRange(indices, files) && 0 <= i < |files|
    ensures InRange(indices + [i], files)
    ensures RowsOf(files, indices + [i], maxLinesToPrintPerFile)
         == RowsOf(files, indices, maxLinesToPrintPerFile) + NumberOfLinesRendered(files[i], maxLinesToPrintPerFile)
  {
    assert (indices + [i])[..|indices|] == indices;
  }

  /** The open pass takes entries of the queue, each at most once when the
      queue has no repeats, and keeps the rows it spares in step with the rows
      it took. The spare never goes below zero unless exactly one file is
      open, and that one file is always taken. */
  lemma {:induction false} OpenPassAccounting(files: seq<File>, queue: seq<int>, k: nat, ttyHeight: int, maxLinesToPrintPerFile: int)
    requires k <= |queue| && InRange(queue, files)
    ensures var r := OpenPass(files, queue, k, ttyHeight, maxLinesToPrintPerFile);
      InRange(r.0, files)
      && r.1 == ttyHeight - 1 - RowsOf(files, r.0, maxLinesToPrintPerFile)
      && (forall x <- r.0 :: x in queue[|queue| - k..])
      && (Distinct(queue) ==> Distinct(r.0))
      && (|queue| != 1 && ttyHeight >= 1 ==> r.1 >= 0)
      && (|queue| == 1 && k == 1 ==> r.0 == queue)
  {
    OpenPassRows(files, queue, k, ttyHeight, maxLinesToPrintPerFile);
    OpenPassFromQueue(files, queue, k, ttyHeight, maxLinesToPrintPerFile);
    if Distinct(queue) {
      OpenPassDistinct(files, queue, k, ttyHeight, maxLinesToPrintPerFile);
    }
    OpenPassSpare(files, queue, k, ttyHeight, maxLinesToPrintPerFile);
  }

  lemma {:induction false} OpenPassRows(files: seq<File>, queue: seq<int>, k: nat, ttyHeight: int, maxLinesToPrintPerFile: int)
    requires k <= |queue| && InRange(queue, files)
    ensures var r := OpenPass(files, queue, k, ttyHeight, maxLinesToPrintPerFile);
      InRange(r.0, files) && r.1 == ttyHeight - 1 - RowsOf(files, r.0, maxLinesToPrintPerFile)
  {
    if k > 0 {
      OpenPassRows(files, queue, k - 1, ttyHeight, maxLinesToPrintPerFile);
      var before := OpenPass(files, queue, k - 1, ttyHeight, maxLinesToPrintPerFile);
      RowsOfSnoc(files, before.0, queue[|queue| - k], maxLinesToPrintPerFile);
    }
  }

  lemma {:induction false} OpenPassFromQueue(files: seq<File>, queue: seq<int>, k: nat, ttyHeight: int, maxLinesToPrintPerFile: int)
    requires k <= |queue| && InRange(queue, files)
    ensures forall x <- OpenPass(files, queue, k, ttyHeight, maxLinesToPrintPerFile).0 :: x in queue[|queue| - k..]
  {
    if k > 0 {
      OpenPassFromQueue(files, queue, k - 1, ttyHeight, maxLinesToPrintPerFile);
      assert queue[|queue| - k..] == [queue[|queue| - k]] + queue[|queue| - (k - 1)..];
    }
  }

  lemma {:induction false} OpenPassDistinct(files: seq<File>, queue: seq<int>, k: nat, ttyHeight: int, maxLinesToPrintPerFile: int)
    requires k <= |queue| && InRange(queue, files) && Distinct(queue)
    ensures Distinct(OpenPass(files, queue, k, ttyHeight, maxLinesToPrintPerFile).0)
  {
    if k > 0 {
      OpenPassDistinct(files, queue, k - 1, ttyHeight, maxLinesToPrintPerFile);
      OpenPassFromQueue(files, queue, k - 1, ttyHeight, maxLinesToPrintPerFile);
      var before := OpenPass(files, queue, k - 1, ttyHeight, maxLinesToPrintPerFile);
      var idx := queue[|queue| - k];
      forall j | |queue| - (k - 1) <= j < |queue| ensures queue[j] != idx {
        assert |queue| - k < j;
      }
      assert idx !in queue[|queue| - (k - 1)..];
      assert idx !in before.0;
      DistinctSnoc(before.0, idx);
    }
  }

  lemma {:induction false} OpenPassSpare(files: seq<File>, queue: seq<int>, k: nat, ttyHeight: int, maxLinesToPrintPerFile: int)
    requires k <= |queue| && InRange(queue, files)
    ensures var r := OpenPass(files, queue, k, ttyHeight, maxLinesToPrintPerFile);
      (|queue| != 1 && ttyHeight >= 1 ==> r.1 >= 0)
      && (|queue| == 1 && k == 1 ==> r.0 == queue)
  {
    if k > 0 {
      OpenPassSpare(files, queue, k - 1, ttyHeight, maxLinesToPrintPerFile);
      if |queue| == 1 && k == 1 {
        assert queue == [queue[0]];
      }
    }
  }

  lemma DistinctSnoc(xs: seq<int>, x: int)
    requires Distinct(xs) && x !in xs
    ensures Distinct(xs + [x])
  {
    var p := xs + [x];
    forall i, j | 0 <= i < j < |p| ensures p[i] != p[j] {
      if j == |p| - 1 {
        assert p[i] == xs[i];
      } else {
        assert p[i] == xs[i] && p[j] == xs[j];
      }
    }
  }

  /** Closed files are taken in increasing index order, only from the window
      [fileIndex, bottom] and the list, and, while the budget is not negative,
      no more of them than the rows to spare. */
  lemma {:induction false} ClosedPassSound(files: seq<File>, fileIndex: nat, bottom: int, spare: int)
    ensures var picked := ClosedPass(files, fileIndex, bottom, spare);
      (forall c <- picked :: fileIndex <= c <= bottom && c < |files| && !files[c].isOpen)
      && (forall i, j :: 0 <= i < j < |picked| ==> picked[i] < picked[j])
      && (spare >= 0 ==> |picked| <= spare)
    decreases |files| - fileIndex
  {
    if !(fileIndex > bottom || |files| <= fileIndex || spare == 0) {
      var nextSpare := if files[fileIndex].isOpen then spare else spare - 1;
      ClosedPassSound(files, fileIndex + 1, bottom, nextSpare);
      var rest := ClosedPass(files, fileIndex + 1, bottom, nextSpare);
      if !files[fileIndex].isOpen {
        var picked := [fileIndex] + rest;
        forall i, j | 0 <= i < j < |picked| ensures picked[i] < picked[j] {
          if i > 0 {
            assert picked[i] == rest[i - 1] && picked[j] == rest[j - 1];
          } else {
            assert picked[j] == rest[j - 1] && rest[j - 1] in rest;
          }
        }
      }
    }
  }

  /** With a non-negative budget the window fits the rows below the search
      term: the open files' rows plus one row per closed file. */
  lemma {:induction false} WindowBudget(files: seq<File>, queue: seq<int>, top: nat, ttyHeight: int, maxLinesToPrintPerFile: int)
    requires InRange(queue, files) && ttyHeight >= 1
    requires OpenPass(files, queue, |queue|, ttyHeight, maxLinesToPrintPerFile).1 >= 0
    ensures var r := OpenPass(files, queue, |queue|, ttyHeight, maxLinesToPrintPerFile);
      InRange(r.0, files)
      && RowsOf(files, r.0, maxLinesToPrintPerFile) + |ClosedPass(files, top, top + ttyHeight - 1, r.1)| <= ttyHeight - 1
  {
    OpenPassAccounting(files, queue, |queue|, ttyHeight, maxLinesToPrintPerFile);
    var r := OpenPass(files, queue, |queue|, ttyHeight, maxLinesToPrintPerFile);
    ClosedPassSound(files, top, top + ttyHeight - 1, r.1);
  }

  lemma {:induction false} DistinctMultiplicity(xs: seq<int>)
    requires Distinct(xs)
    ensures forall x :: multiset(xs)[x] <= 1
  {
    if xs != [] {
      var n := |xs| - 1;
      assert xs == xs[..n] + [xs[n]];
      DistinctMultiplicity(xs[..n]);
      assert xs[n] !in xs[..n];
    }
  }

  lemma {:induction false} MultiplicityDistinct(xs: seq<int>)
    requires forall x :: multiset(xs)[x] <= 1
    ensures Distinct(xs)
  {
    forall i, j | 0 <= i < j < |xs| ensures xs[i] != xs[j] {
      assert xs == xs[..j] + xs[j..];
      assert xs[i] in xs[..j] && xs[j] in xs[j..];
      assert multiset(xs)[xs[j]] == multiset(xs[..j])[xs[j]] + multiset(xs[j..])[xs[j]];
    }
  }

  /** Two repeat-free lists with no common element join without repeats. */
  lemma {:induction false} DisjointJoinMultiplicity(a: seq<int>, b: seq<int>)
    requires Distinct(a) && Distinct(b) && forall x <- a :: x !in b
    ensures forall x :: multiset(a + b)[x] <= 1
  {
    DistinctMultiplicity(a);
    DistinctMultiplicity(b);
    forall x ensures multiset(a + b)[x] <= 1 {
      if x in a {
        assert x !in multiset(b);
      }
    }
  }

  /** The open pass takes only open files, each once, from the list. */
  lemma {:induction false} OpenPicksAreOpen(files: seq<File>, queue: seq<int>, ttyHeight: int, maxLinesToPrintPerFile: int)
    requires InRange(queue, files) && Distinct(queue)
    requires forall j :: 0 <= j < |queue| ==> files[queue[j]].isOpen
    ensures var picked := OpenPass(files, queue, |queue|, ttyHeight, maxLinesToPrintPerFile).0;
      Distinct(picked) && forall x <- picked :: 0 <= x < |files| && files[x].isOpen
  {
    OpenPassAccounting(files, queue, |queue|, ttyHeight, maxLinesToPrintPerFile);
    assert queue[0..] == queue;
  }

  /** The closed pass takes only closed files, each once, from the list. */
  lemma {:induction false} ClosedPicksAreClosed(files: seq<File>, fileIndex: nat, bottom: int, spare: int)
    ensures var picked := ClosedPass(files, fileIndex, bottom, spare);
      Distinct(picked) && forall x <- picked :: 0 <= x < |files| && !files[x].isOpen
  {
    ClosedPassSound(files, fileIndex, bottom, spare);
  }

  predicate Ascending(xs: seq<int>) {
    forall i, j :: 0 <= i < j < |xs| ==> xs[i] < xs[j]
  }

  predicate IndicesBelow(xs: seq<int>, n: int) {
    forall x <- xs :: 0 <= x < n
  }

  /** Sorting a repeat-free list of indices below `n` gives a strictly
      ascending list of indices below `n`. */
  lemma {:induction false} SortedIndices(xs: seq<int>, n: int)
    requires forall x :: multiset(xs)[x] <= 1
    requires IndicesBelow(xs, n)
    ensures Ascending(SortBy(xs, IntKey)) && IndicesBelow(SortBy(xs, IntKey), n)
  {
    var ys := SortBy(xs, IntKey);
    MultiplicityDistinct(ys);
    forall y | y in ys ensures 0 <= y < n {
      assert y in multiset(ys);
      assert y in multiset(xs);
      assert y in xs;
    }
  }

  /** When the queue holds each open file once and only open files, the window
      lists every file at most once, in strictly ascending order, and only
      files of the list. */
  lemma {:induction false} WindowAscending(files: seq<File>, queue: seq<int>, top: nat, ttyHeight: int, maxLinesToPrintPerFile: int)
    requires InRange(queue, files) && Distinct(queue)
    requires forall j :: 0 <= j < |queue| ==> files[queue[j]].isOpen
    ensures Ascending(WindowOf(files, queue, top, ttyHeight, maxLinesToPrintPerFile))
    ensures IndicesBelow(WindowOf(files, queue, top, ttyHeight, maxLinesToPrintPerFile), |files|)
  {
    if |files| > 0 {
      var r := OpenPass(files, queue, |queue|, ttyHeight, maxLinesToPrintPerFile);
      var closed := ClosedPass(files, top, top + ttyHeight - 1, r.1);
      OpenPicksAreOpen(files, queue, ttyHeight, maxLinesToPrintPerFile);
      ClosedPicksAreClosed(files, top, top + ttyHeight - 1, r.1);
      DisjointJoinMultiplicity(r.0, closed);
      var both := r.0 + closed;
      forall x | x in both ensures 0 <= x < |files| {
        if x !in r.0 {
          assert x in closed;
        }
      }
      SortedIndices(both, |files|);
    }
  }

  /** The closed pass as intended: it stops once no row is left to spare,
      including when the only open file has already used more rows than the
      screen has. */
  function ClosedPassBounded(files: seq<File>, fileIndex: nat, bottom: int, spare: int): (picked: seq<int>)
    decreases |files| - fileIndex
    ensures |picked| <= if spare <= 0 then 0 else spare
    ensures forall x <- picked :: fileIndex <= x <= bottom && x < |files| && !files[x].isOpen
  {
    if fileIndex > bottom || |files| <= fileIndex || spare <= 0 then []
    else if !files[fileIndex].isOpen then [fileIndex] + ClosedPassBounded(files, fileIndex + 1, bottom, spare - 1)
    else ClosedPassBounded(files, fileIndex + 1, bottom, spare)
  }

  /** The window with the intended closed pass. */
  function BoundedWindowOf(files: seq<File>, queue: seq<int>, top: nat, ttyHeight: int, maxLinesToPrintPerFile: int): seq<int>
    requires InRange(queue, files)
  {
    if |files| == 0 then []
    else
      var openPass := OpenPass(files, queue, |queue|, ttyHeight, maxLinesToPrintPerFile);
      SortBy(openPass.0 + ClosedPassBounded(files, top, top + ttyHeight - 1, openPass.1), IntKey)
  }

  /** With the intended closed pass the window never takes more rows than
      the screen has below the search line, except for the one open file
      shown on its own when it alone is too tall; that file is then the
      whole window. */
  lemma {:induction false} BoundedWindowBudget(files: seq<File>, queue: seq<int>, top: nat, ttyHeight: int, maxLinesToPrintPerFile: int)
    requires InRange(queue, files) && |files| > 0 && ttyHeight >= 1
    ensures var r := OpenPass(files, queue, |queue|, ttyHeight, maxLinesToPrintPerFile);
      var closed := ClosedPassBounded(files, top, top + ttyHeight - 1, r.1);
      (r.1 >= 0 ==> InRange(r.0, files) && RowsOf(files, r.0, maxLinesToPrintPerFile) + |closed| <= ttyHeight - 1)
      && (r.1 < 0 ==> r.0 == queue && closed == [])
  {
    OpenPassAccounting(files, queue, |queue|, ttyHeight, maxLinesToPrintPerFile);
  }

  /** The window as written overruns the screen: one open file with five
      matched lines (seven rows) and one closed file, on a screen three rows
      high. The open file is shown on its own account, leaving -5 rows to
      spare, and the closed pass, which stops only at exactly zero, still
      adds the closed file: eight rows where two are available. The intended
      pass adds nothing. */
  lemma ClosedPassPastBottom()
    ensures var line := LineWithMatches(1, [Span(0, 1)], "a");
      var files := [File("a.txt", ["a"], [line, line, line, line, line], false, true),
                    File("b.txt", ["a"], [line], false, false)];
      var r := OpenPass(files, [0], 1, 3, 5);
      r == ([0], -5)
      && ClosedPass(files, 0, 2, r.1) == [1]
      && RowsOf(files, r.0, 5) + |ClosedPass(files, 0, 2, r.1)| > 3 - 1
      && ClosedPassBounded(files, 0, 2, r.1) == []
  {
    var line := LineWithMatches(1, [Span(0, 1)], "a");
    var files := [File("a.txt", ["a"], [line, line, line, line, line], false, true),
                  File("b.txt", ["a"], [line], false, false)];
    assert NumberOfLinesRendered(files[0], 5) == 7;
    assert OpenPass(files, [0], 0, 3, 5) == ([], 2);
    assert [0][|[0]| - 1] == 0;
    assert [] + [0] == [0];
    assert OpenPass(files, [0], 1, 3, 5) == ([0], -5);
    assert ClosedPass(files, 2, 2, -6) == [];
    assert ClosedPass(files, 1, 2, -5) == [1];
    assert ClosedPass(files, 0, 2, -5) == [1];
    assert [0][..0] == [];
    assert RowsOf(files, [0], 5) == 7;
  }

  function LineNoOf(line: LineWithMatches): int {
    line.lineNo
  }

  /** How many matched lines File.open prints: it stops once the count
      reaches the limit, so a limit below one never stops it. */
  function ShownCount(matched: nat, maxLinesToPrintPerFile: int): (n: nat)
    ensures n <= matched
    ensures 1 <= maxLinesToPrintPerFile ==> n == if matched < maxLinesToPrintPerFile then matched else maxLinesToPrintPerFile
    ensures maxLinesToPrintPerFile < 1 ==> n == matched
  {
    if 1 <= maxLinesToPrintPerFile < matched then maxLinesToPrintPerFile else matched
  }

  /** File.open: the matched lines in increasing line-number order, up to the
      limit. */
  method Open(file: File, maxLinesToPrintPerFile: int) returns (shown: seq<LineWithMatches>)
    ensures SortedBy(shown, LineNoOf)
    ensures |shown| == ShownCount(|file.linesWithMatches|, maxLinesToPrintPerFile)
    ensures shown == SortBy(file.linesWithMatches, LineNoOf)[..|shown|]
  {
    var linesWithMatches := SortBy(file.linesWithMatches, LineNoOf);
    shown := [];
    var numberOfLinesPrinted := 0;
    var i := 0;
    while i < |linesWithMatches|
      invariant 0 <= i <= |linesWithMatches| && numberOfLinesPrinted == i
      invariant shown == linesWithMatches[..i]
      invariant maxLinesToPrintPerFile >= 1 ==> i < maxLinesToPrintPerFile
    {
      shown := shown + [linesWithMatches[i]];
      numberOfLinesPrinted := numberOfLinesPrinted + 1;
      i := i + 1;
      assert shown == linesWithMatches[..i];
      if numberOfLinesPrinted == maxLinesToPrintPerFile {
        return;
      }
    }
  }

  /** A limit of at least one makes File.open print exactly the rows
      getNumberOfLinesRendered counts for the file, apart from the path line
      and the blank line under it. */
  lemma {:induction false} OpenedRowsMatchBudget(file: File, maxLinesToPrintPerFile: int)
    requires maxLinesToPrintPerFile >= 1
    ensures ShownCount(|file.linesWithMatches|, maxLinesToPrintPerFile) + 2
      == NumberOfLinesRendered(file, maxLinesToPrintPerFile)
  {
  }

  /** After a search a file's matched lines are already in line order, so
      File.open shows the first ones of the file. */
  lemma {:induction false} OpenShowsFirstMatches(lines: seq<string>, term: string)
    requires |term| > 0
    ensures SortBy(MatchedLines(lines, term), LineNoOf) == MatchedLines(lines, term)
  {
    MatchedLinesSound(lines, term);
    SortByOfSorted(MatchedLines(lines, term), LineNoOf);
  }
}
