/** The search session of debounce_grep.go (SearchManager): the query being
    typed with its cursor, the files found by the last search, the selected
    file with the scroll position that follows it, and the queue of open
    files. Drawing on the terminal is not modelled; the key handler only
    updates the state. */
module Session {
  import opened Text
  import opened Matcher
  import opened Window
  import opened Queue

  /** The colour of the query: being typed, or the outcome of the last search. */
  datatype SearchState = TYPING | POSITIVE | NEGATIVE

  /** `s` with `c` inserted before position `k`. */
  function InsertAt(s: string, k: nat, c: char): (r: string)
    requires k <= |s|
    ensures |r| == |s| + 1 && r[k] == c
    ensures r[..k] == s[..k] && r[k + 1..] == s[k..]
  {
    s[..k] + [c] + s[k..]
  }

  /** `s` without the character at position `k`. */
  function DeleteAt(s: string, k: nat): (r: string)
    requires k < |s|
    ensures |r| == |s| - 1
    ensures r[..k] == s[..k] && r[k..] == s[k + 1..]
  {
    s[..k] + s[k + 1..]
  }

  /** Typing a character and deleting it again gives back the query. */
  lemma {:induction false} DeleteInserted(s: string, k: nat, c: char)
    requires k <= |s|
    ensures DeleteAt(InsertAt(s, k, c), k) == s
  {
    var r := DeleteAt(InsertAt(s, k, c), k);
    assert r == r[..k] + r[k..];
  }

  /** Deleting a character and typing it again gives back the query. */
  lemma {:induction false} InsertDeleted(s: string, k: nat)
    requires k < |s|
    ensures InsertAt(DeleteAt(s, k), k, s[k]) == s
  {
    var r := InsertAt(DeleteAt(s, k), k, s[k]);
    assert r == r[..k] + [r[k]] + r[k + 1..];
    assert s == s[..k] + [s[k]] + s[k + 1..];
  }

  /** The candidates after a search: each carries its matched lines. */
  function SearchedCandidates(files: seq<File>, term: string): (searched: seq<File>)
    requires |term| > 0
    ensures |searched| == |files|
    ensures forall k :: 0 <= k < |files| ==> searched[k] == WithMatchedLines(files[k], term)
  {
    seq(|files|, k requires 0 <= k < |files| => WithMatchedLines(files[k], term))
  }

  /** One more candidate searched, as getFilesWithMatches's loop does it. */
  lemma {:induction false} SearchedCandidatesStep(candidates: seq<File>, current: seq<File>, i: nat, term: string)
    requires |term| > 0 && i < |candidates|
    requires current == SearchedCandidates(candidates[..i], term) + candidates[i..]
    ensures current[i] == candidates[i]
    ensures current[i := WithMatchedLines(current[i], term)] == SearchedCandidates(candidates[..i + 1], term) + candidates[i + 1..]
    ensures FilesWithMatches(candidates[..i + 1], term)
      == FilesWithMatches(candidates[..i], term) + if HasMatch(candidates[i], term) then [WithMatchedLines(candidates[i], term)] else []
  {
    assert candidates[..i + 1][..i] == candidates[..i];
    var next := current[i := WithMatchedLines(current[i], term)];
    var want := SearchedCandidates(candidates[..i + 1], term) + candidates[i + 1..];
    assert |next| == |want|;
    forall k | 0 <= k < |next| ensures next[k] == want[k] {
      if k < i {
        assert next[k] == SearchedCandidates(candidates[..i], term)[k];
      } else if k > i {
        assert next[k] == candidates[i..][k - i];
      }
    }
  }

  /** A search over closed candidates finds only closed files. */
  lemma {:induction false} FoundFilesAreClosed(files: seq<File>, term: string)
    requires forall k :: 0 <= k < |files| ==> !files[k].isOpen
    ensures forall k :: 0 <= k < |FilesWithMatches(files, term)| ==> !FilesWithMatches(files, term)[k].isOpen
  {
    if |files| > 0 && |term| > 0 {
      var n := |files| - 1;
      FoundFilesAreClosed(files[..n], term);
    }
  }

  /** When no file is open, the only consistent queue is the empty one: a
      queue kept from an earlier search, whose files come back closed, no
      longer matches the open flags. */
  lemma {:induction false} ClosedFilesHaveEmptyQueue(files: seq<File>, queue: seq<int>)
    requires forall k :: 0 <= k < |files| ==> !files[k].isOpen
    ensures QueueConsistent(files, queue) <==> queue == []
  {
    if queue != [] {
      var x := queue[0];
      assert x in queue;
      if 0 <= x < |files| {
        assert !files[x].isOpen;
      }
    }
  }

  /** The queue kept from an earlier search breaks the session. With file 3
      open, a new search that finds two files leaves the queue at [3], and
      the very next redraw panics when the open pass looks file 3 up. When
      the same file comes back instead (the user opened file 0 and searched
      again), opening file 0 again and closing it makes Go panic. */
  lemma StaleQueuePanics(file: File, found: seq<File>, top: nat, ttyHeight: int, maxLinesToPrintPerFile: int)
    requires !file.isOpen && |found| == 2
    ensures RenderedWindow(found, [3], top, ttyHeight, maxLinesToPrintPerFile) == None
    ensures !QueueConsistent([file], [0])
    ensures ToggleSpec([file], [0], 0) == Some(([file.(isOpen := true)], [0, 0]))
    ensures ToggleSpec([file.(isOpen := true)], [0, 0], 0) == None
  {
    assert [3][0] == 3;
    assert 0 in [0] && ![file][0].isOpen;
    assert [file][0 := file.(isOpen := true)] == [file.(isOpen := true)];
    assert [0] + [0] == [0, 0];
    DuplicateEntryPanics();
  }

  class SearchManager {
    var cursorIndex: int
    var searchTerm: string
    var searchState: SearchState
    var selectedMatchIndex: int
    var filesToSearch: seq<File>
    var filesWithMatches: seq<File>
    var matchIndexAtTopOfWindow: int
    var cursorLineNo: int
    var openFileIndexQueue: seq<int>
    /** Rows of the terminal, read once at start-up. */
    const ttyHeight: int

    /** The cursor lies within the query; the selection names a found file
        and sits `cursorLineNo - 2` rows below the file at the top of the
        window, on screen; candidates are never open. */
    predicate Valid()
      reads this
    {
      0 <= cursorIndex <= |searchTerm|
      && (forall k :: 0 <= k < |filesToSearch| ==> !filesToSearch[k].isOpen)
      && (filesWithMatches == [] ==> selectedMatchIndex == 0)
      && (filesWithMatches != [] ==>
            0 <= selectedMatchIndex < |filesWithMatches|
            && 0 <= matchIndexAtTopOfWindow && 2 <= cursorLineNo
            && selectedMatchIndex == matchIndexAtTopOfWindow + cursorLineNo - 2
            && (ttyHeight >= 2 ==> cursorLineNo <= ttyHeight))
    }

    /** NewSearchManager: an empty query in the typing state, nothing found,
        nothing open. The candidates (path and contents) come from the file
        system walk, which is not modelled. */
    constructor (candidates: seq<(string, seq<string>)>, ttyHeight: int)
      ensures Valid()
      ensures cursorIndex == 0 && searchTerm == "" && searchState == TYPING && selectedMatchIndex == 0
      ensures |filesToSearch| == |candidates|
      ensures forall k :: 0 <= k < |candidates| ==>
        filesToSearch[k] == File(candidates[k].0, candidates[k].1, [], false, false)
      ensures filesWithMatches == [] && openFileIndexQueue == []
      ensures matchIndexAtTopOfWindow == 0 && cursorLineNo == 0
      ensures this.ttyHeight == ttyHeight
    {
      cursorIndex := 0;
      selectedMatchIndex := 0;
      searchTerm := "";
      searchState := TYPING;
      filesToSearch := seq(|candidates|, k requires 0 <= k < |candidates| =>
        File(candidates[k].0, candidates[k].1, [], false, false));
      filesWithMatches := [];
      matchIndexAtTopOfWindow := 0;
      cursorLineNo := 0;
      openFileIndexQueue := [];
      this.ttyHeight := ttyHeight;
    }

    method IncrementCursorIndex()
      modifies this
      ensures cursorIndex == old(cursorIndex) + 1
      ensures searchTerm == old(searchTerm) && searchState == old(searchState)
      ensures selectedMatchIndex == old(selectedMatchIndex)
      ensures matchIndexAtTopOfWindow == old(matchIndexAtTopOfWindow) && cursorLineNo == old(cursorLineNo)
      ensures filesToSearch == old(filesToSearch) && filesWithMatches == old(filesWithMatches)
      ensures openFileIndexQueue == old(openFileIndexQueue)
    {
      cursorIndex := cursorIndex + 1;
    }

    method DecrementCursorIndex()
      modifies this
      ensures cursorIndex == old(cursorIndex) - 1
      ensures searchTerm == old(searchTerm) && searchState == old(searchState)
      ensures selectedMatchIndex == old(selectedMatchIndex)
      ensures matchIndexAtTopOfWindow == old(matchIndexAtTopOfWindow) && cursorLineNo == old(cursorLineNo)
      ensures filesToSearch == old(filesToSearch) && filesWithMatches == old(filesWithMatches)
      ensures openFileIndexQueue == old(openFileIndexQueue)
    {
      cursorIndex := cursorIndex - 1;
    }

    /** Backspace's edit: the character before the cursor goes. */
    method DeleteCharBackwards()
      requires 0 < cursorIndex <= |searchTerm|
      modifies this
      ensures searchTerm == DeleteAt(old(searchTerm), old(cursorIndex) - 1)
      ensures cursorIndex == old(cursorIndex) && searchState == old(searchState)
      ensures selectedMatchIndex == old(selectedMatchIndex)
      ensures matchIndexAtTopOfWindow == old(matchIndexAtTopOfWindow) && cursorLineNo == old(cursorLineNo)
      ensures filesToSearch == old(filesToSearch) && filesWithMatches == old(filesWithMatches)
      ensures openFileIndexQueue == old(openFileIndexQueue)
    {
      searchTerm := searchTerm[0..cursorIndex - 1] + searchTerm[cursorIndex..];
    }

    /** C-d's edit: the character under the cursor goes. */
    method DeleteCharForwards()
      requires 0 <= cursorIndex < |searchTerm|
      modifies this
      ensures searchTerm == DeleteAt(old(searchTerm), old(cursorIndex))
      ensures cursorIndex == old(cursorIndex) && searchState == old(searchState)
      ensures selectedMatchIndex == old(selectedMatchIndex)
      ensures matchIndexAtTopOfWindow == old(matchIndexAtTopOfWindow) && cursorLineNo == old(cursorLineNo)
      ensures filesToSearch == old(filesToSearch) && filesWithMatches == old(filesWithMatches)
      ensures openFileIndexQueue == old(openFileIndexQueue)
    {
      searchTerm := searchTerm[0..cursorIndex] + searchTerm[cursorIndex + 1..];
    }

    /** A typed character goes in at the cursor, which moves past it. */
    method AddCharToSearchTerm(c: char)
      requires 0 <= cursorIndex <= |searchTerm|
      modifies this
      ensures searchTerm == InsertAt(old(searchTerm), old(cursorIndex), c)
      ensures cursorIndex == old(cursorIndex) + 1 && searchState == old(searchState)
      ensures selectedMatchIndex == old(selectedMatchIndex)
      ensures matchIndexAtTopOfWindow == old(matchIndexAtTopOfWindow) && cursorLineNo == old(cursorLineNo)
      ensures filesToSearch == old(filesToSearch) && filesWithMatches == old(filesWithMatches)
      ensures openFileIndexQueue == old(openFileIndexQueue)
    {
      searchTerm := searchTerm[..cursorIndex] + [c] + searchTerm[cursorIndex..];
      IncrementCursorIndex();
    }

    /** The selection moves down one file; the highlighted row follows it,
        and once it is on the last row the window scrolls instead. */
    method IncrementSelectedMatchIndex()
      modifies this
      ensures selectedMatchIndex == old(selectedMatchIndex) + 1
      ensures if old(cursorLineNo) == ttyHeight
        then matchIndexAtTopOfWindow == old(matchIndexAtTopOfWindow) + 1 && cursorLineNo == old(cursorLineNo)
        else matchIndexAtTopOfWindow == old(matchIndexAtTopOfWindow) && cursorLineNo == old(cursorLineNo) + 1
      ensures cursorIndex == old(cursorIndex) && searchTerm == old(searchTerm) && searchState == old(searchState)
      ensures filesToSearch == old(filesToSearch) && filesWithMatches == old(filesWithMatches)
      ensures openFileIndexQueue == old(openFileIndexQueue)
    {
      selectedMatchIndex := selectedMatchIndex + 1;
      if cursorLineNo == ttyHeight {
        matchIndexAtTopOfWindow := matchIndexAtTopOfWindow + 1;
      } else {
        cursorLineNo := cursorLineNo + 1;
      }
    }

    /** The selection moves up one file; on the first match row (row 2) the
        window scrolls back instead. */
    method DecrementSelectedMatchIndex()
      modifies this
      ensures selectedMatchIndex == old(selectedMatchIndex) - 1
      ensures if old(cursorLineNo) == 2
        then matchIndexAtTopOfWindow == old(matchIndexAtTopOfWindow) - 1 && cursorLineNo == old(cursorLineNo)
        else matchIndexAtTopOfWindow == old(matchIndexAtTopOfWindow) && cursorLineNo == old(cursorLineNo) - 1
      ensures cursorIndex == old(cursorIndex) && searchTerm == old(searchTerm) && searchState == old(searchState)
      ensures filesToSearch == old(filesToSearch) && filesWithMatches == old(filesWithMatches)
      ensures openFileIndexQueue == old(openFileIndexQueue)
    {
      selectedMatchIndex := selectedMatchIndex - 1;
      if cursorLineNo == 2 {
        matchIndexAtTopOfWindow := matchIndexAtTopOfWindow - 1;
      } else {
        cursorLineNo := cursorLineNo - 1;
      }
    }

    /** toggleIfMatchIsOpen: flips the file's open flag and appends it to the
        queue or runs the removal loop over the queue. When the loop would
        panic, ok is false and the session is left as it was. */
    method ToggleIfMatchIsOpen(fileToToggleIndex: int) returns (ok: bool)
      requires 0 <= fileToToggleIndex < |filesWithMatches|
      modifies this
      ensures var r := ToggleSpec(old(filesWithMatches), old(openFileIndexQueue), fileToToggleIndex);
        ok == r.Some?
        && (ok ==> filesWithMatches == r.value.0 && openFileIndexQueue == r.value.1)
        && (!ok ==> filesWithMatches == old(filesWithMatches) && openFileIndexQueue == old(openFileIndexQueue))
      ensures cursorIndex == old(cursorIndex) && searchTerm == old(searchTerm) && searchState == old(searchState)
      ensures selectedMatchIndex == old(selectedMatchIndex)
      ensures matchIndexAtTopOfWindow == old(matchIndexAtTopOfWindow) && cursorLineNo == old(cursorLineNo)
      ensures filesToSearch == old(filesToSearch)
    {
      var isNowOpen := !filesWithMatches[fileToToggleIndex].isOpen;
      var toggled := filesWithMatches[fileToToggleIndex := filesWithMatches[fileToToggleIndex].(isOpen := isNowOpen)];
      if isNowOpen {
        filesWithMatches := toggled;
        openFileIndexQueue := openFileIndexQueue + [fileToToggleIndex];
        return true;
      }
      var backing := openFileIndexQueue;
      var length: nat := |backing|;
      var loopIndex := 0;
      while loopIndex < |backing|
        invariant 0 <= loopIndex <= |backing| == |openFileIndexQueue| && length <= |backing|
        invariant RemoveLoop(backing, length, fileToToggleIndex, loopIndex)
          == RemoveFromQueue(openFileIndexQueue, fileToToggleIndex)
      {
        if backing[loopIndex] == fileToToggleIndex {
          if loopIndex + 1 > length {
            return false;
          }
          backing := backing[..loopIndex] + backing[loopIndex + 1..length] + backing[length - 1..];
          length := length - 1;
        }
        loopIndex := loopIndex + 1;
      }
      filesWithMatches := toggled;
      openFileIndexQueue := backing[..length];
      ok := true;
    }

    /** getFilesWithMatches: every candidate is searched and takes its matched
        lines; those with at least one are returned in candidate order. An
        empty query or an empty candidate list finds nothing and searches
        nothing. */
    method GetFilesWithMatches(searchTerm: string) returns (found: seq<File>)
      modifies this
      ensures found == FilesWithMatches(old(filesToSearch), searchTerm)
      ensures filesToSearch ==
        if |old(filesToSearch)| > 0 && |searchTerm| > 0 then SearchedCandidates(old(filesToSearch), searchTerm)
        else old(filesToSearch)
      ensures cursorIndex == old(cursorIndex) && this.searchTerm == old(this.searchTerm) && searchState == old(searchState)
      ensures selectedMatchIndex == old(selectedMatchIndex)
      ensures matchIndexAtTopOfWindow == old(matchIndexAtTopOfWindow) && cursorLineNo == old(cursorLineNo)
      ensures filesWithMatches == old(filesWithMatches) && openFileIndexQueue == old(openFileIndexQueue)
    {
      if |filesToSearch| == 0 || |searchTerm| == 0 {
        return [];
      }
      var candidates := filesToSearch;
      found := [];
      var i := 0;
      while i < |filesToSearch|
        invariant |filesToSearch| == |candidates| && 0 <= i <= |candidates|
        invariant filesToSearch == SearchedCandidates(candidates[..i], searchTerm) + candidates[i..]
        invariant found == FilesWithMatches(candidates[..i], searchTerm)
        invariant cursorIndex == old(cursorIndex) && this.searchTerm == old(this.searchTerm) && searchState == old(searchState)
        invariant selectedMatchIndex == old(selectedMatchIndex)
        invariant matchIndexAtTopOfWindow == old(matchIndexAtTopOfWindow) && cursorLineNo == old(cursorLineNo)
        invariant filesWithMatches == old(filesWithMatches) && openFileIndexQueue == old(openFileIndexQueue)
      {
        SearchedCandidatesStep(candidates, filesToSearch, i, searchTerm);
        var linesWithMatches := GetLinesWithMatches(filesToSearch[i].lines, searchTerm);
        filesToSearch := filesToSearch[i := filesToSearch[i].(linesWithMatches := linesWithMatches)];
        if |filesToSearch[i].linesWithMatches| > 0 {
          found := found + [filesToSearch[i]];
        }
        i := i + 1;
      }
      assert candidates[..i] == candidates;
    }

    /** searchForMatches as written: the found files replace the old ones and
        the selection and window go back to the first file, but the open-file
        queue of the earlier search is kept. */
    method SearchForMatchesAsWritten()
      requires Valid()
      modifies this
      ensures Valid()
      ensures filesWithMatches == FilesWithMatches(old(filesToSearch), searchTerm)
      ensures forall k :: 0 <= k < |filesWithMatches| ==> !filesWithMatches[k].isOpen
      ensures searchState == if filesWithMatches == [] then NEGATIVE else POSITIVE
      ensures selectedMatchIndex == 0 && matchIndexAtTopOfWindow == 0 && cursorLineNo == 2
      ensures openFileIndexQueue == old(openFileIndexQueue)
      ensures filesToSearch ==
        if |old(filesToSearch)| > 0 && |searchTerm| > 0 then SearchedCandidates(old(filesToSearch), searchTerm)
        else old(filesToSearch)
      ensures cursorIndex == old(cursorIndex) && searchTerm == old(searchTerm)
    {
      FoundFilesAreClosed(filesToSearch, searchTerm);
      filesWithMatches := GetFilesWithMatches(searchTerm);
      if |filesWithMatches| == 0 {
        searchState := NEGATIVE;
        selectedMatchIndex := 0;
      } else {
        searchState := POSITIVE;
        selectedMatchIndex := 0;
      }
      matchIndexAtTopOfWindow := 0;
      cursorLineNo := 2;
    }

    /** searchForMatches with the open-file queue emptied along with the old
        files, so the queue again names exactly the open files. */
    method SearchForMatches()
      requires Valid()
      modifies this
      ensures Valid() && QueueConsistent(filesWithMatches, openFileIndexQueue)
      ensures filesWithMatches == FilesWithMatches(old(filesToSearch), searchTerm)
      ensures forall k :: 0 <= k < |filesWithMatches| ==> !filesWithMatches[k].isOpen
      ensures searchState == if filesWithMatches == [] then NEGATIVE else POSITIVE
      ensures selectedMatchIndex == 0 && matchIndexAtTopOfWindow == 0 && cursorLineNo == 2
      ensures openFileIndexQueue == []
      ensures filesToSearch ==
        if |old(filesToSearch)| > 0 && |searchTerm| > 0 then SearchedCandidates(old(filesToSearch), searchTerm)
        else old(filesToSearch)
      ensures cursorIndex == old(cursorIndex) && searchTerm == old(searchTerm)
    {
      SearchForMatchesAsWritten();
      openFileIndexQueue := [];
      ClosedFilesHaveEmptyQueue(filesWithMatches, openFileIndexQueue);
    }

    /** handleStdinCommands for one byte read from the terminal. ok is false
        where Go panics: C-space with no found file, or a removal past the
        end of the queue. */
    method HandleStdinCommands(b: int) returns (ok: bool)
      requires 0 <= b < 256 && Valid()
      modifies this
      ensures Valid()
      ensures ok && old(QueueConsistent(filesWithMatches, openFileIndexQueue))
        ==> QueueConsistent(filesWithMatches, openFileIndexQueue)
      // editing the query
      ensures 32 <= b <= 126 ==>
        searchTerm == InsertAt(old(searchTerm), old(cursorIndex), b as char)
        && cursorIndex == old(cursorIndex) + 1 && searchState == TYPING
      ensures b == 4 ==>
        if old(cursorIndex) < |old(searchTerm)|
        then searchTerm == DeleteAt(old(searchTerm), old(cursorIndex)) && cursorIndex == old(cursorIndex) && searchState == TYPING
        else searchTerm == old(searchTerm) && cursorIndex == old(cursorIndex) && searchState == old(searchState)
      ensures b == 127 ==>
        if old(cursorIndex) > 0
        then searchTerm == DeleteAt(old(searchTerm), old(cursorIndex) - 1) && cursorIndex == old(cursorIndex) - 1 && searchState == TYPING
        else searchTerm == old(searchTerm) && cursorIndex == old(cursorIndex) && searchState == old(searchState)
      ensures b == 6 ==>
        searchTerm == old(searchTerm) && searchState == old(searchState)
        && cursorIndex == if old(cursorIndex) < |old(searchTerm)| then old(cursorIndex) + 1 else old(cursorIndex)
      ensures b == 2 ==>
        searchTerm == old(searchTerm) && searchState == old(searchState)
        && cursorIndex == if old(cursorIndex) > 0 then old(cursorIndex) - 1 else old(cursorIndex)
      ensures !(32 <= b <= 126 || b == 4 || b == 127 || b == 6 || b == 2) ==>
        searchTerm == old(searchTerm) && cursorIndex == old(cursorIndex) && searchState == old(searchState)
      // moving the selection
      ensures b == 10 && old(selectedMatchIndex) < |old(filesWithMatches)| - 1 ==>
        selectedMatchIndex == old(selectedMatchIndex) + 1
        && if old(cursorLineNo) == ttyHeight
          then matchIndexAtTopOfWindow == old(matchIndexAtTopOfWindow) + 1 && cursorLineNo == old(cursorLineNo)
          else matchIndexAtTopOfWindow == old(matchIndexAtTopOfWindow) && cursorLineNo == old(cursorLineNo) + 1
      ensures b == 11 && old(selectedMatchIndex) > 0 ==>
        selectedMatchIndex == old(selectedMatchIndex) - 1
        && if old(cursorLineNo) == 2
          then matchIndexAtTopOfWindow == old(matchIndexAtTopOfWindow) - 1 && cursorLineNo == old(cursorLineNo)
          else matchIndexAtTopOfWindow == old(matchIndexAtTopOfWindow) && cursorLineNo == old(cursorLineNo) - 1
      ensures !(b == 10 && old(selectedMatchIndex) < |old(filesWithMatches)| - 1) && !(b == 11 && old(selectedMatchIndex) > 0) ==>
        selectedMatchIndex == old(selectedMatchIndex)
        && matchIndexAtTopOfWindow == old(matchIndexAtTopOfWindow) && cursorLineNo == old(cursorLineNo)
      // opening and closing files
      ensures b == 0 ==>
        if old(filesWithMatches) == [] then !ok && filesWithMatches == old(filesWithMatches) && openFileIndexQueue == old(openFileIndexQueue)
        else var r := ToggleSpec(old(filesWithMatches), old(openFileIndexQueue), old(selectedMatchIndex));
          ok == r.Some?
          && (ok ==> filesWithMatches == r.value.0 && openFileIndexQueue == r.value.1)
          && (!ok ==> filesWithMatches == old(filesWithMatches) && openFileIndexQueue == old(openFileIndexQueue))
      ensures b != 0 ==> ok && filesWithMatches == old(filesWithMatches) && openFileIndexQueue == old(openFileIndexQueue)
      ensures filesToSearch == old(filesToSearch)
    {
      ok := true;
      if 32 <= b <= 126 {
        AddCharToSearchTerm(b as char);
        searchState := TYPING;
      } else if b == 4 {
        if cursorIndex < |searchTerm| {
          DeleteCharForwards();
          searchState := TYPING;
        }
      } else if b == 127 {
        if cursorIndex > 0 {
          DeleteCharBackwards();
          DecrementCursorIndex();
          searchState := TYPING;
        }
      } else if b == 6 {
        if cursorIndex < |searchTerm| {
          IncrementCursorIndex();
        }
      } else if b == 2 {
        if cursorIndex > 0 {
          DecrementCursorIndex();
        }
      } else if b == 10 {
        if selectedMatchIndex < |filesWithMatches| - 1 {
          IncrementSelectedMatchIndex();
        }
      } else if b == 11 {
        if selectedMatchIndex > 0 {
          DecrementSelectedMatchIndex();
        }
      } else if b == 0 {
        var matchIndexToToggle := selectedMatchIndex;
        if |filesWithMatches| == 0 {
          // filesWithMatches[0] is out of range
          return false;
        }
        ghost var before := QueueConsistent(filesWithMatches, openFileIndexQueue);
        if before {
          ToggleKeepsQueueConsistent(filesWithMatches, openFileIndexQueue, matchIndexToToggle);
        }
        ok := ToggleIfMatchIsOpen(matchIndexToToggle);
      }
    }
  }

  /** The selected file is always on screen: it lies between the file at the
      top of the window and the last match row. */
  lemma SelectionOnScreen(m: SearchManager)
    requires m.Valid() && m.filesWithMatches != [] && m.ttyHeight >= 2
    ensures m.matchIndexAtTopOfWindow <= m.selectedMatchIndex <= m.matchIndexAtTopOfWindow + m.ttyHeight - 2
  {
  }
}
