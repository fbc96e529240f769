/** The search session of search.go, the earlier version of the tool: the
    same query editing and selection as debounce_grep.go, but without an
    open-file queue. C-space flips the selected file's shouldShowMatches
    flag (the `isOpen` field of File), and the window is the run of at most
    ttyHeight - 1 files from the one at the top. A closed file takes one
    row; an open file draws its matched lines below its path as well, rows
    that this count of files does not allow for. */
module EarlySession {
  import opened Text
  import opened Matcher
  import opened Session

  /** toggleSelectedMatchShouldShowMatches on values: `files` with the flag of
      file `i` flipped. */
  function ToggledAt(files: seq<File>, i: int): (r: seq<File>)
    requires 0 <= i < |files|
    ensures |r| == |files|
    ensures r[i].isOpen == !files[i].isOpen && r[i].(isOpen := files[i].isOpen) == files[i]
    ensures forall k :: 0 <= k < |files| && k != i ==> r[k] == files[k]
  {
    files[i := files[i].(isOpen := !files[i].isOpen)]
  }

  /** Pressing C-space twice on the same file gives back the files as they were. */
  lemma {:induction false} ToggledAtTwice(files: seq<File>, i: int)
    requires 0 <= i < |files|
    ensures |ToggledAt(files, i)| == |files| && ToggledAt(ToggledAt(files, i), i) == files
  {
    var twice := ToggledAt(ToggledAt(files, i), i);
    assert twice[i] == files[i];
    assert forall k :: 0 <= k < |files| ==> twice[k] == files[k];
  }

  /** The number of files renderSearchMatches visits: from index `top` up to
      `top + ttyHeight - 2`, stopping at the end of the list. */
  function WindowLength(count: nat, top: nat, ttyHeight: int): (n: nat)
    ensures n <= count && (n > 0 ==> top + n <= count)
    ensures n <= if ttyHeight >= 1 then ttyHeight - 1 else 0
    ensures ttyHeight >= 2 && top < count ==> n > 0
    ensures top + n == count || n == 0 || n == ttyHeight - 1
  {
    var last := if top + ttyHeight - 1 < count then top + ttyHeight - 1 else count;
    if last <= top then 0 else last - top
  }

  /** The copies renderSearchMatches renders: the files of the window, each
      marked selected exactly when its index is the selected one. */
  function VisibleCopies(files: seq<File>, top: nat, selected: int, ttyHeight: int): (shown: seq<File>)
    ensures |shown| == WindowLength(|files|, top, ttyHeight)
    ensures forall k :: 0 <= k < |shown| ==>
      top + k < |files|
      && shown[k].(isSelected := false) == files[top + k].(isSelected := false)
      && (shown[k].isSelected <==> top + k == selected)
  {
    var n := WindowLength(|files|, top, ttyHeight);
    seq(n, k requires 0 <= k < n => files[top + k].(isSelected := top + k == selected))
  }

  /** When the selected file lies in the window, it is shown, and it is the
      only file shown marked as selected. */
  lemma {:induction false} SelectedShownOnce(files: seq<File>, top: nat, selected: int, ttyHeight: int)
    requires top <= selected < |files| && selected <= top + ttyHeight - 2
    ensures var shown := VisibleCopies(files, top, selected, ttyHeight);
      selected - top < |shown| && shown[selected - top].isSelected
      && forall k :: 0 <= k < |shown| && shown[k].isSelected ==> k == selected - top
  {
    var shown := VisibleCopies(files, top, selected, ttyHeight);
    assert selected - top < WindowLength(|files|, top, ttyHeight);
  }

  class SearchManager {
    var cursorIndex: int
    var searchTerm: string
    var searchState: SearchState
    var selectedMatchIndex: int
    var filesToSearch: seq<File>
    var filesWithMatches: seq<File>
    var matchIndexAtTopOfWindow: int
    var cursorLineNo: int
    /** Rows of the terminal, read once at start-up. */
    const ttyHeight: int

    /** The cursor lies within the query; the selection names a found file
        and sits `cursorLineNo - 2` rows below the file at the top of the
        window, on screen. */
    predicate Valid()
      reads this
    {
      0 <= cursorIndex <= |searchTerm|
      && 0 <= matchIndexAtTopOfWindow
      && (filesWithMatches == [] ==> selectedMatchIndex == 0)
      && (filesWithMatches != [] ==>
            0 <= selectedMatchIndex < |filesWithMatches|
            && 2 <= cursorLineNo
            && selectedMatchIndex == matchIndexAtTopOfWindow + cursorLineNo - 2
            && (ttyHeight >= 2 ==> cursorLineNo <= ttyHeight))
    }

    /** NewSearchManager: an empty query in the typing state, nothing found.
        The candidates (path and contents) come from the file system walk,
        which is not modelled; Go's zero values give the window fields. */
    constructor (candidates: seq<(string, seq<string>)>, ttyHeight: int)
      ensures Valid()
      ensures cursorIndex == 0 && searchTerm == "" && searchState == TYPING && selectedMatchIndex == 0
      ensures |filesToSearch| == |candidates|
      ensures forall k :: 0 <= k < |candidates| ==>
        filesToSearch[k] == File(candidates[k].0, candidates[k].1, [], false, false)
      ensures filesWithMatches == []
      ensures matchIndexAtTopOfWindow == 0 && cursorLineNo == 0
      ensures this.ttyHeight == ttyHeight
    {
      cursorIndex := 0;
      selectedMatchIndex := 0;
      searchTerm := "";
      searchState := TYPING;
      filesToSearch := seq(|candidates|, k requires 0 <= k < |candidates| =>
        File(candidates[k].0, candidates[k].1, [], false, false));
      filesWithMatches := [];
      matchIndexAtTopOfWindow := 0;
      cursorLineNo := 0;
      this.ttyHeight := ttyHeight;
    }

    /** searchForMatches: the found files replace the old ones, and the
        selection and the window go back to the first file. The candidate
        loop of getFilesWithMatches is the one of debounce_grep.go; its
        result is taken here from its specification. */
    method SearchForMatches()
      requires Valid()
      modifies this
      ensures Valid()
      ensures filesWithMatches == FilesWithMatches(old(filesToSearch), searchTerm)
      ensures filesToSearch ==
        if |old(filesToSearch)| > 0 && |searchTerm| > 0 then SearchedCandidates(old(filesToSearch), searchTerm)
        else old(filesToSearch)
      ensures searchState == if filesWithMatches == [] then NEGATIVE else POSITIVE
      ensures selectedMatchIndex == 0 && matchIndexAtTopOfWindow == 0 && cursorLineNo == 2
      ensures cursorIndex == old(cursorIndex) && searchTerm == old(searchTerm)
    {
      filesWithMatches := FilesWithMatches(filesToSearch, searchTerm);
      if |filesToSearch| > 0 && |searchTerm| > 0 {
        filesToSearch := SearchedCandidates(filesToSearch, searchTerm);
      }
      if |filesWithMatches| == 0 {
        searchState := NEGATIVE;
        selectedMatchIndex := 0;
      } else {
        searchState := POSITIVE;
        selectedMatchIndex := 0;
      }
      matchIndexAtTopOfWindow := 0;
      cursorLineNo := 2;
    }

    /** toggleSelectedMatchShouldShowMatches: flips the selected file's flag
        and nothing else. Indexing past the found files panics in Go: ok is
        then false and the session is left as it was. */
    method ToggleSelectedMatchShouldShowMatches() returns (ok: bool)
      modifies this
      ensures ok <==> 0 <= old(selectedMatchIndex) < |old(filesWithMatches)|
      ensures filesWithMatches ==
        if ok then ToggledAt(old(filesWithMatches), old(selectedMatchIndex)) else old(filesWithMatches)
      ensures cursorIndex == old(cursorIndex) && searchTerm == old(searchTerm) && searchState == old(searchState)
      ensures selectedMatchIndex == old(selectedMatchIndex)
      ensures matchIndexAtTopOfWindow == old(matchIndexAtTopOfWindow) && cursorLineNo == old(cursorLineNo)
      ensures filesToSearch == old(filesToSearch)
    {
      if !(0 <= selectedMatchIndex < |filesWithMatches|) {
        return false;
      }
      filesWithMatches := filesWithMatches[selectedMatchIndex :=
        filesWithMatches[selectedMatchIndex].(isOpen := !filesWithMatches[selectedMatchIndex].isOpen)];
      ok := true;
    }

    /** The window loop of renderSearchMatches: the copies of the visited
        files with their selected mark set. The marks go on the copies only,
        so the session's own files keep theirs. */
    method RenderSearchMatches() returns (shown: seq<File>)
      requires Valid()
      ensures shown == VisibleCopies(filesWithMatches, matchIndexAtTopOfWindow, selectedMatchIndex, ttyHeight)
    {
      shown := [];
      if |filesWithMatches| > 0 {
        var index := matchIndexAtTopOfWindow;
        while index <= matchIndexAtTopOfWindow + ttyHeight - 2
          invariant matchIndexAtTopOfWindow <= index <= |filesWithMatches|
          invariant index <= matchIndexAtTopOfWindow + ttyHeight - 1 || index == matchIndexAtTopOfWindow
          invariant |shown| == index - matchIndexAtTopOfWindow
          invariant forall k :: 0 <= k < |shown| ==>
            shown[k] == filesWithMatches[matchIndexAtTopOfWindow + k].(isSelected := matchIndexAtTopOfWindow + k == selectedMatchIndex)
          decreases matchIndexAtTopOfWindow + ttyHeight - 1 - index
        {
          if |filesWithMatches| <= index {
            break;
          }
          var fileWithMatches := filesWithMatches[index];
          if index == selectedMatchIndex {
            fileWithMatches := fileWithMatches.(isSelected := true);
          } else {
            fileWithMatches := fileWithMatches.(isSelected := false);
          }
          shown := shown + [fileWithMatches];
          index := index + 1;
        }
      }
    }

    /** The cursor moves right one character; nothing else changes. */
    method IncrementCursorIndex()
      modifies this
      ensures cursorIndex == old(cursorIndex) + 1
      ensures searchTerm == old(searchTerm) && searchState == old(searchState)
      ensures selectedMatchIndex == old(selectedMatchIndex)
      ensures matchIndexAtTopOfWindow == old(matchIndexAtTopOfWindow) && cursorLineNo == old(cursorLineNo)
      ensures filesToSearch == old(filesToSearch) && filesWithMatches == old(filesWithMatches)
    {
      cursorIndex := cursorIndex + 1;
    }

    /** The cursor moves left one character; nothing else changes. */
    method DecrementCursorIndex()
      modifies this
      ensures cursorIndex == old(cursorIndex) - 1
      ensures searchTerm == old(searchTerm) && searchState == old(searchState)
      ensures selectedMatchIndex == old(selectedMatchIndex)
      ensures matchIndexAtTopOfWindow == old(matchIndexAtTopOfWindow) && cursorLineNo == old(cursorLineNo)
      ensures filesToSearch == old(filesToSearch) && filesWithMatches == old(filesWithMatches)
    {
      cursorIndex := cursorIndex - 1;
    }

    /** Backspace's edit: the character before the cursor goes. */
    method DeleteCharBackwards()
      requires 0 < cursorIndex <= |searchTerm|
      modifies this
      ensures searchTerm == DeleteAt(old(searchTerm), old(cursorIndex) - 1)
      ensures cursorIndex == old(cursorIndex) && searchState == old(searchState)
      ensures selectedMatchIndex == old(selectedMatchIndex)
      ensures matchIndexAtTopOfWindow == old(matchIndexAtTopOfWindow) && cursorLineNo == old(cursorLineNo)
      ensures filesToSearch == old(filesToSearch) && filesWithMatches == old(filesWithMatches)
    {
      searchTerm := searchTerm[0..cursorIndex - 1] + searchTerm[cursorIndex..];
    }

    /** C-d's edit: the character under the cursor goes. */
    method DeleteCharForwards()
      requires 0 <= cursorIndex < |searchTerm|
      modifies this
      ensures searchTerm == DeleteAt(old(searchTerm), old(cursorIndex))
      ensures cursorIndex == old(cursorIndex) && searchState == old(searchState)
      ensures selectedMatchIndex == old(selectedMatchIndex)
      ensures matchIndexAtTopOfWindow == old(matchIndexAtTopOfWindow) && cursorLineNo == old(cursorLineNo)
      ensures filesToSearch == old(filesToSearch) && filesWithMatches == old(filesWithMatches)
    {
      searchTerm := searchTerm[0..cursorIndex] + searchTerm[cursorIndex + 1..];
    }

    /** A typed character goes in at the cursor, which moves past it. */
    method AddCharToSearchTerm(c: char)
      requires 0 <= cursorIndex <= |searchTerm|
      modifies this
      ensures searchTerm == InsertAt(old(searchTerm), old(cursorIndex), c)
      ensures cursorIndex == old(cursorIndex) + 1 && searchState == old(searchState)
      ensures selectedMatchIndex == old(selectedMatchIndex)
      ensures matchIndexAtTopOfWindow == old(matchIndexAtTopOfWindow) && cursorLineNo == old(cursorLineNo)
      ensures filesToSearch == old(filesToSearch) && filesWithMatches == old(filesWithMatches)
    {
      searchTerm := searchTerm[..cursorIndex] + [c] + searchTerm[cursorIndex..];
      IncrementCursorIndex();
    }

    /** The selection moves down one file; the highlighted row follows it,
        and once it is on the last row the window scrolls instead. */
    method IncrementSelectedMatchIndex()
      modifies this
      ensures selectedMatchIndex == old(selectedMatchIndex) + 1
      ensures if old(cursorLineNo) == ttyHeight
        then matchIndexAtTopOfWindow == old(matchIndexAtTopOfWindow) + 1 && cursorLineNo == old(cursorLineNo)
        else matchIndexAtTopOfWindow == old(matchIndexAtTopOfWindow) && cursorLineNo == old(cursorLineNo) + 1
      ensures cursorIndex == old(cursorIndex) && searchTerm == old(searchTerm) && searchState == old(searchState)
      ensures filesToSearch == old(filesToSearch) && filesWithMatches == old(filesWithMatches)
    {
      selectedMatchIndex := selectedMatchIndex + 1;
      if cursorLineNo == ttyHeight {
        matchIndexAtTopOfWindow := matchIndexAtTopOfWindow + 1;
      } else {
        cursorLineNo := cursorLineNo + 1;
      }
    }

    /** The selection moves up one file; on the first match row (row 2) the
        window scrolls back instead. */
    method DecrementSelectedMatchIndex()
      modifies this
      ensures selectedMatchIndex == old(selectedMatchIndex) - 1
      ensures if old(cursorLineNo) == 2
        then matchIndexAtTopOfWindow == old(matchIndexAtTopOfWindow) - 1 && cursorLineNo == old(cursorLineNo)
        else matchIndexAtTopOfWindow == old(matchIndexAtTopOfWindow) && cursorLineNo == old(cursorLineNo) - 1
      ensures cursorIndex == old(cursorIndex) && searchTerm == old(searchTerm) && searchState == old(searchState)
      ensures filesToSearch == old(filesToSearch) && filesWithMatches == old(filesWithMatches)
    {
      selectedMatchIndex := selectedMatchIndex - 1;
      if cursorLineNo == 2 {
        matchIndexAtTopOfWindow := matchIndexAtTopOfWindow - 1;
      } else {
        cursorLineNo := cursorLineNo - 1;
      }
    }

    /** handleStdinCommands for the one byte read from the terminal. ok is
        false where Go panics: C-space with no found file. */
    method HandleStdinCommands(b: int) returns (ok: bool)
      requires 0 <= b < 256 && Valid()
      modifies this
      ensures Valid()
      // editing the query
      ensures 32 <= b <= 126 ==>
        searchTerm == InsertAt(old(searchTerm), old(cursorIndex), b as char)
        && cursorIndex == old(cursorIndex) + 1 && searchState == TYPING
      ensures b == 4 ==>
        if old(cursorIndex) < |old(searchTerm)|
        then searchTerm == DeleteAt(old(searchTerm), old(cursorIndex)) && cursorIndex == old(cursorIndex) && searchState == TYPING
        else searchTerm == old(searchTerm) && cursorIndex == old(cursorIndex) && searchState == old(searchState)
      ensures b == 127 ==>
        if old(cursorIndex) > 0
        then searchTerm == DeleteAt(old(searchTerm), old(cursorIndex) - 1) && cursorIndex == old(cursorIndex) - 1 && searchState == TYPING
        else searchTerm == old(searchTerm) && cursorIndex == old(cursorIndex) && searchState == old(searchState)
      ensures b == 6 ==>
        searchTerm == old(searchTerm) && searchState == old(searchState)
        && cursorIndex == if old(cursorIndex) < |old(searchTerm)| then old(cursorIndex) + 1 else old(cursorIndex)
      ensures b == 2 ==>
        searchTerm == old(searchTerm) && searchState == old(searchState)
        && cursorIndex == if old(cursorIndex) > 0 then old(cursorIndex) - 1 else old(cursorIndex)
      ensures !(32 <= b <= 126 || b == 4 || b == 127 || b == 6 || b == 2) ==>
        searchTerm == old(searchTerm) && cursorIndex == old(cursorIndex) && searchState == old(searchState)
      // moving the selection
      ensures b == 10 && old(selectedMatchIndex) < |old(filesWithMatches)| - 1 ==>
        selectedMatchIndex == old(selectedMatchIndex) + 1
        && if old(cursorLineNo) == ttyHeight
          then matchIndexAtTopOfWindow == old(matchIndexAtTopOfWindow) + 1 && cursorLineNo == old(cursorLineNo)
          else matchIndexAtTopOfWindow == old(matchIndexAtTopOfWindow) && cursorLineNo == old(cursorLineNo) + 1
      ensures b == 11 && old(selectedMatchIndex) > 0 ==>
        selectedMatchIndex == old(selectedMatchIndex) - 1
        && if old(cursorLineNo) == 2
          then matchIndexAtTopOfWindow == old(matchIndexAtTopOfWindow) - 1 && cursorLineNo == old(cursorLineNo)
          else matchIndexAtTopOfWindow == old(matchIndexAtTopOfWindow) && cursorLineNo == old(cursorLineNo) - 1
      ensures !(b == 10 && old(selectedMatchIndex) < |old(filesWithMatches)| - 1) && !(b == 11 && old(selectedMatchIndex) > 0) ==>
        selectedMatchIndex == old(selectedMatchIndex)
        && matchIndexAtTopOfWindow == old(matchIndexAtTopOfWindow) && cursorLineNo == old(cursorLineNo)
      // showing and hiding a file's matches
      ensures b == 0 ==>
        ok == (old(filesWithMatches) != [])
        && filesWithMatches == if ok then ToggledAt(old(filesWithMatches), old(selectedMatchIndex)) else old(filesWithMatches)
      ensures b != 0 ==> ok && filesWithMatches == old(filesWithMatches)
      ensures filesToSearch == old(filesToSearch)
    {
      ok := true;
      if 32 <= b <= 126 {
        AddCharToSearchTerm(b as char);
        searchState := TYPING;
      } else if b == 4 {
        if cursorIndex < |searchTerm| {
          DeleteCharForwards();
          searchState := TYPING;
        }
      } else if b == 127 {
        if cursorIndex > 0 {
          DeleteCharBackwards();
          DecrementCursorIndex();
          searchState := TYPING;
        }
      } else if b == 6 {
        if cursorIndex < |searchTerm| {
          IncrementCursorIndex();
        }
      } else if b == 2 {
        if cursorIndex > 0 {
          DecrementCursorIndex();
        }
      } else if b == 10 {
        if selectedMatchIndex < |filesWithMatches| - 1 {
          IncrementSelectedMatchIndex();
        }
      } else if b == 11 {
        if selectedMatchIndex > 0 {
          DecrementSelectedMatchIndex();
        }
      } else if b == 0 {
        ok := ToggleSelectedMatchShouldShowMatches();
      }
    }
  }

  /** In a valid session the window holds the selected file, and it is the one
      file rendered as selected. */
  lemma {:induction false} SelectionRenderedOnce(m: SearchManager)
    requires m.Valid() && m.filesWithMatches != [] && m.ttyHeight >= 2
    ensures var shown := VisibleCopies(m.filesWithMatches, m.matchIndexAtTopOfWindow, m.selectedMatchIndex, m.ttyHeight);
      var k := m.selectedMatchIndex - m.matchIndexAtTopOfWindow;
      0 <= k < |shown| && shown[k].isSelected
      && forall j :: 0 <= j < |shown| && shown[j].isSelected ==> j == k
  {
    SelectedShownOnce(m.filesWithMatches, m.matchIndexAtTopOfWindow, m.selectedMatchIndex, m.ttyHeight);
  }
}
