# debounce_grep, modelled in Dafny

debounce_grep is an interactive terminal grep. The user types a search term.
After a short pause the tool searches every candidate file for the term and
lists the files with matching lines. C-j and C-k move a selection through
the list. C-space opens the selected file, or closes it again. An open file
shows its matched lines under its path, with every match highlighted in
yellow. A line is either truncated around its first match or wrapped over
several rows, so that it fits the terminal width.

The project models two versions of the program:

- `debounce_grep/debounce_grep.go`, the current one. It is modelled by the
  modules `Text`, `Matcher`, `Layout`, `Sorting`, `Window`, `Queue` and
  `Session`.
- `search.go`, the earlier one. It is modelled by `EarlyLayout` and
  `EarlySession`, which reuse the shared modules.

The modules cover these parts:

- **Text**: entities, the width of an entity without its colour markers,
  splitting on spaces, and inserting the markers.
- **Matcher**: which lines of a file hold the term, and where.
- **Layout**: the current layout of a matched line. The overflow test
  measures only the row after the last line break. The line is wrapped
  whole, or truncated by growing around the first matched word.
- **Window**: which files fill the screen (the open files first, then the
  closed files from the top of the window), how many rows each file takes,
  and which lines an open file shows.
- **Queue** and **Session**: the SearchManager as a class. Its methods
  update its fields. They cover editing the term, moving the selection,
  toggling a file, the open-file queue, searching, and the key handler.
- **EarlyLayout**: the earlier layout. Match pairs are popped off a Go
  slice whose backing array is shared; it is modelled as an array. At most
  three words are shown before the first match. The overflow test sums the
  whole line. Truncation trims from the end.
- **EarlySession**: the earlier session. It has no queue. C-space flips
  `shouldShowMatches`. The window visits at most `ttyHeight - 1` files from
  the one at the top. A closed file takes one row. An open file also draws
  its matched lines under its path, and the file count does not allow for
  those rows.

Modelling choices:

- A Go panic that the session can reach becomes an explicit failure value:
  `None`, or an `ok` result that is false. A precondition only states what
  every caller in the program already guarantees (a guard before the call,
  or an invariant such as the queue naming files of the list for the
  specification functions of the window).
- A state-changing method with a failure result leaves the state as it was
  when the result is the failure.
- Text is ASCII, so one `char` is one byte.
- The two marker strings are the SGR control sequences "yellow foreground"
  and "reset" of ECMA-48, section 8.3.117.

## Model

| member | source | states |
|---|---|---|
| Text.RoomForText | debounce_grep/debounce_grep.go:379 | the room for text is the terminal width less 8: one column, the two 3-column indents and the scroll bar |
| Text.FindFrom | debounce_grep/debounce_grep.go:159 | the first occurrence at or after `from`; no earlier occurrence exists; None exactly when there is none |
| Text.RemoveFirst | debounce_grep/debounce_grep.go:397-398 | strings.Replace with count 1: the first occurrence is cut out and the length drops by its length; the string is unchanged when there is none |
| Text.LengthOfEntity | debounce_grep/debounce_grep.go:395-401 | the width is the byte length less one yellow marker and one cancel marker, each counted only if present; never more than the length; search.go:379-386 has the same code |
| Text.LengthOfPlainEntity | debounce_grep/debounce_grep.go:395-401 | text without an escape byte is as wide as it is long |
| Text.LengthOfHighlightedWord | debounce_grep/debounce_grep.go:395-401 | a word wrapped in both markers is exactly as wide as the bare word |
| Text.SumLengthsAppend | debounce_grep/debounce_grep.go:388-391 | the summed width of two lists together is the sum of their widths |
| Text.Split | debounce_grep/debounce_grep.go:224 | strings.Split on a space gives at least one piece, and no piece holds a space |
| Text.JoinSplit | debounce_grep/debounce_grep.go:224 | joining the pieces with single spaces gives back the split string |
| Text.SplitJoin | debounce_grep/debounce_grep.go:224 | splitting undoes joining when no word holds a space |
| Text.Spaced | debounce_grep/debounce_grep.go:255-260 | the whole-line entity list has 2n-1 entities, starting with the first word and ending with the last |
| Text.SumLengthsSpaced | debounce_grep/debounce_grep.go:255-261 | the whole line is as wide as its words plus one column per separating space |
| Text.WordsWithColorCodes | debounce_grep/debounce_grep.go:203-227 | the marked-up line yields at least one word, and no word holds a space |
| Text.HighlightFrom | debounce_grep/debounce_grep.go:208-223 | definition: from byte `i` on, the yellow marker goes before the byte where the pair being looked for starts and the cancel marker after the byte where it ends, and the next pair is then looked for; Text.StripHighlightFrom proves that removing the markers gives the bytes back |
| Text.Highlight | debounce_grep/debounce_grep.go:203-223 | definition: the marked-up line, starting with the first pair, which is read whatever the line holds; Layout.InsertColorCodes proves the byte loop computes it |
| Text.StripHighlightFrom | debounce_grep/debounce_grep.go:208-223 | removing the markers from the marked-up rest of a line gives back that rest of the line |
| Text.StripWordsRoundTrip | debounce_grep/debounce_grep.go:203-227 | stripping the markers from every word and joining with spaces gives back the original line |
| Matcher.MatchSpansFrom | debounce_grep/debounce_grep.go:160-162 | the reported pairs are occurrences of the term, in order and non-overlapping; there are none exactly when the term does not occur |
| Matcher.MatchSpansOfContainingLine | debounce_grep/debounce_grep.go:159-162 | a line contains the term exactly when it gets at least one match pair |
| Matcher.MatchedLinesSound | debounce_grep/debounce_grep.go:155-169 | every matched line is the line of its number, contains the term and carries its pairs; line numbers strictly increase |
| Matcher.MatchedLinesComplete | debounce_grep/debounce_grep.go:155-169 | line k+1 is reported exactly when line k contains the term |
| Matcher.GetLinesWithMatches | debounce_grep/debounce_grep.go:155-169 | the scan over the file's lines returns exactly the matched lines, numbered from 1; search.go:249-263 has the same code |
| Matcher.FilesWithMatchesSpec | debounce_grep/debounce_grep.go:508-521 | an empty term finds nothing; every kept file carries its matched lines and has at least one; every file with a match is kept |
| Matcher.FilesWithMatchesFromCandidates | debounce_grep/debounce_grep.go:508-521 | every kept file is a candidate with a match, otherwise unchanged |
| Layout.ContentSpaced | debounce_grep/debounce_grep.go:255-260 | the whole-line entity list holds exactly the words, in order |
| Layout.LastLineBreakIndex | debounce_grep/debounce_grep.go:381-387 | the index found holds a line break and no later entity does; it is -1 when there is none |
| Layout.RowWidthAfterLastBreak | debounce_grep/debounce_grep.go:378-392 | the measured width is the sum over the slice after the last line break |
| Layout.RowWidthWithoutBreaks | debounce_grep/debounce_grep.go:389-391 | without a line break the whole list is measured |
| Layout.WillHitEndOfTtyWithoutBreaks | debounce_grep/debounce_grep.go:373-393 | for a non-empty list without breaks, the test is the entity's width plus the list's width against the room |
| Layout.WillHitEndOfTtyAfterBreak | debounce_grep/debounce_grep.go:381-391 | entities before the last line break do not count |
| Layout.WillHitEndOfTtyBeforeEllipsis | debounce_grep/debounce_grep.go:290 | the first matched word hits the end before a lone ellipsis exactly when its width plus 3 passes the room |
| Layout.WillHitEndOfTty | debounce_grep/debounce_grep.go:373-393 | definition of entityWillHitEndOfTty: false for an empty list, otherwise the entity plus the row being filled passes the room; Layout.RowWidthAfterLastBreak and Layout.WillHitEndOfTtyAfterBreak prove that the row is the slice after the last line break |
| Layout.RemoveSpacesOnEnds | debounce_grep/debounce_grep.go:241-249 | one leading and one trailing space entity are dropped and nothing else; the words are kept |
| Layout.WordsWithColorCodesArePlain | debounce_grep/debounce_grep.go:224 | the words of a line without a line feed hold neither a space nor a line feed |
| Layout.HighlightAdvance | debounce_grep/debounce_grep.go:208-222 | one turn of the marker loop adds the byte with its markers and moves to the next pair when a match ends |
| Layout.InsertColorCodes | debounce_grep/debounce_grep.go:203-223 | the byte loop that reads the pairs by index builds the highlighted line: each matched byte range is wrapped in one yellow and one cancel marker |
| Layout.GetWordsWithColorCodes | debounce_grep/debounce_grep.go:203-227 | the loop that reads the pairs by index yields the words of the marked-up line, which strip back to the line |
| Layout.Wrapped | debounce_grep/debounce_grep.go:357-371 | the wrapped list is empty exactly for no words; otherwise it starts with the first word and ends with a space |
| Layout.WrappedContent | debounce_grep/debounce_grep.go:357-371 | wrapping keeps every word, in order, and adds only separators |
| Layout.RowsLast | debounce_grep/debounce_grep.go:381-391 | the row the overflow test measures is the last row of the list |
| Layout.RowsAppendBreak | debounce_grep/debounce_grep.go:362-365 | a line break opens a new last row |
| Layout.WrapStep | debounce_grep/debounce_grep.go:359-369 | definition of one turn of the word loop: when the word would pass the room, the row is trimmed and a line break, indent and gutter open a new one; then the word and a space; Layout.SameRowFits and Layout.NewRowFits prove that every row still fits |
| Layout.SameRowFits | debounce_grep/debounce_grep.go:367-368 | a word that passes the test joins the current row, and all rows still fit |
| Layout.NewRowFits | debounce_grep/debounce_grep.go:360-366 | a word that fails the test closes the row without its trailing space, and all rows still fit |
| Layout.TrimmedRowsFit | debounce_grep/debounce_grep.go:362-363 | dropping the trailing space before a line break keeps every row within the room |
| Layout.WrappedRowsFit | debounce_grep/debounce_grep.go:357-371 | every row of a wrapped line fits the room, counting the space after its last word, unless it holds a single too-wide word |
| Layout.InsertLineBreaksAndBuffers | debounce_grep/debounce_grep.go:357-371 | the loop builds the wrapped list: the same words, in order, every row fitting |
| Layout.IndexOfFirstCancel | debounce_grep/debounce_grep.go:280-287 | the first word at or after `from` that holds a cancel marker; no earlier one holds it |
| Layout.FirstMatchedWordIndex | debounce_grep/debounce_grep.go:280-288 | the index is a word of the line: the first that holds a cancel marker, or 0 when none does |
| Layout.FindFirstMatchedWord | debounce_grep/debounce_grep.go:280-287 | the search loop stops at the first word holding a cancel marker, or leaves Go's zero value |
| Layout.FullRunOverflows | debounce_grep/debounce_grep.go:261-266 | when the whole line does not fit, the whole line with an ellipsis does not fit either |
| Layout.GrownAtStart | debounce_grep/debounce_grep.go:290-296 | the growth loop starts from the first matched word and the ellipsis, which fit the room and are not the whole line |
| Layout.GrowLeftStep | debounce_grep/debounce_grep.go:305-317 | adding a space or the next word on the left keeps a run of consecutive words that fits |
| Layout.GrowRightStep | debounce_grep/debounce_grep.go:318-345 | adding a space or the next word just before the ellipsis keeps a run of consecutive words that fits |
| Layout.GrownIsNotWholeLine | debounce_grep/debounce_grep.go:304-347 | a grown list that fits never holds the whole line, so there is always a word left to add |
| Layout.GrowAroundFirstMatch | debounce_grep/debounce_grep.go:296-347 | the loop ends with exactly the entities of Layout.FinalGrowth: it adds, in turn on the left and on the right, a space and then a word, and stops at the first one that would pass the room for text |
| Layout.GrowFrom | debounce_grep/debounce_grep.go:296-347 | definition of the growth loop on its own variables: an exhausted side passes the turn; otherwise a space, or the next word once the space is there, is added on the side whose turn it is, and the loop stops at the first one that passes the room; the loop bounds hold of the result |
| Layout.FinalGrowth | debounce_grep/debounce_grep.go:296-347 | definition of where the loop stops from its start: the first matched word and the ellipsis, the left side first, a space needed on both sides |
| Layout.LeftSpaceTurn | debounce_grep/debounce_grep.go:305-339 | a turn on the left that needs a space stops when the space would pass the room, and otherwise goes on from the state with the space in front and the turn on the right |
| Layout.LeftWordTurn | debounce_grep/debounce_grep.go:305-339 | a turn on the left with the space in place stops when the next word would pass the room, and otherwise goes on with that word in front, one index further left |
| Layout.RightSpaceTurn | debounce_grep/debounce_grep.go:318-345 | a turn on the right that needs a space stops when it would pass the room, and otherwise puts the space before the ellipsis and gives the turn to the left |
| Layout.RightWordTurn | debounce_grep/debounce_grep.go:318-345 | a turn on the right with the space in place stops when the next word would pass the room, and otherwise puts that word before the ellipsis, one index further right |
| Layout.PassTurn | debounce_grep/debounce_grep.go:305-321 | a side with no word left passes the turn to the other side without changing anything else |
| Layout.GrowthStops | debounce_grep/debounce_grep.go:296-347 | the loop stops only where the next entity on the side whose turn it is passes the room, or where both sides are exhausted |
| Layout.GrowWidens | debounce_grep/debounce_grep.go:296-347 | the loop only widens the run: its left index never grows and its right index never shrinks |
| Layout.GrowthEnds | debounce_grep/debounce_grep.go:296-347 | from a state that fits and is not the whole line, the loop ends in such a state |
| Layout.StepLeftFits | debounce_grep/debounce_grep.go:305-339 | adding the next space or word on the left, when it does not pass the room, keeps a fitting run that is not the whole line |
| Layout.StepRightFits | debounce_grep/debounce_grep.go:318-345 | adding the next space or word before the ellipsis, when it does not pass the room, keeps a fitting run that is not the whole line |
| Layout.FinalGrowthFits | debounce_grep/debounce_grep.go:290-347 | when the line overflows and the first matched word fits with the ellipsis, the loop ends with entities that fit and are not the whole line |
| Layout.FinalGrowthStops | debounce_grep/debounce_grep.go:332-336 | the loop ends because the next entity on the side whose turn it is would pass the room; both sides are never exhausted |
| Layout.FinalIsNotWholeLine | debounce_grep/debounce_grep.go:296-347 | the state the loop ends in never holds the whole line |
| Layout.GrownRun | debounce_grep/debounce_grep.go:296-353 | a state that fits, with its pending spaces dropped, is the spaced run of words it took in and the ellipsis, within the room, around the first matched word |
| Layout.TruncatedAroundRuns | debounce_grep/debounce_grep.go:290-353 | the truncated line is a spaced run of consecutive words around the first matched word, then the ellipsis, within the room |
| Layout.TruncatedAroundShape | debounce_grep/debounce_grep.go:290-353 | the truncated line ends in the ellipsis, and its words without the spaces are a slice of the line holding the first matched word |
| Layout.FittingRunShape | debounce_grep/debounce_grep.go:296-353 | a fitting run ends in the ellipsis, and its words without the spaces are a slice of the line around the word |
| Layout.TrimFinalGrowth | debounce_grep/debounce_grep.go:348-353 | dropping the pending spaces of the loop's final entities leaves the run it took in and the ellipsis |
| Layout.DropPendingSpaces | debounce_grep/debounce_grep.go:348-353 | the space before the ellipsis, when there is one, and the spaces on either end are dropped; the result is Layout.WithoutPendingSpaces |
| Layout.DroppedPendingSpace | debounce_grep/debounce_grep.go:348-350 | dropping the second-to-last entity when it is a space keeps the last entity and removes at most one |
| Layout.TruncationExample | debounce_grep/debounce_grep.go:278-355 | a worked case at width 20 (room 12): for "aaa", a marked "bbb", "ccc", "ddd" the result is "aaa", a space, the marked word and the ellipsis; "ccc" would pass the room |
| Layout.ExampleGrowth | debounce_grep/debounce_grep.go:296-347 | in that case the loop adds a space on the left, a space on the right and "aaa", and stops at the turn on the right, where "ccc" would pass the room |
| Layout.TrimGrown | debounce_grep/debounce_grep.go:348-353 | dropping the pending spaces of a grown list leaves the spaced run and the ellipsis, no wider than the list |
| Layout.TruncateAroundFirstMatch | debounce_grep/debounce_grep.go:296-354 | the result is Layout.TruncatedAround: the run of words the loop stopped at, spaced, then the ellipsis |
| Layout.Truncation | debounce_grep/debounce_grep.go:278-355 | definition of what getTruncatedLine returns: the cut word and the ellipsis (None when the slice bound passes the word) when the first matched word and the ellipsis are too wide, otherwise Layout.TruncatedAround, the run where the alternating growth stops; Layout.GetTruncatedLine is proved to meet it |
| Layout.CutFirstMatchedWord | debounce_grep/debounce_grep.go:290-295 | a too-wide first matched word is cut to room+6 bytes and followed by the ellipsis; a shorter word makes Go panic (None) |
| Layout.GetTruncatedLine | debounce_grep/debounce_grep.go:278-355 | the result is exactly Layout.Truncation: the cut word, or the run the growth loop stops at with its pending spaces dropped |
| Layout.TruncationShape | debounce_grep/debounce_grep.go:278-355 | a truncated line ends in the ellipsis; before it is either a prefix of the first matched word or consecutive words that include it, and in that case it fits the room |
| Layout.SpacedHasNoBreak | debounce_grep/debounce_grep.go:255-261 | a spaced line is a single row |
| Layout.RenderMatchedLineText | debounce_grep/debounce_grep.go:251-276 | truncate mode gives the whole line when it fits and otherwise exactly Layout.Truncation of its words (the growth stopped where the next entity passes the room); wrap mode gives the wrapped line, every row fitting |
| Sorting.InsertBy | debounce_grep/debounce_grep.go:141-143 | inserting into a sorted list keeps it sorted and adds exactly the one element |
| Sorting.SortBy | debounce_grep/debounce_grep.go:141-143 | sort.Slice by line number gives a sorted permutation |
| Sorting.SortByOfSorted | debounce_grep/debounce_grep.go:671 | sorting an already sorted list changes nothing |
| Sorting.InsertSmallest | debounce_grep/debounce_grep.go:141-143 | an element no greater than the head of a sorted list is inserted in front |
| Window.NumberOfLinesRendered | debounce_grep/debounce_grep.go:171-177 | a file takes 2 rows plus its matched lines, at most the per-file limit |
| Window.OpenPass | debounce_grep/debounce_grep.go:627-648 | definition of the open pass over the last `k` queue entries: a file is taken when its rows fit, or always when it is the only open file; Window.OpenPassAccounting proves its row accounting |
| Window.ClosedPass | debounce_grep/debounce_grep.go:651-668 | definition of the closed pass as written: closed files one row each, stopping at the end of the list, past the bottom of the window, or when the spare rows are exactly 0; Window.ClosedPassSound proves what it takes |
| Window.WindowOf | debounce_grep/debounce_grep.go:621-671 | definition of the window: nothing without matched files, otherwise both passes sorted; Window.WindowAscending and Window.WindowBudget prove its order and its rows |
| Window.OpenFilesPass | debounce_grep/debounce_grep.go:623-648 | the loop over the queue from its end gives the open pass: the files taken and the rows left; it fails (a Go panic at line 630) exactly when some entry names no file of the list |
| Window.ClosedFilesPass | debounce_grep/debounce_grep.go:651-668 | the loop from the top of the window gives the closed pass |
| Window.FilesInWindowIndeces | debounce_grep/debounce_grep.go:621-671 | both passes, sorted by index, form the window; nothing is drawn without matched files, whatever the queue holds, and a queue entry outside the matched files gives None |
| Window.RenderedWindow | debounce_grep/debounce_grep.go:621-671 | definition of steps 1 to 3 for any queue: None when there are matched files and the queue names an index outside them (the lookup at line 630 panics), the window otherwise |
| Window.RenderedWindowPanics | debounce_grep/debounce_grep.go:621-632 | the render panics exactly when there are matched files and some queue entry names none of them; with no matched files nothing is drawn, whatever the queue holds |
| Window.OpenPassAccounting | debounce_grep/debounce_grep.go:627-648 | the open pass takes queue entries, each at most once; the rows left are the screen less the rows taken |
| Window.OpenPassRows | debounce_grep/debounce_grep.go:627-648 | the open pass takes files of the list, and the rows left are the screen less the search line less the rows of the files taken |
| Window.OpenPassFromQueue | debounce_grep/debounce_grep.go:627-648 | the open pass takes only entries of the part of the queue it has walked |
| Window.OpenPassDistinct | debounce_grep/debounce_grep.go:627-648 | a queue without repeats gives an open pass without repeats |
| Window.OpenPassSpare | debounce_grep/debounce_grep.go:627-648 | unless the queue holds exactly one file, the rows left never go below zero; a single queued file is always taken |
| Window.ClosedPassSound | debounce_grep/debounce_grep.go:651-668 | closed files are taken in increasing order, only from the window, one row each |
| Window.WindowBudget | debounce_grep/debounce_grep.go:621-668 | when the open-file pass leaves a non-negative count of rows to spare (and the screen has a row), the open files shown plus one row per closed file fit in the ttyHeight-1 rows below the search line |
| Window.OpenPicksAreOpen | debounce_grep/debounce_grep.go:627-648 | the open pass takes only open files of the list, each once |
| Window.ClosedPicksAreClosed | debounce_grep/debounce_grep.go:654-668 | the closed pass takes only closed files of the list, each once |
| Window.SortedIndices | debounce_grep/debounce_grep.go:671 | sorting repeat-free indices gives a strictly ascending list |
| Window.WindowAscending | debounce_grep/debounce_grep.go:621-671 | with a consistent queue, the window is strictly ascending and names files of the list |
| Window.ClosedPassBounded | debounce_grep/debounce_grep.go:651-668 | the intended closed pass takes at most as many files as rows are left, none when none are left |
| Window.BoundedWindowBudget | debounce_grep/debounce_grep.go:621-668 | with the intended pass the window never overruns the screen, except for the one too-tall open file, shown alone |
| Window.ClosedPassPastBottom | debounce_grep/debounce_grep.go:637-668 | a concrete screen where the window as written takes 8 rows of 2, and the intended pass adds nothing |
| Window.ShownCount | debounce_grep/debounce_grep.go:145-152 | the loop prints all matched lines, or stops at the limit when the limit is at least 1 |
| Window.Open | debounce_grep/debounce_grep.go:139-153 | the shown lines are sorted by line number and are the first ShownCount lines of the sorted list; showMatches at search.go:233-247 has the same code |
| Window.OpenedRowsMatchBudget | debounce_grep/debounce_grep.go:171-177 | with a limit of at least 1, an open file prints exactly the rows getNumberOfLinesRendered counts |
| Window.OpenShowsFirstMatches | debounce_grep/debounce_grep.go:141-143 | after a search the matched lines are already in order, so sorting leaves them unchanged |
| Queue.RemoveLoop | debounce_grep/debounce_grep.go:764-768 | definition of the removal loop: Go's range reads the backing array with the length fixed at the start while each removal shifts the live slice left in that array; a removal past the live length panics (None); Queue.RemoveFromQueueUnique and Queue.DuplicateEntryPanics prove what it gives |
| Queue.RemoveFromQueue | debounce_grep/debounce_grep.go:764-768 | definition: the removal loop over the whole queue from entry 0 |
| Queue.ToggleSpec | debounce_grep/debounce_grep.go:755-770 | definition of toggleIfMatchIsOpen on values: the flag flips, and the file is appended to the queue or removed from it; Queue.ToggleKeepsQueueConsistent and Queue.ToggleTwice prove its properties |
| Queue.RemoveFromQueueAbsent | debounce_grep/debounce_grep.go:764-768 | closing a file the queue does not hold leaves the queue as it is |
| Queue.RemoveFromQueueUnique | debounce_grep/debounce_grep.go:764-768 | in a repeat-free queue, closing removes the file's one entry and keeps the others in order |
| Queue.DuplicateEntryPanics | debounce_grep/debounce_grep.go:764-768 | a queue holding the file twice makes the removal loop slice past the end (a Go panic) |
| Queue.ToggleKeepsQueueConsistent | debounce_grep/debounce_grep.go:755-770 | toggling never panics in a consistent session and keeps the queue naming exactly the open files: opening appends, closing removes |
| Queue.ClosingKeepsQueueConsistent | debounce_grep/debounce_grep.go:762-768 | closing an open file and removing its one entry keeps the queue naming exactly the open files, each once |
| Queue.OpeningKeepsQueueConsistent | debounce_grep/debounce_grep.go:759-761 | opening a closed file and appending it keeps the queue naming exactly the open files, each once |
| Queue.ToggleTwice | debounce_grep/debounce_grep.go:755-770 | toggling twice restores every flag; the queue comes back, or the file moves to the end as the most recent |
| Session.InsertAt | debounce_grep/debounce_grep.go:725-728 | the character goes in before position k, and the rest is kept on both sides |
| Session.DeleteAt | debounce_grep/debounce_grep.go:717-723 | the character at k goes, and the rest is kept on both sides |
| Session.DeleteInserted | debounce_grep/debounce_grep.go:717-728 | typing a character and deleting it again gives the term back |
| Session.InsertDeleted | debounce_grep/debounce_grep.go:717-728 | deleting a character and typing it again gives the term back |
| Session.SearchedCandidates | debounce_grep/debounce_grep.go:511-513 | after a search every candidate carries its own matched lines |
| Session.FoundFilesAreClosed | debounce_grep/debounce_grep.go:508-521 | a search over closed candidates finds only closed files |
| Session.ClosedFilesHaveEmptyQueue | debounce_grep/debounce_grep.go:559-570 | when no file is open, the only consistent queue is the empty one |
| Session.StaleQueuePanics | debounce_grep/debounce_grep.go:559-570 | a queue kept across a search makes the next redraw panic when the new search finds fewer files than a queued index, and makes the next open then close of a file that comes back panic |
| Session.SearchManager.constructor | debounce_grep/debounce_grep.go:420-431 | the session starts with an empty term in the typing state, nothing found and an empty queue |
| Session.SearchManager.IncrementCursorIndex | debounce_grep/debounce_grep.go:709-711 | the cursor moves right by one, and nothing else changes |
| Session.SearchManager.DecrementCursorIndex | debounce_grep/debounce_grep.go:713-715 | the cursor moves left by one, and nothing else changes |
| Session.SearchManager.DeleteCharBackwards | debounce_grep/debounce_grep.go:717-719 | the character before the cursor goes |
| Session.SearchManager.DeleteCharForwards | debounce_grep/debounce_grep.go:721-723 | the character under the cursor goes |
| Session.SearchManager.AddCharToSearchTerm | debounce_grep/debounce_grep.go:725-728 | the character goes in at the cursor, and the cursor moves past it |
| Session.SearchManager.IncrementSelectedMatchIndex | debounce_grep/debounce_grep.go:730-741 | the selection moves down; the highlighted row follows it, or the window scrolls on the last row |
| Session.SearchManager.DecrementSelectedMatchIndex | debounce_grep/debounce_grep.go:743-753 | the selection moves up; the highlighted row follows it, or the window scrolls back on row 2 |
| Session.SearchManager.ToggleIfMatchIsOpen | debounce_grep/debounce_grep.go:755-770 | the flag flips and the queue follows, as in ToggleSpec; a panic leaves the session unchanged |
| Session.SearchManager.GetFilesWithMatches | debounce_grep/debounce_grep.go:508-521 | the loop returns the files with matches, in candidate order, and stores each candidate's matched lines |
| Session.SearchManager.SearchForMatchesAsWritten | debounce_grep/debounce_grep.go:559-570 | the found files are closed, the state follows the outcome, and the selection and window reset; the candidates carry their newly searched lines; the old queue is kept |
| Session.SearchManager.SearchForMatches | debounce_grep/debounce_grep.go:559-570 | the same search with the queue emptied, so the queue is consistent again; the candidates carry their newly searched lines |
| Session.SearchManager.HandleStdinCommands | debounce_grep/debounce_grep.go:772-824 | each key has its effect on the term, the cursor, the selection and the open files; the session stays valid and the queue stays consistent |
| Session.SelectionOnScreen | debounce_grep/debounce_grep.go:730-753 | in a valid session the selected file lies between the top of the window and the last match row |
| EarlyLayout.ShiftedLeft | search.go:285 | `append(s[:0], s[1:]...)` keeps the length of the backing array |
| EarlyLayout.AfterPops | search.go:281-287 | the backing array after k pops keeps its length |
| EarlyLayout.AfterPopsStep | search.go:281-287 | one more pop moves the live slice one place further along the backing array |
| EarlyLayout.PairSlice.constructor | search.go:273-279 | a new slice over a fresh backing array holds exactly the given pairs |
| EarlyLayout.PairSlice.Copy | search.go:240 | a copied slice header shares the backing array and the length |
| EarlyLayout.PairSlice.PopNextMatchIndeces | search.go:281-287 | returns the first pair; the live pairs lose their first element and keep their order; the backing array is shifted in place |
| EarlyLayout.MatchSpansWellFormed | search.go:253-257 | the pairs found for a line are in range, non-empty and in order |
| EarlyLayout.PoppedToStep | search.go:292-306 | the next popped pair is the next of the original pairs, and popping it keeps track of the backing array |
| EarlyLayout.RenderingStep | search.go:293-306 | one turn of the marker loop keeps the marked-up text on course to the highlighted line |
| EarlyLayout.RenderingDone | search.go:293-307 | with well-formed pairs, every pair has been popped when the line ends |
| EarlyLayout.RenderByte | search.go:293-306 | one byte of the marker loop, popping the next pair when a match ends |
| EarlyLayout.HighlightPopping | search.go:290-307 | the marked-up line is the highlighted line; with well-formed pairs the live slice is left empty over a backing array of stale copies of the last pair |
| EarlyLayout.PoppedPairsLoseHighlights | search.go:281-307 | a concrete line whose pairs, after one rendering, highlight only the second of two matches |
| EarlyLayout.FirstWordToShowIndex | search.go:319-324 | the shown words start at most 3 words before the first matched word |
| EarlyLayout.WordsToShow | search.go:310-327 | the shown words are a suffix of the words: all of them without truncation, otherwise starting min(k,3) words before the first matched word k |
| EarlyLayout.GetWordsWithColorCodesV0 | search.go:290-328 | the words returned are the suffix of the marked-up line's words chosen above, and the line's pairs are used up |
| EarlyLayout.WordsToShowRoundTrip | search.go:290-328 | without truncation, stripping the words and joining them gives back the line |
| EarlyLayout.RowWidthAtMostSum | search.go:370-377 | the current version's measured row is never wider than the whole list |
| EarlyLayout.WillHitEndOfTtyV0 | search.go:370-377 | definition of the earlier overflow test: the entity plus every entity of the list, line breaks or not, passes the room; EarlyLayout.WillHitEndOfTtyV0Wider compares it with the current test |
| EarlyLayout.WillHitEndOfTtyV0Wider | search.go:370-377 | the current version's test implies the earlier one's, and they agree on a non-empty list without breaks |
| EarlyLayout.WithSpaces | search.go:362-363 | each word is followed by one space entity |
| EarlyLayout.WithSpacesContent | search.go:341-364 | the spaced words keep every word, in order |
| EarlyLayout.FirstOverflowFrom | search.go:341-342 | the first word that would pass the room after the earlier words, each followed by a space |
| EarlyLayout.WithSpacesStep | search.go:341-363 | a word that passes the test before the first overflow extends the spaced prefix by the word and one space |
| EarlyLayout.WrappedV0Step | search.go:341-363 | one turn of the wrap-mode loop adds a line break, indent and gutter when the test fails, then the word and one space |
| EarlyLayout.TrimForEllipsis | search.go:346-348 | the trimming loop keeps a prefix after which the ellipsis fits; it runs into the empty list (None) exactly when even the ellipsis alone does not fit |
| EarlyLayout.TrimKeepsLongest | search.go:346-348 | the trimming keeps the longest such prefix |
| EarlyLayout.WithoutTrailingSpace | search.go:350-352 | dropping one trailing space gives a prefix that is not wider |
| EarlyLayout.EllipsisFits | search.go:346-353 | the ellipsis after what the trimming kept fits the room |
| EarlyLayout.EllipsisEnding | search.go:346-353 | definition of the truncated ending: trimmed until the ellipsis fits, without a trailing space, then the ellipsis; None when the trimming runs out of entities or keeps none; EarlyLayout.EllipsisFits and EarlyLayout.TruncatedV0Shape prove that it fits |
| EarlyLayout.EndWithEllipsis | search.go:346-353 | the trimming loop, the dropped trailing space and the appended ellipsis give the trimmed ending, or the panic when the trimming empties the list |
| EarlyLayout.TruncatedV0 | search.go:341-354 | definition of truncate mode: the words with their spaces when none passes the room, otherwise the ellipsis ending of the words before the first that does; EarlyLayout.LayOutWordsV0 is proved to compute it |
| EarlyLayout.TruncatedV0Shape | search.go:341-354 | a truncated line ends in the ellipsis, fits the room, and the part before the ellipsis is a prefix of the spaced words |
| EarlyLayout.FirstWordTooWidePanics | search.go:341-352 | a first word wider than the room makes truncate mode panic |
| EarlyLayout.WrappedV0 | search.go:341-364 | definition of wrap mode: before each word that fails the earlier test a line break, indent and gutter, then the word and a space |
| EarlyLayout.WrappedV0Content | search.go:355-363 | wrapping keeps every word, in order, and adds only separators |
| EarlyLayout.WrappedV0Grows | search.go:355-363 | the wrapped line only widens as words are added |
| EarlyLayout.WrappedV0BreaksForever | search.go:355-377 | once one word wraps, every later word wraps too |
| EarlyLayout.RowOpeningWidth | search.go:356-358 | the line break, indent and number gutter that open a new row take 7 columns |
| EarlyLayout.ShortWordWrapsAloneV0 | search.go:341-377 | on a terminal 20 columns wide, after any 10-byte word "bb" wraps, and the earlier test wraps "c" after it too |
| EarlyLayout.RowAfterBreakWidth | debounce_grep/debounce_grep.go:381-391 | the current test measures only the row that "bb" opened, 9 columns wide |
| EarlyLayout.FirstRowFull | debounce_grep/debounce_grep.go:357-393 | a 10-byte word and its space leave no room for "bb" on a 20-column terminal |
| EarlyLayout.ShortWordJoinsRow | debounce_grep/debounce_grep.go:357-393 | on the same terminal the current version wraps "bb" and lets "c" join its row |
| EarlyLayout.LayOutWordsV0 | search.go:339-364 | the word loop gives the truncated line (or the panic) in truncate mode and the wrapped line otherwise |
| EarlyLayout.RenderMatchedLineTextV0 | search.go:338-368 | the entities of a line are the chosen words, laid out by the mode, and the line's pairs are used up |
| EarlySession.ToggledAt | search.go:668-670 | only the given file changes, and only its flag, which flips |
| EarlySession.ToggledAtTwice | search.go:668-670 | pressing C-space twice on a file gives the files back |
| EarlySession.WindowLength | search.go:583-587 | the window shows at most ttyHeight-1 files, stops at the end of the list, and is not empty when the top file exists |
| EarlySession.VisibleCopies | search.go:583-596 | each shown copy is the file at its index, marked selected exactly when that index is the selected one |
| EarlySession.SelectedShownOnce | search.go:580-597 | when the selected file lies in the window it is shown, and it is the only file marked selected |
| EarlySession.SearchManager.constructor | search.go:404-414 | the session starts with an empty term in the typing state and nothing found |
| EarlySession.SearchManager.SearchForMatches | search.go:523-538 | the found files replace the old ones, the state follows the outcome, and the selection and window reset |
| EarlySession.SearchManager.ToggleSelectedMatchShouldShowMatches | search.go:668-670 | only the selected file's flag flips; a selection past the list panics and changes nothing |
| EarlySession.SearchManager.IncrementCursorIndex | search.go:622-624 | the cursor moves right by one, and nothing else changes |
| EarlySession.SearchManager.DecrementCursorIndex | search.go:626-628 | the cursor moves left by one, and nothing else changes |
| EarlySession.SearchManager.DeleteCharBackwards | search.go:630-632 | the character before the cursor goes, and nothing else changes |
| EarlySession.SearchManager.DeleteCharForwards | search.go:634-636 | the character under the cursor goes, and nothing else changes |
| EarlySession.SearchManager.AddCharToSearchTerm | search.go:638-641 | the character goes in at the cursor, and the cursor moves past it |
| EarlySession.SearchManager.IncrementSelectedMatchIndex | search.go:643-654 | the selection moves down; the highlighted row follows it, or on the last row the window scrolls |
| EarlySession.SearchManager.DecrementSelectedMatchIndex | search.go:656-666 | the selection moves up; the highlighted row follows it, or on row 2 the window scrolls back |
| EarlySession.SearchManager.RenderSearchMatches | search.go:580-597 | the window loop gives the visible copies, and the session's own files keep their marks |
| EarlySession.SearchManager.HandleStdinCommands | search.go:672-723 | each key has its effect on the term, the cursor and the selection; C-space toggles the selected file or panics on an empty list; the session stays valid |
| EarlySession.SelectionRenderedOnce | search.go:580-597 | in a valid session the selected file is in the window and is the one file rendered as selected |

## Left out

- Reading input and searching run in a goroutine, with a channel and a
  debounce timer (`listenToStdinAndSearchFiles`). Concurrency and timing are
  not modelled. A search is a method call, and a key press is one call of
  the key handler.
- Walking the file system, the shebang filter, the ignore list and reading
  a file are left out. A candidate carries its lines as a value.
- The term is matched as a literal string, as `strings.Contains` does. The
  regular-expression and suffix-array search that produces the match pairs
  is not modelled. A term containing regular-expression syntax would give
  other pairs in Go, and can make Go panic where the model does not: an
  invalid pattern such as "(" panics in `regexp.MustCompile`
  (debounce_grep/debounce_grep.go:160), and a line that contains the term
  literally but where the pattern finds no match (the term "^b" in the line
  "a^b") has no pair, so reading its first pair panics
  (debounce_grep/debounce_grep.go:197).
- Printing is left out: cursor moves, clearing lines, the search message,
  the term line, `renderFilePath` and the match counts it prints, the
  printing loops, and `renderMatchedLine`'s indent and line number. Each
  renderer is modelled as the list of entities or files it would print.
- The scroll bar (`renderScrollBar`) is left out, because it is floating
  point and rounding. So are logging, configuration through environment
  variables, and the terminal size query. The terminal size and
  `maxLinesToPrintPerFile` are parameters.
- Text is ASCII, one byte per `char`. A multi-byte UTF-8 line is not
  modelled: there, Go's byte offsets and the rune loop would disagree.
- Sorting: the order of equal keys in `sort.Slice` is not modelled. Line
  numbers of one file are distinct, so the sorted order is unique.
- Window.ShownCount: a limit of 0 or less is modelled as printing every
  line, because the loop's equality test is never met then.
- EarlySession.SearchManager.SearchForMatches: the candidate loop of
  search.go's `getFilesWithMatches` has the same code as the current
  version's. Its result is assigned from the specification that
  Session.SearchManager.GetFilesWithMatches is proved against.
- EarlySession.SearchManager.RenderSearchMatches: the open file's matched
  lines are drawn by `showMatches` (Window.Open), and the popping of pairs
  by EarlyLayout.RenderMatchedLineTextV0. The model does not chain those
  calls over the copies the loop makes.
- Session.SearchManager.HandleStdinCommands and
  EarlySession.SearchManager.HandleStdinCommands take the one byte that
  each read returns (the read buffer is one byte long). The redraws they
  trigger are not modelled.
- Layout.GrowFrom: when both sides have no word left, the Go loop would
  pass the turn back and forth for ever. The function stops there instead.
  That state holds the whole line, which never fits, so Layout.GrowthEnds
  and Layout.FinalGrowthStops show that getTruncatedLine never reaches it.
- EarlySession.WindowLength counts files, not rows. The rows an open
  file's matched lines take are not counted, and search.go does not count
  them either.

## Findings

| source | as written | input that shows it | evidently intended | confidence | as-written member | corrected member |
|---|---|---|---|---|---|---|
| debounce_grep/debounce_grep.go:650-668 | the closed-file pass stops only when the rows to spare are exactly 0, so once the one too-tall open file has driven them negative, closed files keep being added | one open file with 5 matched lines, one closed file, ttyHeight 3, maxLinesToPrintPerFile 5: 8 rows are taken where 2 are free | stop once no row is left, that is at 0 or below | high (not executed) | Window.ClosedPassPastBottom | Window.BoundedWindowBudget |
| debounce_grep/debounce_grep.go:559-570 | a new search replaces the files, and they come back closed, but the open-file queue of the earlier search is kept | with 5 files found, open file 3, then type a term that matches 2 files: the next redraw looks up file 3 of 2 and panics at line 630; or open file 0, search again, open file 0 again, close it: the queue is [0, 0] and the removal loop slices past the end | empty the queue with the files | high (not executed) | Session.StaleQueuePanics | Session.SearchManager.SearchForMatches |
| search.go:281-307 | popping a pair shifts the shared backing array of the file's pairs in place, so a copy of the line made by a later redraw sees stale pairs | the line "ab" with matches [0,1) and [1,2): after one rendering the backing array holds [1,2) twice, and the next rendering highlights only "b" | read the pairs by index without changing them, as debounce_grep.go:195-227 does | high (not executed) | EarlyLayout.PoppedPairsLoseHighlights | Layout.GetWordsWithColorCodes |
| search.go:341-352 | in truncate mode, when the first shown word alone is wider than the room, the entity list is empty and indexing its last element panics | a line whose first word is a run of ttyWidth letters without a space | cut the too-wide word and add the ellipsis, as debounce_grep.go:290-295 does | high (not executed) | EarlyLayout.FirstWordTooWidePanics | Layout.GetTruncatedLine |
| search.go:355-377 | in wrap mode the overflow test sums every entity of the line, including those before earlier line breaks, so after the first wrap every word goes on a row of its own | ttyWidth 20 (room 12), words "aaaaaaaaaa", "bb", "c": "bb" wraps, and "c" starts yet another row although it fits after "bb" | measure only the row after the last line break, as debounce_grep.go:380-391 does | high (not executed) | EarlyLayout.WrappedV0BreaksForever, EarlyLayout.ShortWordWrapsAloneV0 | Layout.WrappedRowsFit, EarlyLayout.ShortWordJoinsRow |
