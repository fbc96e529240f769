/** Opening and closing matched files in debounce_grep.go
    (toggleIfMatchIsOpen): the file's open flag is flipped and the
    open-file queue, most recently opened last, follows it. */
module Queue {
  import opened Text
  import opened Matcher
  import opened Window

  /** The queue names exactly the open files, each once. */
  predicate QueueConsistent(files: seq<File>, queue: seq<int>) {
    InRange(queue, files) && Distinct(queue)
    && forall k :: 0 <= k < |files| ==> (files[k].isOpen <==> k in queue)
  }

  /** The removal loop of toggleIfMatchIsOpen from `loopIndex` on. Go's range
      loop reads the queue's backing array `b` (its length fixed when the
      loop starts) while each removal shifts the live slice, of length `n`,
      one place left inside that same array. Removing at an index past the
      live length panics, shown as None. */
  function RemoveLoop(b: seq<int>, n: nat, target: int, loopIndex: nat): Option<seq<int>>
    requires n <= |b|
    decreases |b| - loopIndex
  {
    if loopIndex >= |b| then Some(b[..n])
    else if b[loopIndex] != target then RemoveLoop(b, n, target, loopIndex + 1)
    else if loopIndex + 1 > n then None
    else RemoveLoop(b[..loopIndex] + b[loopIndex + 1..n] + b[n - 1..], n - 1, target, loopIndex + 1)
  }

  /** The queue after closing `target`, or None when Go panics. */
  function RemoveFromQueue(queue: seq<int>, target: int): Option<seq<int>> {
    RemoveLoop(queue, |queue|, target, 0)
  }

  lemma {:induction false} RemoveLoopNoMatch(b: seq<int>, n: nat, target: int, loopIndex: nat)
    requires n <= |b|
    requires forall k :: loopIndex <= k < |b| ==> b[k] != target
    ensures RemoveLoop(b, n, target, loopIndex) == Some(b[..n])
    decreases |b| - loopIndex
  {
    if loopIndex < |b| {
      RemoveLoopNoMatch(b, n, target, loopIndex + 1);
    }
  }

  lemma {:induction false} RemoveLoopSkip(b: seq<int>, n: nat, target: int, loopIndex: nat, j: nat)
    requires n <= |b| && loopIndex <= j <= |b|
    requires forall k :: loopIndex <= k < j ==> b[k] != target
    ensures RemoveLoop(b, n, target, loopIndex) == RemoveLoop(b, n, target, j)
    decreases j - loopIndex
  {
    if loopIndex < j {
      RemoveLoopSkip(b, n, target, loopIndex + 1, j);
    }
  }

  /** Closing a file that the queue does not hold leaves the queue as it is. */
  lemma {:induction false} RemoveFromQueueAbsent(queue: seq<int>, target: int)
    requires target !in queue
    ensures RemoveFromQueue(queue, target) == Some(queue)
  {
    RemoveLoopNoMatch(queue, |queue|, target, 0);
    assert queue[..|queue|] == queue;
  }

  /** In a queue without repeats, closing a file removes its one entry and
      keeps the others in order. */
  lemma {:induction false} RemoveFromQueueUnique(queue: seq<int>, target: int, j: nat)
    requires Distinct(queue) && j < |queue| && queue[j] == target
    ensures RemoveFromQueue(queue, target) == Some(queue[..j] + queue[j + 1..])
  {
    var len := |queue|;
    RemoveLoopSkip(queue, len, target, 0, j);
    var b := queue[..j] + queue[j + 1..len] + queue[len - 1..];
    assert |b| == len;
    forall k | j + 1 <= k < len ensures b[k] != target {
      if k < len - 1 {
        assert b[k] == queue[k + 1];
      } else {
        assert b[k] == queue[len - 1];
      }
    }
    RemoveLoopNoMatch(b, len - 1, target, j + 1);
    assert b[..len - 1] == queue[..j] + queue[j + 1..];
  }

  /** The queue of an earlier search holds a file twice once it is opened
      again: closing it then makes the removal loop panic. */
  lemma DuplicateEntryPanics()
    ensures RemoveFromQueue([0, 0], 0) == None
  {
    var b := [0, 0];
    assert b[..0] + b[1..2] + b[1..] == [0, 0];
  }

  /** toggleIfMatchIsOpen on values: the files with file `i` flipped and the
      new queue, or None when Go panics. */
  function ToggleSpec(files: seq<File>, queue: seq<int>, i: int): Option<(seq<File>, seq<int>)>
    requires 0 <= i < |files|
  {
    var isNowOpen := !files[i].isOpen;
    var toggled := files[i := files[i].(isOpen := isNowOpen)];
    if isNowOpen then Some((toggled, queue + [i]))
    else
      match RemoveFromQueue(queue, i)
      case None => None
      case Some(rest) => Some((toggled, rest))
  }

  /** Toggling a file of a consistent session never panics and keeps the
      queue consistent: opening appends the file, closing removes its entry
      and keeps the others in order. */
  lemma {:induction false} ToggleKeepsQueueConsistent(files: seq<File>, queue: seq<int>, i: int)
    requires QueueConsistent(files, queue) && 0 <= i < |files|
    ensures ToggleSpec(files, queue, i).Some?
    ensures var r := ToggleSpec(files, queue, i).value;
      QueueConsistent(r.0, r.1)
      && r.0 == files[i := files[i].(isOpen := !files[i].isOpen)]
      && (files[i].isOpen ==> i !in r.1 && exists j :: 0 <= j < |queue| && queue[j] == i && r.1 == queue[..j] + queue[j + 1..])
      && (!files[i].isOpen ==> r.1 == queue + [i])
  {
    var toggled := files[i := files[i].(isOpen := !files[i].isOpen)];
    if files[i].isOpen {
      var j :| 0 <= j < |queue| && queue[j] == i;
      RemoveFromQueueUnique(queue, i, j);
      ClosingKeepsQueueConsistent(files, queue, i, j);
    } else {
      OpeningKeepsQueueConsistent(files, queue, i);
    }
  }

  lemma ClosingKeepsQueueConsistent(files: seq<File>, queue: seq<int>, i: int, j: nat)
    requires QueueConsistent(files, queue) && 0 <= i < |files| && files[i].isOpen
    requires j < |queue| && queue[j] == i
    ensures QueueConsistent(files[i := files[i].(isOpen := false)], queue[..j] + queue[j + 1..])
    ensures i !in queue[..j] + queue[j + 1..]
  {
    var toggled := files[i := files[i].(isOpen := false)];
    var rest := queue[..j] + queue[j + 1..];
    assert forall k :: 0 <= k < |rest| ==> rest[k] == if k < j then queue[k] else queue[k + 1];
    forall k | 0 <= k < |toggled| ensures toggled[k].isOpen <==> k in rest {
      if k in rest {
        var m :| 0 <= m < |rest| && rest[m] == k;
        assert k != i;
      }
      if k != i && files[k].isOpen {
        var m :| 0 <= m < |queue| && queue[m] == k;
        assert m != j;
        if m < j {
          assert rest[m] == k;
        } else {
          assert rest[m - 1] == k;
        }
      }
    }
  }

  lemma OpeningKeepsQueueConsistent(files: seq<File>, queue: seq<int>, i: int)
    requires QueueConsistent(files, queue) && 0 <= i < |files| && !files[i].isOpen
    ensures QueueConsistent(files[i := files[i].(isOpen := true)], queue + [i])
  {
    var toggled := files[i := files[i].(isOpen := true)];
    var grown := queue + [i];
    forall k | 0 <= k < |toggled| ensures toggled[k].isOpen <==> k in grown {
      if k in queue {
        var m :| 0 <= m < |queue| && queue[m] == k;
        assert grown[m] == k;
      }
      if k in grown && k != i {
        var m :| 0 <= m < |grown| && grown[m] == k;
        assert queue[m] == k;
      }
    }
  }

  /** Toggling twice restores every open flag. Starting from a closed file the
      queue comes back as it was; starting from an open file the file ends up
      at the end of the queue, as the most recently opened. */
  lemma {:induction false} ToggleTwice(files: seq<File>, queue: seq<int>, i: int)
    requires QueueConsistent(files, queue) && 0 <= i < |files|
    ensures ToggleSpec(files, queue, i).Some?
    ensures var once := ToggleSpec(files, queue, i).value;
      |once.0| == |files| && ToggleSpec(once.0, once.1, i).Some?
      && var twice := ToggleSpec(once.0, once.1, i).value;
      twice.0 == files
      && (!files[i].isOpen ==> twice.1 == queue)
      && (files[i].isOpen ==> exists j :: 0 <= j < |queue| && queue[j] == i && twice.1 == queue[..j] + queue[j + 1..] + [i])
  {
    ToggleKeepsQueueConsistent(files, queue, i);
    var once := ToggleSpec(files, queue, i).value;
    ToggleKeepsQueueConsistent(once.0, once.1, i);
    var twice := ToggleSpec(once.0, once.1, i).value;
    assert twice.0 == files;
    if !files[i].isOpen {
      assert once.1 == queue + [i];
      assert i !in queue;
      var j := |queue|;
      assert once.1[j] == i;
      RemoveFromQueueUnique(once.1, i, j);
      assert once.1[..j] + once.1[j + 1..] == queue;
    }
  }
}
