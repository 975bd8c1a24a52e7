/** `merge` and `merge_sorted` of Lab6/src/sort_index.c as the index-updating loops they are. */
module MergeCode {
  import opened Records
  import opened Merging

  /** What the two cursors `i` and `j` of a merge still have to deliver. */
  ghost function Pending(s: seq<Record>, i: nat, second: nat, j: nat, end: nat): seq<Record>
    requires i <= second <= j <= end <= |s|
  {
    MergeRuns(s[i..second], s[j..end])
  }

  /** Writing the left head: the goal owes it next, and afterwards what the moved cursor still delivers. */
  lemma TakeLeft(s: seq<Record>, i: nat, second: nat, j: nat, end: nat, goal: seq<Record>, k: nat)
    requires i < second <= j <= end <= |s| && k <= |goal| && goal[k..] == Pending(s, i, second, j, end)
    requires j < end ==> s[i].timeMark <= s[j].timeMark
    ensures k < |goal| && goal[k] == s[i] && goal[k + 1..] == Pending(s, i + 1, second, j, end)
  {
    assert s[i..second] == [s[i]] + s[i + 1..second];
    assert goal[k..][0] == goal[k] && goal[k..][1..] == goal[k + 1..];
  }

  lemma TakeRight(s: seq<Record>, i: nat, second: nat, j: nat, end: nat, goal: seq<Record>, k: nat)
    requires i <= second <= j < end <= |s| && k <= |goal| && goal[k..] == Pending(s, i, second, j, end)
    requires i < second ==> s[j].timeMark < s[i].timeMark
    ensures k < |goal| && goal[k] == s[j] && goal[k + 1..] == Pending(s, i, second, j + 1, end)
  {
    assert s[j..end] == [s[j]] + s[j + 1..end];
    assert goal[k..][0] == goal[k] && goal[k..][1..] == goal[k + 1..];
  }

  /** The first loop of `merge`: while both runs have records left, the smaller head is written. */
  method MergeHeads(file: array<Record>, first: nat, second: nat, end: nat, merged: array<Record>,
                    ghost goal: seq<Record>)
    returns (i: nat, j: nat, k: nat)
    requires file != merged && first <= second <= end <= file.Length && merged.Length == |goal| == end - first
    requires goal == Pending(file[..], first, second, second, end)
    modifies merged
    ensures first <= i <= second <= j <= end && (i == second || j == end) && k == (i - first) + (j - second)
    ensures goal[k..] == file[i..second] + file[j..end]
    ensures merged[..k] == goal[..k]
  {
    ghost var s := file[..];
    i, j, k := first, second, 0;
    while i < second && j < end
      invariant first <= i <= second <= j <= end && k == (i - first) + (j - second)
      invariant goal[k..] == Pending(s, i, second, j, end)
      invariant forall x | 0 <= x < k :: merged[x] == goal[x]
    {
      if file[i].timeMark <= file[j].timeMark {
        TakeLeft(s, i, second, j, end, goal, k);
        merged[k] := file[i];
        i := i + 1;
      } else {
        TakeRight(s, i, second, j, end, goal, k);
        merged[k] := file[j];
        j := j + 1;
      }
      k := k + 1;
    }
    assert s[i..second] == file[i..second] && s[j..end] == file[j..end];
  }

  /** Either of the other two loops of `merge`: copying what is left of one run. */
  method CopyRun(file: array<Record>, from: nat, to: nat, merged: array<Record>, k: nat)
    requires file != merged && from <= to <= file.Length && k + (to - from) <= merged.Length
    modifies merged
    ensures merged[..k + (to - from)] == old(merged[..k]) + file[from..to]
  {
    for i := from to to
      invariant merged[..k] == old(merged[..k])
      invariant merged[k..k + (i - from)] == file[from..i]
    {
      merged[k + (i - from)] := file[i];
    }
    assert merged[..k + (to - from)] == merged[..k] + merged[k..k + (to - from)];
  }

  /** The merged heads followed by the rests of both runs are all that was owed. */
  lemma Assembled(goal: seq<Record>, k: nat, a: seq<Record>, b: seq<Record>, one: seq<Record>, two: seq<Record>)
    requires k <= |goal| && goal[k..] == a + b && one == goal[..k] + a && two == one + b
    ensures two == goal
  {
    assert goal == goal[..k] + goal[k..];
  }

  /** `merge` up to the pause: the temporary array is filled from both runs. */
  method MergeApart(file: array<Record>, first: nat, n: nat) returns (merged: array<Record>)
    requires first + 2 * n <= file.Length
    ensures fresh(merged) && merged.Length == 2 * n
    ensures merged[..] == Pending(file[..], first, first + n, first + n, first + 2 * n)
  {
    var second := first + n;
    var end := second + n;
    merged := new Record[2 * n](_ => Record(0.0, 0));
    ghost var goal := Pending(file[..], first, second, second, end);
    MergeRunsLength(file[..][first..second], file[..][second..end]);
    var i, j, k := MergeHeads(file, first, second, end, merged, goal);
    var l := k + (second - i);
    CopyRun(file, i, second, merged, k);
    ghost var one := merged[..l];
    CopyRun(file, j, end, merged, l);
    Assembled(goal, k, file[i..second], file[j..end], one, merged[..l + (end - j)]);
    assert l + (end - j) == merged.Length;
  }

  /** Merges the two runs of `n` records that start at `num` of the window mapped at `origin`. */
  method Merge(file: array<Record>, origin: nat, num: nat, n: nat)
    requires origin + num + 2 * n <= file.Length
    modifies file
    ensures var s, lo := old(file[..]), origin + num;
            var merged := Pending(s, lo, lo + n, lo + n, lo + 2 * n);
            |merged| == 2 * n && file[..] == Splice(s, lo, merged)
  {
    var first := origin + num;
    var merged := MergeApart(file, first, n);
    ghost var before, goal := file[..], merged[..];
    for index := 0 to 2 * n
      invariant forall x | 0 <= x < file.Length ::
                  file[x] == if first <= x < first + index then goal[x - first] else before[x]
      invariant forall x | 0 <= x < 2 * n :: merged[x] == goal[x]
    {
      file[first + index] := merged[index];
    }
  }

  // ---- The final merge.

  /** The cursors of the final merge: a position inside its run, or -1 for a finished run. */
  ghost predicate Cursors(inds: seq<int>, recs: nat) {
    forall i | 0 <= i < |inds| :: -1 <= inds[i] < recs
  }

  /** What the cursors leave of each run. */
  ghost function Remaining(runs: seq<seq<Record>>, inds: seq<int>): (r: seq<seq<Record>>)
    requires |inds| == |runs|
    requires forall i | 0 <= i < |runs| :: -1 <= inds[i] <= |runs[i]|
    ensures |r| == |runs|
  {
    seq(|runs|, i requires 0 <= i < |runs| => if inds[i] < 0 then [] else runs[i][inds[i]..])
  }

  /** The cursors `inds` over the runs of `s` leave `left` to be written. */
  ghost predicate Leaves(s: seq<Record>, inds: seq<int>, recs: nat, left: seq<seq<Record>>) {
    && recs > 0
    && |inds| == |Chunks(s, recs)|
    && Cursors(inds, recs)
    && (ChunkSizes(s, recs); left == Remaining(Chunks(s, recs), inds))
  }

  /** The cursor of an unfinished run points at the head of what is left of it, inside the file. */
  lemma HeadPosition(s: seq<Record>, inds: seq<int>, recs: nat, left: seq<seq<Record>>, i: nat)
    requires Leaves(s, inds, recs, left) && i < |inds| && inds[i] >= 0
    ensures 0 <= inds[i] + i * recs < |s|
    ensures left[i] != [] && left[i][0] == s[inds[i] + i * recs]
  {
    ChunkSizes(s, recs);
    ChunkAt(s, recs, i);
  }

  /** After the first `n` runs, `min` is the run to take from, or -1 when they are all finished. */
  ghost predicate Best(left: seq<seq<Record>>, n: nat, min: int, mindata: Record)
    requires n <= |left|
  {
    if min == -1 then forall j | 0 <= j < n :: left[j] == []
    else Supplies(left, n, min) && mindata == left[min][0]
  }

  lemma BestNext(left: seq<seq<Record>>, n: nat, min: int, mindata: Record)
    requires n < |left| && Best(left, n, min, mindata)
    ensures left[n] == [] ==> Best(left, n + 1, min, mindata)
    ensures left[n] != [] && (min == -1 || left[n][0].timeMark < mindata.timeMark) ==> Best(left, n + 1, n, left[n][0])
    ensures left[n] != [] && min != -1 && mindata.timeMark <= left[n][0].timeMark ==> Best(left, n + 1, min, mindata)
  {
  }

  /** The inner loop of `merge_sorted`: the run that supplies the next record, found by comparing the
      heads of the unfinished runs in order of run number. */
  method NextRun(file: array<Record>, inds: array<int>, recs: nat, ghost left: seq<seq<Record>>)
    returns (min: int, mindata: Record)
    requires Leaves(file[..], inds[..], recs, left)
    ensures Best(left, inds.Length, min, mindata)
  {
    min := -1;
    mindata := Record(0.0, 0);
    for i := 0 to inds.Length
      invariant Best(left, i, min, mindata)
    {
      BestNext(left, i, min, mindata);
      if inds[i] < 0 {
        assert left[i] == [];
        continue;
      }
      HeadPosition(file[..], inds[..], recs, left, i);
      var tmpVal := file[inds[i] + i * recs];
      if min == -1 {
        mindata := tmpVal;
        min := i;
      }
      if tmpVal.timeMark < mindata.timeMark {
        mindata := tmpVal;
        min := i;
      }
    }
  }

  ghost function Bump(inds: seq<int>, recs: nat, min: nat): seq<int>
    requires min < |inds|
  {
    inds[min := if inds[min] + 1 == recs then -1 else inds[min] + 1]
  }

  lemma BumpAdvances(s: seq<Record>, inds: seq<int>, recs: nat, left: seq<seq<Record>>, min: nat)
    requires Leaves(s, inds, recs, left) && min < |left| && left[min] != []
    ensures Leaves(s, Bump(inds, recs, min), recs, Advance(left, min))
  {
    ChunkSizes(s, recs);
    var run := Chunks(s, recs)[min];
    assert run[inds[min]..][1..] == run[inds[min] + 1..];
    assert Advance(left, min) == Remaining(Chunks(s, recs), Bump(inds, recs, min));
  }

  /** Some run is unfinished because the cursors still leave a record. */
  lemma NextExists(left: seq<seq<Record>>, min: int, mindata: Record)
    requires Best(left, |left|, min, mindata) && |Concat(left)| > 0
    ensures 0 <= min < |left| && left[min] != []
    ensures KWay(left) == [mindata] + KWay(Advance(left, min))
    ensures |Concat(Advance(left, min))| == |Concat(left)| - 1
  {
    SomeRunUnexhausted(left);
    KWayStep(left, min);
    AdvanceLength(left, min);
  }

  /** One turn of the outer loop of `merge_sorted`. */
  method WriteNext(file: array<Record>, inds: array<int>, recs: nat, ghost left: seq<seq<Record>>)
    returns (mindata: Record, ghost rest: seq<seq<Record>>)
    requires Leaves(file[..], inds[..], recs, left) && |Concat(left)| > 0
    modifies inds
    ensures Leaves(file[..], inds[..], recs, rest) && |Concat(rest)| == |Concat(left)| - 1
    ensures KWay(left) == [mindata] + KWay(rest)
  {
    var min;
    min, mindata := NextRun(file, inds, recs, left);
    NextExists(left, min, mindata);
    BumpAdvances(file[..], inds[..], recs, left, min);
    ghost var bumped := Bump(inds[..], recs, min);
    inds[min] := inds[min] + 1;
    if inds[min] == recs {
      inds[min] := -1;
    }
    assert inds[..] == bumped;
    rest := Advance(left, min);
  }

  lemma AllLeft(s: seq<Record>, inds: seq<int>, recs: nat)
    requires recs > 0 && |inds| == |Chunks(s, recs)| && forall i | 0 <= i < |inds| :: inds[i] == 0
    ensures Leaves(s, inds, recs, Chunks(s, recs))
  {
    ChunkSizes(s, recs);
    assert Remaining(Chunks(s, recs), inds) == Chunks(s, recs);
  }

  lemma OneMore(written: seq<Record>, mindata: Record, rest: seq<Record>, goal: seq<Record>)
    requires written + ([mindata] + rest) == goal
    ensures written + [mindata] + rest == goal
  {
  }

  /** Merges all `sortedInBuffer` runs of `recs` records and returns what is written, in order. */
  method MergeSorted(file: array<Record>, sortedInBuffer: nat, recs: nat, amountOfRecs: nat)
    returns (written: seq<Record>)
    requires recs > 0 && sortedInBuffer == |Chunks(file[..], recs)|
    requires amountOfRecs == |Concat(Chunks(file[..], recs))|
    ensures written == KWay(Chunks(file[..], recs))
  {
    var inds := new int[sortedInBuffer](_ => 0);
    ghost var left := Chunks(file[..], recs);
    AllLeft(file[..], inds[..], recs);
    ghost var goal := KWay(left);
    var amount := 0;
    written := [];
    while amount < amountOfRecs
      invariant fresh(inds) && Leaves(file[..], inds[..], recs, left)
      invariant |Concat(left)| == amountOfRecs - amount
      invariant written + KWay(left) == goal
    {
      ghost var owed := KWay(left);
      var mindata;
      mindata, left := WriteNext(file, inds, recs, left);
      OneMore(written, mindata, KWay(left), goal);
      written := written + [mindata];
      amount := amount + 1;
    }
  }
}
