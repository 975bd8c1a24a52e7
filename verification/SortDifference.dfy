/** How a difference that one merge round makes reaches the result of Lab6's sort: two calm schedules go the same way
    to this round, make one pass or two in it, and go on to the end through rounds that change nothing. */
module SortDifference {
  import opened Options
  import opened Records
  import opened Merging
  import opened Passes
  import opened Hills
  import opened SortProtocol
  import opened SortSizes
  import opened SortInvariant
  import opened SortSafety
  import opened SortProgress
  import opened SortTheorems
  import opened SortPasses
  import opened SortReset
  import opened SortExact
  import opened SortDetermined

  ghost predicate CalmlyTo(c: Config, s: State, schedule: seq<Label>, s': State) {
    CalmRun(c, s, schedule) && Run(c, s, schedule) == Ok(s')
  }

  /** Some calm schedule leads from one state to the other. */
  ghost predicate Reaches(c: Config, s: State, s': State) {
    exists schedule :: CalmlyTo(c, s, schedule, s')
  }

  lemma ReachesItself(c: Config, s: State)
    ensures Reaches(c, s, s)
  {
    assert CalmlyTo(c, s, [], s);
  }

  lemma ReachesByGets(c: Config, s: State, s': State)
    requires Gets(c, s, s')
    ensures Reaches(c, s, s')
  {
    var schedule :| Leads(c, s, schedule, s');
    assert CalmlyTo(c, s, schedule, s');
  }

  lemma ReachesByStep(c: Config, s: State, l: Label)
    requires Exec(c, s, l).Ok? && Calm(c, s, l)
    ensures Reaches(c, s, Exec(c, s, l).state)
  {
    var s' := Exec(c, s, l).state;
    assert Run(c, s', []) == Ok(s') && CalmRun(c, s', []);
    assert [l][1..] == [];
    assert CalmlyTo(c, s, [l], s');
  }

  lemma ReachesOn(c: Config, s: State, t: State, u: State)
    requires Reaches(c, s, t) && Reaches(c, t, u)
    ensures Reaches(c, s, u)
  {
    var a :| CalmlyTo(c, s, a, t);
    var b :| CalmlyTo(c, t, b, u);
    RunConcat(c, s, a, b);
    assert CalmlyTo(c, s, a + b, u);
  }

  // ---- Windows that sorting and merging leave alone.

  ghost predicate BlocksInOrder(c: Config, w: seq<Record>) {
    forall b: nat | b < c.blocks && BlockLo(c, b) + c.BlockRecs() <= |w| ::
      Sorted(w[BlockLo(c, b)..BlockLo(c, b) + c.BlockRecs()])
  }

  lemma SortedUnchanged(stable: bool, inp: seq<Record>, out: seq<Record>)
    requires QsortResult(stable, inp, out) && Sorted(inp) && Plain(inp)
    ensures out == inp
  {
    QsortSorts(stable, inp, out);
    SortedMarksUnique(inp, out);
    forall i | 0 <= i < |out| ensures out[i] == inp[i] {
      assert out[i] in multiset(inp);
      var j :| 0 <= j < |inp| && inp[j] == out[i];
      assert TimeMarks(inp)[i] == TimeMarks(out)[i];
    }
  }

  lemma BlockUnchanged(c: Config, s: State, t: nat, b: nat, out: seq<Record>)
    requires c.Valid() && t < |s.pcs| && b < c.blocks && SortBlock(c, s, t, b, out).Ok?
    requires s.mapped == Some(s.sorted) && s.sorted < |s.windows| && |s.windows[s.sorted]| == c.recsInBuffer
    requires Plain(s.windows[s.sorted]) && BlocksInOrder(c, s.windows[s.sorted])
    ensures SortBlock(c, s, t, b, out).state == s.(pcs := s.pcs[t := ClaimBlock])
  {
    var lo, w := BlockLo(c, b), s.windows[s.sorted];
    BlockInside(c, b);
    SortBlockState(c, s, t, b, out, lo);
    SortedUnchanged(c.stableQsort, w[lo..lo + c.BlockRecs()], out);
    assert Splice(w, lo, out) == w;
    assert s.windows[s.sorted := w] == s.windows;
  }

  /** While the blocks of such a window are being sorted, nothing changes in it. */
  lemma SortingUnchanged(c: Config, file: seq<seq<Record>>, s: State, l: Label)
    requires Safe(c, file, s) && PhaseOf(s.pcs[0]).Sorting? && l.Thread? && Exec(c, s, l).Ok?
    requires Plain(s.windows[s.sorted]) && BlocksInOrder(c, s.windows[s.sorted])
    ensures Exec(c, s, l).state.windows == s.windows && Exec(c, s, l).state.sorted == s.sorted
  {
    assert PhaseOf(s.pcs[l.t]) == PhaseOf(s.pcs[0]);
    if s.pcs[l.t].SortOwn? || s.pcs[l.t].SortClaimed? {
      AtWork(c, file, s, l.t);
      BlockUnchanged(c, s, l.t, if s.pcs[l.t].SortOwn? then l.t else s.pcs[l.t].curBlock, l.out);
    }
  }

  lemma BeforeRoundsUnchanged(c: Config, file: seq<seq<Record>>, s: State, l: Label)
    requires Safe(c, file, s) && BeforeRounds(s) && Exec(c, s, l).Ok?
    requires Plain(s.windows[s.sorted]) && BlocksInOrder(c, s.windows[s.sorted])
    ensures Exec(c, s, l).state.windows == s.windows && Exec(c, s, l).state.sorted == s.sorted
  {
    if l.Thread? {
      assert PhaseOf(s.pcs[l.t]) == PhaseOf(s.pcs[0]);
      if PhaseOf(s.pcs[0]).Sorting? {
        SortingUnchanged(c, file, s, l);
      }
    }
  }

  /** The first round begins with the window as it was. */
  lemma {:induction false} ToFirstRound(c: Config, file: seq<seq<Record>>, s: State) returns (r: State)
    requires Safe(c, file, s) && BeforeRounds(s)
    requires Plain(s.windows[s.sorted]) && BlocksInOrder(c, s.windows[s.sorted])
    ensures Reaches(c, s, r) && Safe(c, file, r) && AtRoundStart(c, r, c.blocks, c.sizeOfBlock)
    ensures r.windows == s.windows && r.sorted == s.sorted
    decreases Remains(c, s).windows, Remains(c, s).phases, Remains(c, s).rewrites, Remains(c, s).free,
              Remains(c, s).steps
  {
    hide Plain, BlocksInOrder, Reaches;
    if AllWaiting(s) && s.pcs[0].WaitSorted? {
      r := PastBarrier(c, file, s);
      ReachesByStep(c, s, OpenBarrier);
    } else {
      assert DecidedRightly(s.pcs[0], 0, true) || PhaseOf(s.pcs[0]).Sorting?;
      var l := SomeStep(c, file, s);
      StepSafe(c, file, s, l);
      StepDescends(c, file, s, l);
      StaysBeforeRounds(c, file, s, l);
      BeforeRoundsUnchanged(c, file, s, l);
      var next := Exec(c, s, l).state;
      r := ToFirstRound(c, file, next);
      ReachesByStep(c, s, l);
      ReachesOn(c, s, next, r);
    }
  }

  // ---- Rounds that change nothing.

  /** The rounds from (`mb`, `ms`) to before (`last`, `size`) leave the window alone. */
  ghost predicate StillTo(w: seq<Record>, mb: nat, ms: nat, last: nat, size: nat)
    decreases mb
  {
    (mb == last && ms == size) ||
    (mb > last && mb > 1 && Pass(w, ms / RECORD_SIZE, mb / 2) == w && StillTo(w, mb / 2, ms * 2, last, size))
  }

  /** One pass, and the next round begins. */
  lemma ThroughRound(c: Config, file: seq<seq<Record>>, s: State, mb: nat, ms: nat) returns (r: State)
    requires Safe(c, file, s) && AtRoundStart(c, s, mb, ms)
    ensures s.sorted < |s.windows| && Reaches(c, s, r) && Safe(c, file, r) && r.sorted == s.sorted
    ensures |r.pcs| == |s.pcs| && forall t | 0 <= t < |r.pcs| :: r.pcs[t] == EnterRound(c, mb / 2, ms * 2)
    ensures r.windows == s.windows[s.sorted := Pass(s.windows[s.sorted], ms / RECORD_SIZE, mb / 2)]
  {
    var waiting := OnePassRun(c, file, s, mb, ms);
    r := PastBarrier(c, file, waiting);
    ReachesByGets(c, s, waiting);
    ReachesByStep(c, waiting, OpenBarrier);
    ReachesOn(c, s, waiting, r);
  }

  /** On to a later round, or to the end of the window. */
  lemma {:induction false} ThroughRounds(
    c: Config, file: seq<seq<Record>>, s: State, mb: nat, ms: nat, last: nat, size: nat) returns (r: State)
    requires Safe(c, file, s) && s.sorted < |s.windows| && StillTo(s.windows[s.sorted], mb, ms, last, size)
    requires forall t | 0 <= t < |s.pcs| :: s.pcs[t] == EnterRound(c, mb, ms)
    ensures Reaches(c, s, r) && Safe(c, file, r) && r.windows == s.windows && r.sorted == s.sorted
    ensures |r.pcs| == |s.pcs| && forall t | 0 <= t < |r.pcs| :: r.pcs[t] == EnterRound(c, last, size)
    decreases mb
  {
    hide Safe, Reaches;
    if mb == last && ms == size {
      r := s;
      ReachesItself(c, s);
    } else {
      assert AtRoundStart(c, s, mb, ms);
      var next := ThroughRound(c, file, s, mb, ms);
      assert next.windows == s.windows;
      r := ThroughRounds(c, file, next, mb / 2, ms * 2, last, size);
      ReachesOn(c, s, next, r);
    }
  }

  // ---- The windows behind the first one.

  /** A window in which all records are equal. */
  ghost predicate Dull(w: seq<Record>) {
    forall i | 0 <= i < |w| :: w[i] == Keyed(9.0)
  }

  lemma DullKept(w: seq<Record>, lo: nat, n: nat)
    requires Dull(w) && lo + 2 * n <= |w|
    ensures Splice(w, lo, PairMerged(w, lo, n)) == w
  {
    MergeLeaves(w[lo..lo + n], w[lo + n..lo + 2 * n]);
    assert w[lo..lo + n] + w[lo + n..lo + 2 * n] == w[lo..lo + 2 * n];
    assert w == w[..lo] + w[lo..lo + 2 * n] + w[lo + 2 * n..];
  }

  /** The first window is finished and the others are dull. */
  ghost predicate FirstOver(s: State) {
    && |s.pcs| > 0 && (s.sorted >= 1 || s.pcs[0].Close?)
    && forall i | 1 <= i < |s.windows| :: Dull(s.windows[i])
  }

  lemma DullMerged(s: State, t: nat, n: nat, lo: nat)
    requires t < |s.pcs| && s.pcs[t].MergePair? && s.sorted < |s.windows| && s.mapped == Some(s.sorted)
    requires n == s.pcs[t].mergedSize / RECORD_SIZE && lo == s.pcs[t].curBlock * n
    requires Dull(s.windows[s.sorted]) && lo + 2 * n <= |s.windows[s.sorted]|
    ensures DoMergePair(s, t).Ok? && DoMergePair(s, t).state.windows == s.windows
    ensures DoMergePair(s, t).state.sorted == s.sorted
  {
    var w := s.windows[s.sorted];
    DullKept(w, lo, n);
    MergesWindow(s, t, n, lo, w);
    assert s.windows[s.sorted := w] == s.windows;
  }

  lemma ClaimInside(c: Config, file: seq<seq<Record>>, s: State, t: nat, n: nat, lo: nat)
    requires Safe(c, file, s) && t < |s.pcs| && s.pcs[t].MergePair?
    requires n == s.pcs[t].mergedSize / RECORD_SIZE && lo == s.pcs[t].curBlock * n
    ensures s.sorted < |s.windows| && s.mapped == Some(s.sorted) && lo + 2 * n <= |s.windows[s.sorted]|
  {
    AtWork(c, file, s, t);
    ClaimsFit(c, file, s, t);
    PairInside(c, s.pcs[t].mergedBlocks, s.pcs[t].mergedSize, s.pcs[t].curBlock, n, lo);
  }

  lemma DullMerge(c: Config, file: seq<seq<Record>>, s: State, t: nat)
    requires Safe(c, file, s) && FirstOver(s) && t < |s.pcs| && s.pcs[t].MergePair?
    ensures DoMergePair(s, t).Ok? && DoMergePair(s, t).state.windows == s.windows
    ensures DoMergePair(s, t).state.sorted == s.sorted
  {
    var n := s.pcs[t].mergedSize / RECORD_SIZE;
    ClaimInside(c, file, s, t, n, s.pcs[t].curBlock * n);
    DullMerged(s, t, n, s.pcs[t].curBlock * n);
  }

  /** Thread 0 closes a window by counting it. */
  lemma ClosesFirst(c: Config, s: State, l: Label)
    requires l.Thread? && Exec(c, s, l).Ok? && s.pcs[0].Close?
    ensures Exec(c, s, l).state.sorted >= 1 || (|Exec(c, s, l).state.pcs| > 0 && Exec(c, s, l).state.pcs[0].Close?)
  {
  }

  lemma OutsideUnchanged(c: Config, s: State, l: Label)
    requires l.Thread? && Exec(c, s, l).Ok?
    requires !(s.pcs[l.t].SortOwn? || s.pcs[l.t].SortClaimed? || s.pcs[l.t].MergePair?)
    ensures Exec(c, s, l).state.windows == s.windows && Exec(c, s, l).state.sorted >= s.sorted
  {
  }

  lemma FirstOverThread(c: Config, file: seq<seq<Record>>, s: State, l: Label)
    requires Safe(c, file, s) && FirstOver(s) && l.Thread? && Exec(c, s, l).Ok?
    ensures FirstOver(Exec(c, s, l).state) && Exec(c, s, l).state.windows == s.windows
  {
    assert PhaseOf(s.pcs[l.t]) == PhaseOf(s.pcs[0]);
    PhaseKept(c, s, l.t, l.out);
    if s.pcs[l.t].SortOwn? || s.pcs[l.t].SortClaimed? {
      SortingUnchanged(c, file, s, l);
    } else if s.pcs[l.t].MergePair? {
      DullMerge(c, file, s, l.t);
      MergeIsStep(c, s, l);
    } else {
      OutsideUnchanged(c, s, l);
      if s.pcs[0].Close? {
        ClosesFirst(c, s, l);
      }
    }
  }

  lemma FirstOverStep(c: Config, file: seq<seq<Record>>, s: State, l: Label)
    requires Safe(c, file, s) && FirstOver(s) && Exec(c, s, l).Ok?
    ensures FirstOver(Exec(c, s, l).state) && Exec(c, s, l).state.windows == s.windows
  {
    match l
    case OpenBarrier =>
      assert Waiting(s.pcs[0]);
    case Thread(t, out) => FirstOverThread(c, file, s, l);
  }

  /** After the first window nothing changes any more, whatever the threads do. */
  lemma {:induction false} ToEnd(c: Config, file: seq<seq<Record>>, s: State) returns (end: State)
    requires Safe(c, file, s) && FirstOver(s)
    ensures Reaches(c, s, end) && AllDone(end) && end.result == Some(KWay(s.windows))
    decreases Remains(c, s).windows, Remains(c, s).phases, Remains(c, s).rewrites, Remains(c, s).free,
              Remains(c, s).steps
  {
    hide Reaches, FirstOver;
    if AllDone(s) {
      end := s;
      ReachesItself(c, s);
      assert s.pcs[0].Done?;
    } else {
      var l := SomeStep(c, file, s);
      StepSafe(c, file, s, l);
      StepDescends(c, file, s, l);
      FirstOverStep(c, file, s, l);
      var next := Exec(c, s, l).state;
      end := ToEnd(c, file, next);
      ReachesByStep(c, s, l);
      ReachesOn(c, s, next, end);
    }
  }

  // ---- Files that begin with a given window.

  function FileWith(c: Config, w: seq<Record>): seq<seq<Record>>
    requires WholeFile(c)
  {
    [w] + seq(c.sizeOfFile / c.size - 1, _ => seq(c.recsInBuffer, _ => Keyed(9.0)))
  }

  lemma FileWithIsFile(c: Config, w: seq<Record>)
    requires c.Valid() && WholeFile(c) && |w| == c.recsInBuffer
    ensures FileOf(c, FileWith(c, w)) && |FileWith(c, w)| > 0 && FileWith(c, w)[0] == w
    ensures forall i | 1 <= i < |FileWith(c, w)| :: Dull(FileWith(c, w)[i])
  {
  }

  lemma {:induction false} FrontFirst(v: seq<Record>, rest: seq<seq<Record>>)
    requires UpToNine(v)
    requires forall j | 0 <= j < |rest| :: Dull(rest[j])
    ensures |KWay([v] + rest)| >= |v| && KWay([v] + rest)[..|v|] == v
    decreases |v|
  {
    if v != [] {
      var runs: seq<seq<Record>> := [v] + rest;
      forall i | 0 <= i < |runs| && runs[i] != [] ensures v[0].timeMark <= runs[i][0].timeMark {
        assert i == 0 || Dull(rest[i - 1]);
      }
      assert Supplies(runs, |runs|, 0);
      KWayStep(runs, 0);
      assert Advance(runs, 0) == [v[1..]] + rest;
      FrontFirst(v[1..], rest);
    }
  }

  lemma SameFronts(x: seq<Record>, y: seq<Record>, v: seq<Record>, w: seq<Record>)
    requires TimeMarks(x) == TimeMarks(y) && |v| == |w| <= |x| && |w| <= |y| && x[..|v|] == v && y[..|w|] == w
    ensures TimeMarks(v) == TimeMarks(w)
  {
    MarksSliced(x, y, 0, |v|);
    assert x[0..|v|] == v && y[0..|w|] == w;
  }

  lemma FrontMarks(c: Config, v: seq<Record>, w: seq<Record>)
    requires WholeFile(c) && |v| == |w| && TimeMarks(v) != TimeMarks(w)
    requires UpToNine(v) && UpToNine(w)
    ensures TimeMarks(KWay(FileWith(c, v))) != TimeMarks(KWay(FileWith(c, w)))
  {
    var rest, x, y := FileWith(c, v)[1..], KWay(FileWith(c, v)), KWay(FileWith(c, w));
    assert FileWith(c, v) == [v] + rest && FileWith(c, w) == [w] + rest;
    FrontFirst(v, rest);
    FrontFirst(w, rest);
    if TimeMarks(x) == TimeMarks(y) {
      SameFronts(x, y, v, w);
    }
  }

  /** This calm schedule finishes and writes the merge of these windows. */
  ghost predicate Writes(c: Config, file: seq<seq<Record>>, schedule: seq<Label>, windows: seq<seq<Record>>) {
    var end := Run(c, Initial(c, file), schedule);
    CalmRun(c, Initial(c, file), schedule) && end.Ok? && AllDone(end.state) && end.state.result == Some(KWay(windows))
  }

  lemma Path(c: Config, s: State, s': State) returns (schedule: seq<Label>)
    requires Reaches(c, s, s')
    ensures CalmlyTo(c, s, schedule, s')
  {
    schedule :| CalmlyTo(c, s, schedule, s');
  }

  /** When the round in question is over, the rest of the file goes through unchanged. */
  lemma Completed(c: Config, file: seq<seq<Record>>, s: State, v: seq<Record>, mb: nat, ms: nat, size: nat)
    returns (schedule: seq<Label>)
    requires c.Valid() && WholeFile(c) && |v| == c.recsInBuffer
    requires Safe(c, file, s) && Reaches(c, Initial(c, file), s) && s.sorted == 0 && s.windows == FileWith(c, v)
    requires forall t | 0 <= t < |s.pcs| :: s.pcs[t] == WaitRound(mb, ms)
    requires StillTo(v, mb / 2, ms * 2, 1, size)
    ensures Writes(c, file, schedule, FileWith(c, v))
  {
    hide Reaches;
    FileWithIsFile(c, v);
    var next := PastBarrier(c, file, s);
    ReachesByStep(c, s, OpenBarrier);
    ReachesOn(c, Initial(c, file), s, next);
    var closing := ThroughRounds(c, file, next, mb / 2, ms * 2, 1, size);
    ReachesOn(c, Initial(c, file), next, closing);
    assert closing.pcs[0].Close?;
    var end := ToEnd(c, file, closing);
    ReachesOn(c, Initial(c, file), closing, end);
    schedule := Path(c, Initial(c, file), end);
  }

  /** The round in question begins with the window as it was in the file. */
  lemma ToRound(c: Config, w: seq<Record>, mb: nat, ms: nat) returns (r: State)
    requires c.Valid() && WholeFile(c) && |w| == c.recsInBuffer && Plain(w) && BlocksInOrder(c, w)
    requires StillTo(w, c.blocks, c.sizeOfBlock, mb, ms) && mb > 1
    ensures Reaches(c, Initial(c, FileWith(c, w)), r) && Safe(c, FileWith(c, w), r)
    ensures r.windows == FileWith(c, w) && r.sorted == 0 && AtRoundStart(c, r, mb, ms)
  {
    hide Reaches;
    var file := FileWith(c, w);
    var s := Initial(c, file);
    FileWithIsFile(c, w);
    InitialSafe(c, file);
    var first := ToFirstRound(c, file, s);
    r := ThroughRounds(c, file, first, c.blocks, c.sizeOfBlock, mb, ms);
    ReachesOn(c, s, first, r);
  }

  lemma OtherFront(c: Config, w: seq<Record>, v: seq<Record>)
    requires WholeFile(c)
    ensures FileWith(c, w)[0 := v] == FileWith(c, v) && FileWith(c, w)[0] == w
  {
  }

  lemma OncePassed(
    c: Config, w: seq<Record>, r: State, mb: nat, ms: nat, v: seq<Record>, size: nat) returns (schedule: seq<Label>)
    requires c.Valid() && WholeFile(c) && |v| == c.recsInBuffer && Safe(c, FileWith(c, w), r)
    requires Reaches(c, Initial(c, FileWith(c, w)), r)
    requires r.windows == FileWith(c, w) && r.sorted == 0 && AtRoundStart(c, r, mb, ms)
    requires v == Pass(w, ms / RECORD_SIZE, mb / 2) && StillTo(v, mb / 2, ms * 2, 1, size)
    ensures Writes(c, FileWith(c, w), schedule, FileWith(c, v))
  {
    hide Reaches, StillTo;
    OtherFront(c, w, v);
    var file := FileWith(c, w);
    var once := OnePassRun(c, file, r, mb, ms);
    ReachesByGets(c, r, once);
    ReachesOn(c, Initial(c, file), r, once);
    schedule := Completed(c, file, once, v, mb, ms, size);
  }

  lemma TwicePassed(
    c: Config, w: seq<Record>, r: State, mb: nat, ms: nat, v: seq<Record>, size: nat) returns (schedule: seq<Label>)
    requires c.Valid() && WholeFile(c) && |v| == c.recsInBuffer && Safe(c, FileWith(c, w), r) && c.threads >= 2
    requires Reaches(c, Initial(c, FileWith(c, w)), r)
    requires r.windows == FileWith(c, w) && r.sorted == 0 && AtRoundStart(c, r, mb, ms)
    requires var once := Pass(w, ms / RECORD_SIZE, mb / 2); v == Pass(once, ms / RECORD_SIZE, mb / 2)
    requires StillTo(v, mb / 2, ms * 2, 1, size)
    ensures Writes(c, FileWith(c, w), schedule, FileWith(c, v))
  {
    hide Reaches, StillTo;
    OtherFront(c, w, v);
    var file := FileWith(c, w);
    var twice := TwoPassRun(c, file, r, mb, ms);
    ReachesByGets(c, r, twice);
    ReachesOn(c, Initial(c, file), r, twice);
    schedule := Completed(c, file, twice, v, mb, ms, size);
  }

  /** Two calm schedules finish on the same file and write different time marks. */
  ghost predicate Disagree(c: Config, file: seq<seq<Record>>) {
    FileOf(c, file) && |file| > 0 && exists a, b :: !Agree(c, file, a, b)
  }

  lemma PassesDisagree(
    c: Config, w: seq<Record>, mb: nat, ms: nat, once: seq<Record>, twice: seq<Record>, size: nat, size': nat)
    requires c.Valid() && WholeFile(c) && c.threads >= 2
    requires |w| == c.recsInBuffer && Plain(w) && BlocksInOrder(c, w)
    requires mb > 1 && StillTo(w, c.blocks, c.sizeOfBlock, mb, ms)
    requires once == Pass(w, ms / RECORD_SIZE, mb / 2) && StillTo(once, mb / 2, ms * 2, 1, size)
    requires twice == Pass(once, ms / RECORD_SIZE, mb / 2) && StillTo(twice, mb / 2, ms * 2, 1, size')
    requires |once| == |twice| == |w| && TimeMarks(once) != TimeMarks(twice)
    requires UpToNine(once) && UpToNine(twice)
    ensures Disagree(c, FileWith(c, w))
  {
    hide Reaches, StillTo, Plain, BlocksInOrder;
    FileWithIsFile(c, w);
    var r := ToRound(c, w, mb, ms);
    var a := OncePassed(c, w, r, mb, ms, once, size);
    var b := TwicePassed(c, w, r, mb, ms, twice, size');
    FrontMarks(c, once, twice);
    assert !Agree(c, FileWith(c, w), a, b);
  }
}
