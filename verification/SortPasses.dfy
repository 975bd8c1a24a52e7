/** A merge round of Lab6's sort against one sequential bottom-up pass. Resets may make the threads merge a pair
    again, so a round is one pass, whatever the schedule, exactly if there is only one thread or a second pass
    would change nothing. It changes nothing where the runs are sorted. */
module SortPasses {
  import opened Options
  import opened Records
  import opened Merging
  import opened Passes
  import opened SortProtocol
  import opened SortSizes
  import opened SortInvariant
  import opened SortSafety

  lemma ChunksFront(w: seq<Record>, d: nat)
    requires 0 < d <= |w|
    ensures |Chunks(w, d)| == 1 + |Chunks(w[d..], d)| && Chunks(w, d)[0] == w[..d]
    ensures forall p | 0 <= p < |Chunks(w[d..], d)| :: Chunks(w, d)[p + 1] == Chunks(w[d..], d)[p]
  {
  }

  lemma RunsOfPair(w: seq<Record>, n: nat)
    requires 2 * n <= |w| && RunsSorted(w[..2 * n])
    ensures Sorted(w[..n]) && Sorted(w[n..2 * n])
  {
    var pair := w[..2 * n];
    assert pair[..|pair| / 2] == w[..n] && pair[|pair| / 2..] == w[n..2 * n];
  }

  lemma ChunkRunsSorted(w: seq<Record>, n: nat, k: nat)
    requires n > 0 && 0 < k <= |Chunks(w, 2 * n)| && forall p | 0 <= p < k :: RunsSorted(Chunks(w, 2 * n)[p])
    ensures |w| >= 2 * n && Sorted(w[..n]) && Sorted(w[n..2 * n]) && k - 1 <= |Chunks(w[2 * n..], 2 * n)|
    ensures forall p | 0 <= p < k - 1 :: RunsSorted(Chunks(w[2 * n..], 2 * n)[p])
  {
    ChunksFront(w, 2 * n);
    RunsOfPair(w, n);
  }

  /** Sorted runs as the pieces of a window. */
  lemma {:induction false} ChunksReady(w: seq<Record>, n: nat, k: nat)
    requires n > 0 && k <= |Chunks(w, 2 * n)| && forall p | 0 <= p < k :: RunsSorted(Chunks(w, 2 * n)[p])
    ensures Ready(w, n, k)
    decreases k
  {
    if k > 0 {
      ChunkRunsSorted(w, n, k);
      ChunksReady(w[2 * n..], n, k - 1);
    }
  }

  // ---- A round, with the number of merges of each pair as history.

  /** A pair that has been merged counts as sorted, one that has not as two sorted runs. */
  ghost function Mark(count: nat): seq<Record> {
    if count > 0 then [] else [Record(1.0, 0), Record(0.0, 0)]
  }

  ghost function Marks(counts: seq<nat>): (marks: seq<seq<Record>>)
    ensures |marks| == |counts| && forall p | 0 <= p < |counts| :: marks[p] == Mark(counts[p])
  {
    seq(|counts|, p requires 0 <= p < |counts| => Mark(counts[p]))
  }

  lemma MarksUp(counts: seq<nat>, p: nat)
    requires p < |counts|
    ensures Marks(counts)[p := []] == Marks(counts[p := counts[p] + 1])
  {
  }

  lemma MarkSays(count: nat)
    ensures RunsSorted(Mark(count))
    ensures Sorted(Mark(count)) <==> count > 0
  {
    if count == 0 {
      assert Mark(count)[0].timeMark > Mark(count)[1].timeMark;
    }
  }

  /** Since the round began with `s0`, pair `p` of the current window has been merged `counts[p]` times, and the
      table of the round takes the merged pairs for sorted. */
  ghost predicate Tracked(s0: State, s: State, mb: nat, n: nat, counts: seq<nat>)
    requires s0.sorted < |s0.windows|
  {
    && mb == 2 * |counts| && s.sorted == s0.sorted
    && s.windows == s0.windows[s0.sorted := Merged(s0.windows[s0.sorted], n, counts)]
    && RoundTable(s.pcs, s.busy, Marks(counts))
  }

  ghost predicate AtRoundStart(c: Config, s: State, mb: nat, ms: nat) {
    forall t | 0 <= t < |s.pcs| :: s.pcs[t] == Reset(mb, ms, c.blocks)
  }

  lemma TrackedStart(c: Config, file: seq<seq<Record>>, s: State, mb: nat, ms: nat)
    requires Safe(c, file, s) && AtRoundStart(c, s, mb, ms)
    ensures s.sorted < |s.windows| && mb % 2 == 0
    ensures Tracked(s, s, mb, ms / RECORD_SIZE, seq(mb / 2, _ => 0))
  {
    hide Merged;
    assert PhaseOf(s.pcs[0]) == Round(mb, ms);
    var counts := seq(mb / 2, _ => 0);
    assert forall p | 0 <= p < mb / 2 :: counts[p] == 0;
    NoneMerged(s.windows[s.sorted], ms / RECORD_SIZE, mb / 2);
    assert s.windows[s.sorted := s.windows[s.sorted]] == s.windows;
    MarkSays(0);
    assert s.pcs[0].Reset?;
    forall p | 0 <= p < mb / 2 ensures Stale(s.pcs, p, |s.busy|) {
    }
  }

  /** Where the runs of pair `p` are. */
  lemma PairPlace(c: Config, mb: nat, ms: nat, b: nat, p: nat, n: nat, lo: nat)
    requires c.Valid() && RoundSizes(c, mb, ms) && b == 2 * p && b + 2 <= mb && n == ms / RECORD_SIZE && lo == b * n
    ensures lo + 2 * n <= c.recsInBuffer && StartsAt(p, 2 * n, lo)
  {
    PairInside(c, mb, ms, b, n, lo);
    PairStart(n, b, p);
    StartsAtProduct(p, 2 * n, lo);
  }

  /** `merge` on a window of which the result is known. */
  lemma MergesWindow(s: State, t: nat, n: nat, lo: nat, u: seq<Record>)
    requires t < |s.pcs| && s.pcs[t].MergePair? && s.sorted < |s.windows| && s.mapped == Some(s.sorted)
    requires n == s.pcs[t].mergedSize / RECORD_SIZE && lo == s.pcs[t].curBlock * n
    requires MergesTo(s.windows[s.sorted], lo, n, u)
    ensures DoMergePair(s, t)
            == Ok(s.(windows := s.windows[s.sorted := u],
                     pcs := s.pcs[t := ClaimPair(s.pcs[t].mergedBlocks, s.pcs[t].mergedSize)]))
  {
    MergePairState(s, t, n, lo, s.sorted);
  }

  lemma WindowMergedOnce(s: State, t: nat, w: seq<Record>, counts: seq<nat>, p: nat, n: nat, lo: nat)
    requires t < |s.pcs| && s.pcs[t].MergePair? && s.sorted < |s.windows| && s.mapped == Some(s.sorted)
    requires s.windows[s.sorted] == Merged(w, n, counts) && p < |counts|
    requires n == s.pcs[t].mergedSize / RECORD_SIZE && lo == s.pcs[t].curBlock * n && StartsAt(p, 2 * n, lo)
    requires lo + 2 * n <= |s.windows[s.sorted]|
    ensures DoMergePair(s, t)
            == Ok(s.(windows := s.windows[s.sorted := Merged(w, n, counts[p := counts[p] + 1])],
                     pcs := s.pcs[t := ClaimPair(s.pcs[t].mergedBlocks, s.pcs[t].mergedSize)]))
  {
    MergedOnce(w, n, counts, counts[p := counts[p] + 1], p, lo);
    MergesWindow(s, t, n, lo, Merged(w, n, counts[p := counts[p] + 1]));
  }

  lemma TrackedAt(s0: State, s: State, t: nat, mb: nat, ms: nat, counts: seq<nat>, p: nat, n: nat, lo: nat)
    requires t < |s.pcs| && IsToMerge(s.pcs[t], p) && s.pcs[t].mergedBlocks == mb && s.pcs[t].mergedSize == ms
    requires s0.sorted < |s0.windows| && Tracked(s0, s, mb, n, counts) && p < |counts| && s.mapped == Some(s.sorted)
    requires n == ms / RECORD_SIZE && lo == s.pcs[t].curBlock * n && StartsAt(p, 2 * n, lo)
    requires lo + 2 * n <= |s.windows[s.sorted]|
    ensures DoMergePair(s, t).Ok?
    ensures Tracked(s0, DoMergePair(s, t).state, mb, n, counts[p := counts[p] + 1])
  {
    WindowMergedOnce(s, t, s0.windows[s0.sorted], counts, p, n, lo);
    TableAfterMerge(s.pcs, s.busy, Marks(counts), t, p, ClaimPair(mb, ms), []);
    MarksUp(counts, p);
  }

  lemma TrackedMerge(
    c: Config, file: seq<seq<Record>>, s0: State, s: State, t: nat, mb: nat, ms: nat, counts: seq<nat>, p: nat)
    requires Safe(c, file, s) && t < |s.pcs| && PhaseOf(s.pcs[0]) == Round(mb, ms) && IsToMerge(s.pcs[t], p)
    requires s0.sorted < |s0.windows| && Tracked(s0, s, mb, ms / RECORD_SIZE, counts) && p < |counts|
    ensures DoMergePair(s, t).Ok?
    ensures Tracked(s0, DoMergePair(s, t).state, mb, ms / RECORD_SIZE, counts[p := counts[p] + 1])
  {
    assert PhaseOf(s.pcs[t]) == PhaseOf(s.pcs[0]);
    var n, b := ms / RECORD_SIZE, s.pcs[t].curBlock;
    PairPlace(c, mb, ms, b, p, n, b * n);
    TrackedAt(s0, s, t, mb, ms, counts, p, n, b * n);
  }

  lemma TrackedTable(c: Config, file: seq<seq<Record>>, s0: State, s: State, t: nat, mb: nat, ms: nat, counts: seq<nat>)
    requires Safe(c, file, s) && t < |s.pcs| && PhaseOf(s.pcs[0]) == Round(mb, ms)
    requires s0.sorted < |s0.windows| && Tracked(s0, s, mb, ms / RECORD_SIZE, counts)
    requires s.pcs[t].Reset? || (s.pcs[t].ClaimPair? && Calm(c, s, Thread(t, [])))
    ensures ExecThread(c, s, t, []).Ok? && Tracked(s0, ExecThread(c, s, t, []).state, mb, ms / RECORD_SIZE, counts)
  {
    assert PhaseOf(s.pcs[t]) == PhaseOf(s.pcs[0]);
    var marks := Marks(counts);
    assert ResetFits(s.pcs[t], s.busy);
    if s.pcs[t].ClaimPair? {
      TableAfterClaimPair(s.pcs, s.busy, marks, t, mb, ms);
    } else if s.pcs[t].left == 0 {
      TableAfterWholeReset(s.pcs, s.busy, marks, t, ClaimPair(mb, ms));
    } else {
      ResetStores(c, s, t, marks);
    }
  }

  /** What a step adds to the history. */
  ghost function CountsAfter(s: State, l: Label, counts: seq<nat>): seq<nat> {
    if l.Thread? && l.t < |s.pcs| && s.pcs[l.t].MergePair? && s.pcs[l.t].curBlock / 2 < |counts|
    then counts[s.pcs[l.t].curBlock / 2 := counts[s.pcs[l.t].curBlock / 2] + 1] else counts
  }

  lemma CountsAfterMerge(s: State, l: Label, counts: seq<nat>, p: nat)
    requires l.Thread? && l.t < |s.pcs| && IsToMerge(s.pcs[l.t], p) && p < |counts|
    ensures CountsAfter(s, l, counts) == counts[p := counts[p] + 1]
  {
  }

  lemma ClaimedPair(pcs: seq<Pc>, busy: seq<int>, counts: seq<nat>, t: nat) returns (p: nat)
    requires RoundTable(pcs, busy, Marks(counts)) && t < |pcs| && pcs[t].MergePair?
    ensures IsToMerge(pcs[t], p) && p < |counts|
  {
    assert ClaimInRound(pcs[t], 2 * |Marks(counts)|);
    p := pcs[t].curBlock / 2;
  }

  lemma MergeIsStep(c: Config, s: State, l: Label)
    requires l.Thread? && l.t < |s.pcs| && s.pcs[l.t].MergePair?
    ensures Exec(c, s, l) == DoMergePair(s, l.t)
  {
  }

  /** Only calls of `qsort` look at what `qsort` leaves. */
  lemma OutIgnored(c: Config, s: State, t: nat, out: seq<Record>)
    requires t < |s.pcs| && PhaseOf(s.pcs[t]).Round?
    ensures ExecThread(c, s, t, out) == ExecThread(c, s, t, [])
    ensures Calm(c, s, Thread(t, out)) ==> Calm(c, s, Thread(t, []))
  {
  }

  lemma TrackedMergeStep(
    c: Config, file: seq<seq<Record>>, s0: State, s: State, l: Label, mb: nat, ms: nat, counts: seq<nat>)
    requires Safe(c, file, s) && PhaseOf(s.pcs[0]) == Round(mb, ms)
    requires l.Thread? && l.t < |s.pcs| && s.pcs[l.t].MergePair?
    requires s0.sorted < |s0.windows| && Tracked(s0, s, mb, ms / RECORD_SIZE, counts)
    ensures Exec(c, s, l).Ok? && Tracked(s0, Exec(c, s, l).state, mb, ms / RECORD_SIZE, CountsAfter(s, l, counts))
  {
    var p := ClaimedPair(s.pcs, s.busy, counts, l.t);
    CountsAfterMerge(s, l, counts, p);
    MergeIsStep(c, s, l);
    TrackedMerge(c, file, s0, s, l.t, mb, ms, counts, p);
  }

  lemma TrackedTableStep(
    c: Config, file: seq<seq<Record>>, s0: State, s: State, l: Label, mb: nat, ms: nat, counts: seq<nat>)
    requires Safe(c, file, s) && PhaseOf(s.pcs[0]) == Round(mb, ms) && Calm(c, s, l)
    requires l.Thread? && l.t < |s.pcs| && (s.pcs[l.t].Reset? || s.pcs[l.t].ClaimPair?)
    requires s0.sorted < |s0.windows| && Tracked(s0, s, mb, ms / RECORD_SIZE, counts)
    ensures Exec(c, s, l).Ok? && Tracked(s0, Exec(c, s, l).state, mb, ms / RECORD_SIZE, CountsAfter(s, l, counts))
  {
    OutIgnored(c, s, l.t, l.out);
    TrackedTable(c, file, s0, s, l.t, mb, ms, counts);
  }

  lemma TrackedStep(
    c: Config, file: seq<seq<Record>>, s0: State, s: State, l: Label, mb: nat, ms: nat, counts: seq<nat>)
    requires Safe(c, file, s) && PhaseOf(s.pcs[0]) == Round(mb, ms) && l.Thread? && Calm(c, s, l) && Exec(c, s, l).Ok?
    requires s0.sorted < |s0.windows| && Tracked(s0, s, mb, ms / RECORD_SIZE, counts)
    ensures Tracked(s0, Exec(c, s, l).state, mb, ms / RECORD_SIZE, CountsAfter(s, l, counts))
  {
    assert PhaseOf(s.pcs[l.t]) == PhaseOf(s.pcs[0]);
    if s.pcs[l.t].MergePair? {
      TrackedMergeStep(c, file, s0, s, l, mb, ms, counts);
    } else if !s.pcs[l.t].WaitRound? {
      TrackedTableStep(c, file, s0, s, l, mb, ms, counts);
    }
  }

  /** With a single thread no pair is merged twice. */
  ghost predicate OnceEach(pc: Pc, busy: seq<int>, counts: seq<nat>)
    requires 2 * |counts| <= |busy|
  {
    if pc.Reset? then forall p | 0 <= p < |counts| :: counts[p] == 0
    else
      forall p | 0 <= p < |counts| ::
        && counts[p] <= 1
        && (counts[p] == 1 ==> busy[2 * p] != -1)
        && (IsToMerge(pc, p) ==> counts[p] == 0 && busy[2 * p] != -1)
  }

  lemma OnceEachStep(c: Config, file: seq<seq<Record>>, s: State, l: Label, mb: nat, ms: nat, counts: seq<nat>)
    requires Safe(c, file, s) && PhaseOf(s.pcs[0]) == Round(mb, ms) && l.Thread? && Exec(c, s, l).Ok?
    requires c.threads == 1 && mb == 2 * |counts| && OnceEach(s.pcs[0], s.busy, counts)
    requires forall p | 0 <= p < |counts| :: Paired(s.busy, p)
    ensures var s' := Exec(c, s, l).state;
            |s'.busy| == |s.busy| && |s'.pcs| == 1 && OnceEach(s'.pcs[0], s'.busy, CountsAfter(s, l, counts))
  {
    FirstFreeEven(s.busy, |counts|);
  }

  lemma {:induction false} TrackedRun(
    c: Config, file: seq<seq<Record>>, s0: State, s: State, schedule: seq<Label>, mb: nat, ms: nat, counts: seq<nat>)
    returns (after: seq<nat>)
    requires Safe(c, file, s) && PhaseOf(s.pcs[0]) == Round(mb, ms)
    requires CalmRun(c, s, schedule) && Run(c, s, schedule).Ok? && forall l | l in schedule :: l.Thread?
    requires s0.sorted < |s0.windows| && Tracked(s0, s, mb, ms / RECORD_SIZE, counts)
    requires c.threads == 1 ==> OnceEach(s.pcs[0], s.busy, counts)
    ensures var end := Run(c, s, schedule).state;
            && Safe(c, file, end) && PhaseOf(end.pcs[0]) == Round(mb, ms)
            && |after| == |counts| && Tracked(s0, end, mb, ms / RECORD_SIZE, after)
            && (c.threads == 1 ==> OnceEach(end.pcs[0], end.busy, after))
    decreases |schedule|
  {
    after := counts;
    if schedule != [] {
      var l := schedule[0];
      assert l in schedule;
      StepSafe(c, file, s, l);
      TrackedStep(c, file, s0, s, l, mb, ms, counts);
      if c.threads == 1 {
        OnceEachStep(c, file, s, l, mb, ms, counts);
      }
      PhaseKept(c, s, l.t, l.out);
      after := TrackedRun(c, file, s0, Exec(c, s, l).state, schedule[1..], mb, ms, CountsAfter(s, l, counts));
    }
  }

  /** When all threads wait, every pair has been merged, which makes one pass. */
  lemma RoundMerged(c: Config, s0: State, s: State, mb: nat, ms: nat, counts: seq<nat>)
    requires s0.sorted < |s0.windows| && Tracked(s0, s, mb, ms / RECORD_SIZE, counts)
    requires |s.pcs| > 0 && forall t | 0 <= t < |s.pcs| :: s.pcs[t] == WaitRound(mb, ms)
    requires c.threads == 1 ==> OnceEach(s.pcs[0], s.busy, counts)
    requires c.threads == 1 || SecondPassIdle(s0.windows[s0.sorted], ms / RECORD_SIZE, mb / 2)
    ensures s.windows == s0.windows[s0.sorted := Pass(s0.windows[s0.sorted], ms / RECORD_SIZE, mb / 2)]
  {
    RoundComplete(s.pcs, s.busy, Marks(counts));
    forall p | 0 <= p < |counts| ensures counts[p] >= 1 {
      MarkSays(counts[p]);
    }
    if c.threads == 1 {
      assert counts == seq(mb / 2, _ => 1);
      PassIsOnce(s0.windows[s0.sorted], ms / RECORD_SIZE, mb / 2);
    } else {
      IdleMerged(s0.windows[s0.sorted], ms / RECORD_SIZE, counts);
    }
  }

  /** If the schedule leads calmly from one barrier of the round to the other, the round was one sequential pass. */
  ghost predicate IsOnePass(c: Config, s: State, schedule: seq<Label>, mb: nat, ms: nat)
    requires s.sorted < |s.windows|
  {
    var end := Run(c, s, schedule);
    CalmRun(c, s, schedule) && end.Ok? && (forall l | l in schedule :: l.Thread?)
    && (forall t | 0 <= t < |end.state.pcs| :: end.state.pcs[t] == WaitRound(mb, ms)) ==>
      end.state.windows == s.windows[s.sorted := Pass(s.windows[s.sorted], ms / RECORD_SIZE, mb / 2)]
  }

  lemma RoundIsPass(c: Config, file: seq<seq<Record>>, s: State, schedule: seq<Label>, mb: nat, ms: nat)
    requires Safe(c, file, s) && AtRoundStart(c, s, mb, ms) && s.sorted < |s.windows|
    requires c.threads == 1 || SecondPassIdle(s.windows[s.sorted], ms / RECORD_SIZE, mb / 2)
    ensures IsOnePass(c, s, schedule, mb, ms)
  {
    var end := Run(c, s, schedule);
    if CalmRun(c, s, schedule) && end.Ok? && (forall l | l in schedule :: l.Thread?)
       && (forall t | 0 <= t < |end.state.pcs| :: end.state.pcs[t] == WaitRound(mb, ms)) {
      assert PhaseOf(s.pcs[0]) == Round(mb, ms);
      TrackedStart(c, file, s, mb, ms);
      var counts := TrackedRun(c, file, s, s, schedule, mb, ms, seq(mb / 2, _ => 0));
      RoundMerged(c, s, end.state, mb, ms, counts);
    }
  }

  // ---- A schedule that makes two passes.

  ghost predicate Leads(c: Config, s: State, schedule: seq<Label>, s': State) {
    CalmRun(c, s, schedule) && (forall l | l in schedule :: l.Thread?) && Run(c, s, schedule) == Ok(s')
  }

  /** Some calm schedule of thread steps leads from one state to the other. */
  ghost predicate Gets(c: Config, s: State, s': State) {
    exists schedule :: Leads(c, s, schedule, s')
  }

  lemma {:induction false} RunConcat(c: Config, s: State, a: seq<Label>, b: seq<Label>)
    requires Run(c, s, a).Ok? && CalmRun(c, s, a) && CalmRun(c, Run(c, s, a).state, b)
    ensures Run(c, s, a + b) == Run(c, Run(c, s, a).state, b) && CalmRun(c, s, a + b)
    decreases |a|
  {
    if a == [] {
      assert a + b == b;
    } else {
      assert (a + b)[1..] == a[1..] + b;
      RunConcat(c, Exec(c, s, a[0]).state, a[1..], b);
    }
  }

  lemma GetsItself(c: Config, s: State)
    ensures Gets(c, s, s)
  {
    assert Leads(c, s, [], s);
  }

  lemma GetsStep(c: Config, s: State, t: nat)
    requires t < |s.pcs| && ExecThread(c, s, t, []).Ok? && Calm(c, s, Thread(t, []))
    ensures Gets(c, s, ExecThread(c, s, t, []).state)
  {
    var s', l := ExecThread(c, s, t, []).state, Thread(t, []);
    assert Run(c, s', []) == Ok(s') && CalmRun(c, s', []);
    assert [l][1..] == [];
    assert Run(c, s, [l]) == Ok(s') && CalmRun(c, s, [l]);
    assert Leads(c, s, [l], s');
  }

  lemma GetsOn(c: Config, s: State, t: State, u: State)
    requires Gets(c, s, t) && Gets(c, t, u)
    ensures Gets(c, s, u)
  {
    var a :| Leads(c, s, a, t);
    var b :| Leads(c, t, b, u);
    RunConcat(c, s, a, b);
    assert Leads(c, s, a + b, u);
  }

  /** A state of the round that began with `s0`: each pair has been merged as often as `counts` says. */
  ghost predicate During(c: Config, file: seq<seq<Record>>, s0: State, s: State, mb: nat, ms: nat, counts: seq<nat>) {
    && Safe(c, file, s) && PhaseOf(s.pcs[0]) == Round(mb, ms)
    && s0.sorted < |s0.windows| && Tracked(s0, s, mb, ms / RECORD_SIZE, counts)
  }

  /** What a step of a round does to the table and to the program counters. */
  ghost predicate Effect(c: Config, s: State, t: nat, s': State)
    requires t < |s.pcs|
  {
    |s'.pcs| == |s.pcs| && |s'.busy| == |s.busy| &&
    match s.pcs[t]
    case Reset(mb, ms, left) =>
      if left == 0 then s'.busy == s.busy && s'.pcs == s.pcs[t := ClaimPair(mb, ms)]
      else
        && left <= c.blocks <= |s.busy| && s'.busy == s.busy[c.blocks - left := -1]
        && s'.pcs == s.pcs[t := Reset(mb, ms, left - 1)]
    case ClaimPair(mb, ms) =>
      && mb <= |s.busy|
      && var cur := FirstFree(s.busy, 0, mb);
         if cur == mb then s'.busy == s.busy && s'.pcs == s.pcs[t := WaitRound(mb, ms)]
         else
           && cur + 1 < |s.busy| && s'.busy == s.busy[cur := t][cur + 1 := t]
           && s'.pcs == s.pcs[t := MergePair(mb, ms, cur)]
    case MergePair(mb, ms, _) => s'.busy == s.busy && s'.pcs == s.pcs[t := ClaimPair(mb, ms)]
    case _ => true
  }

  lemma StepEffect(c: Config, s: State, t: nat)
    requires t < |s.pcs| && ExecThread(c, s, t, []).Ok? && PhaseOf(s.pcs[t]).Round?
    ensures Effect(c, s, t, ExecThread(c, s, t, []).state)
  {
  }

  lemma DuringStep(
    c: Config, file: seq<seq<Record>>, s0: State, s: State, t: nat, mb: nat, ms: nat, counts: seq<nat>)
    returns (s': State)
    requires During(c, file, s0, s, mb, ms, counts) && t < |s.pcs| && !s.pcs[t].WaitRound?
    requires Calm(c, s, Thread(t, []))
    ensures Gets(c, s, s') && Effect(c, s, t, s')
    ensures During(c, file, s0, s', mb, ms, CountsAfter(s, Thread(t, []), counts))
  {
    assert PhaseOf(s.pcs[t]) == PhaseOf(s.pcs[0]);
    if s.pcs[t].MergePair? {
      TrackedMergeStep(c, file, s0, s, Thread(t, []), mb, ms, counts);
    } else {
      TrackedTable(c, file, s0, s, t, mb, ms, counts);
    }
    s' := ExecThread(c, s, t, []).state;
    StepSafe(c, file, s, Thread(t, []));
    TrackedStep(c, file, s0, s, Thread(t, []), mb, ms, counts);
    PhaseKept(c, s, t, []);
    GetsStep(c, s, t);
    StepEffect(c, s, t);
  }

  lemma {:induction false} ResetOne(
    c: Config, file: seq<seq<Record>>, s0: State, s: State, t: nat, mb: nat, ms: nat, counts: seq<nat>, left: nat)
    returns (s': State)
    requires During(c, file, s0, s, mb, ms, counts) && t < |s.pcs|
    requires s.pcs[t] == Reset(mb, ms, left) && left <= c.blocks
    ensures Gets(c, s, s') && During(c, file, s0, s', mb, ms, counts)
    ensures s'.pcs == s.pcs[t := ClaimPair(mb, ms)] && |s'.busy| == |s.busy| == c.blocks
    ensures forall i | 0 <= i < c.blocks :: s'.busy[i] == if i < c.blocks - left then s.busy[i] else -1
    decreases left
  {
    var next := DuringStep(c, file, s0, s, t, mb, ms, counts);
    if left == 0 {
      s' := next;
    } else {
      s' := ResetOne(c, file, s0, next, t, mb, ms, counts, left - 1);
      GetsOn(c, s, next, s');
      assert s'.pcs == s.pcs[t := ClaimPair(mb, ms)];
    }
  }

  /** All threads but `late` have reset the table, those before `k` so far. */
  ghost predicate ResetBefore(c: Config, s: State, mb: nat, ms: nat, k: nat, late: nat) {
    && |s.pcs| == c.threads && |s.busy| == c.blocks
    && (forall u | 0 <= u < |s.pcs| ::
          s.pcs[u] == if u < k && u != late then ClaimPair(mb, ms) else Reset(mb, ms, c.blocks))
    && (k > 0 ==> forall i | 0 <= i < c.blocks :: s.busy[i] == -1)
  }

  lemma {:induction false} ResetOthers(
    c: Config, file: seq<seq<Record>>, s0: State, s: State, mb: nat, ms: nat, counts: seq<nat>, k: nat, late: nat)
    returns (s': State)
    requires During(c, file, s0, s, mb, ms, counts) && late > 0
    requires k <= c.threads && ResetBefore(c, s, mb, ms, k, late)
    ensures Gets(c, s, s') && During(c, file, s0, s', mb, ms, counts) && ResetBefore(c, s', mb, ms, c.threads, late)
    decreases c.threads - k
  {
    if k == c.threads {
      s' := s;
      GetsItself(c, s);
    } else if k == late {
      s' := ResetOthers(c, file, s0, s, mb, ms, counts, k + 1, late);
    } else {
      var next := ResetOne(c, file, s0, s, k, mb, ms, counts, c.blocks);
      s' := ResetOthers(c, file, s0, next, mb, ms, counts, k + 1, late);
      GetsOn(c, s, next, s');
    }
  }

  /** No thread is in the middle of its reset. */
  ghost predicate NoneResetting(c: Config, s: State) {
    forall u | 0 <= u < |s.pcs| && s.pcs[u].Reset? :: s.pcs[u].left == c.blocks
  }

  lemma CalmHere(c: Config, s: State, t: nat)
    requires NoneResetting(c, s)
    ensures Calm(c, s, Thread(t, []))
  {
  }

  lemma ClaimTurn(
    c: Config, file: seq<seq<Record>>, s0: State, s: State, t: nat, mb: nat, ms: nat, counts: seq<nat>, cur: nat)
    returns (s': State)
    requires During(c, file, s0, s, mb, ms, counts) && t < |s.pcs| && s.pcs[t] == ClaimPair(mb, ms)
    requires NoneResetting(c, s) && cur + 1 < mb <= |s.busy|
    requires NoneFree(s.busy, cur) && s.busy[cur] == -1
    ensures Gets(c, s, s') && During(c, file, s0, s', mb, ms, counts)
    ensures s'.pcs == s.pcs[t := MergePair(mb, ms, cur)] && s'.busy == s.busy[cur := t][cur + 1 := t]
  {
    assert FirstFree(s.busy, 0, mb) == cur;
    CalmHere(c, s, t);
    s' := DuringStep(c, file, s0, s, t, mb, ms, counts);
  }

  lemma BackAgain(pcs: seq<Pc>, t: nat, away: Pc, back: Pc)
    requires t < |pcs| && pcs[t] == back
    ensures pcs[t := away][t := back] == pcs
  {
  }

  lemma MergeTurn(
    c: Config, file: seq<seq<Record>>, s0: State, s: State, t: nat, mb: nat, ms: nat, counts: seq<nat>, p: nat)
    returns (s': State)
    requires During(c, file, s0, s, mb, ms, counts) && t < |s.pcs|
    requires s.pcs[t] == MergePair(mb, ms, 2 * p) && p < |counts|
    ensures Gets(c, s, s') && During(c, file, s0, s', mb, ms, counts[p := counts[p] + 1])
    ensures s'.pcs == s.pcs[t := ClaimPair(mb, ms)] && s'.busy == s.busy
  {
    s' := DuringStep(c, file, s0, s, t, mb, ms, counts);
    CountsAfterMerge(s, Thread(t, []), counts, p);
  }

  lemma ClaimAndMerge(
    c: Config, file: seq<seq<Record>>, s0: State, s: State, t: nat, mb: nat, ms: nat, counts: seq<nat>, p: nat)
    returns (s': State)
    requires During(c, file, s0, s, mb, ms, counts) && t < |s.pcs| && s.pcs[t] == ClaimPair(mb, ms)
    requires NoneResetting(c, s) && p < |counts| && 2 * p + 1 < mb <= |s.busy|
    requires NoneFree(s.busy, 2 * p) && s.busy[2 * p] == -1
    ensures Gets(c, s, s') && During(c, file, s0, s', mb, ms, counts[p := counts[p] + 1])
    ensures s'.pcs == s.pcs && s'.busy == s.busy[2 * p := t][2 * p + 1 := t]
  {
    var claimed := ClaimTurn(c, file, s0, s, t, mb, ms, counts, 2 * p);
    s' := MergeTurn(c, file, s0, claimed, t, mb, ms, counts, p);
    BackAgain(s.pcs, t, MergePair(mb, ms, 2 * p), ClaimPair(mb, ms));
    GetsOn(c, s, claimed, s');
  }

  lemma NoneLeft(
    c: Config, file: seq<seq<Record>>, s0: State, s: State, t: nat, mb: nat, ms: nat, counts: seq<nat>)
    returns (s': State)
    requires During(c, file, s0, s, mb, ms, counts) && t < |s.pcs| && s.pcs[t] == ClaimPair(mb, ms)
    requires NoneResetting(c, s) && mb <= |s.busy| && NoneFree(s.busy, mb)
    ensures Gets(c, s, s') && During(c, file, s0, s', mb, ms, counts)
    ensures s'.pcs == s.pcs[t := WaitRound(mb, ms)] && s'.busy == s.busy
  {
    assert FirstFree(s.busy, 0, mb) == mb;
    CalmHere(c, s, t);
    s' := DuringStep(c, file, s0, s, t, mb, ms, counts);
  }

  /** Thread `t` merges all pairs from `p` on. */
  lemma {:induction false} MergeRest(
    c: Config, file: seq<seq<Record>>, s0: State, s: State, t: nat, mb: nat, ms: nat, counts: seq<nat>, p: nat)
    returns (s': State, after: seq<nat>)
    requires During(c, file, s0, s, mb, ms, counts) && t < |s.pcs| && s.pcs[t] == ClaimPair(mb, ms)
    requires NoneResetting(c, s) && p <= |counts| && mb == 2 * |counts| <= |s.busy|
    requires NoneFree(s.busy, 2 * p) && forall i | 2 * p <= i < mb :: s.busy[i] == -1
    ensures Gets(c, s, s') && During(c, file, s0, s', mb, ms, after)
    ensures |after| == |counts|
    ensures forall i | 0 <= i < |counts| :: after[i] == if i < p then counts[i] else counts[i] + 1
    ensures s'.pcs == s.pcs[t := WaitRound(mb, ms)] && |s'.busy| == |s.busy| && NoneFree(s'.busy, mb)
    decreases |counts| - p
  {
    hide During;
    if p == |counts| {
      s' := NoneLeft(c, file, s0, s, t, mb, ms, counts);
      after := counts;
    } else {
      var next := ClaimAndMerge(c, file, s0, s, t, mb, ms, counts, p);
      s', after := MergeRest(c, file, s0, next, t, mb, ms, counts[p := counts[p] + 1], p + 1);
      GetsOn(c, s, next, s');
    }
  }

  /** With nothing free the threads from `k` on go to wait. */
  lemma {:induction false} RestWait(
    c: Config, file: seq<seq<Record>>, s0: State, s: State, mb: nat, ms: nat, counts: seq<nat>, k: nat)
    returns (s': State)
    requires During(c, file, s0, s, mb, ms, counts) && k <= |s.pcs| && mb <= |s.busy| && NoneFree(s.busy, mb)
    requires forall u | 0 <= u < |s.pcs| :: s.pcs[u] == WaitRound(mb, ms) || (u >= k && s.pcs[u] == ClaimPair(mb, ms))
    ensures Gets(c, s, s') && During(c, file, s0, s', mb, ms, counts)
    ensures |s'.pcs| == |s.pcs| && forall u | 0 <= u < |s'.pcs| :: s'.pcs[u] == WaitRound(mb, ms)
    decreases |s.pcs| - k
  {
    if k == |s.pcs| {
      s' := s;
      GetsItself(c, s);
    } else if s.pcs[k].WaitRound? {
      s' := RestWait(c, file, s0, s, mb, ms, counts, k + 1);
    } else {
      assert FirstFree(s.busy, 0, mb) == mb;
      var next := DuringStep(c, file, s0, s, k, mb, ms, counts);
      assert next.pcs == s.pcs[k := WaitRound(mb, ms)] && next.busy == s.busy;
      s' := RestWait(c, file, s0, next, mb, ms, counts, k + 1);
      GetsOn(c, s, next, s');
    }
  }

  /** All threads but `late` reset the table, and thread 0 merges all pairs. */
  lemma FirstPassRun(c: Config, file: seq<seq<Record>>, s: State, mb: nat, ms: nat, late: nat)
    returns (s': State, counts: seq<nat>)
    requires Safe(c, file, s) && AtRoundStart(c, s, mb, ms) && late > 0
    ensures Gets(c, s, s') && During(c, file, s, s', mb, ms, counts)
    ensures mb == 2 * |counts| && forall p | 0 <= p < |counts| :: counts[p] == 1
    ensures |s'.pcs| == c.threads && |s'.busy| == c.blocks && mb <= c.blocks && NoneFree(s'.busy, mb)
    ensures forall u | 0 <= u < c.threads ::
              s'.pcs[u] == if u == 0 then WaitRound(mb, ms)
                           else if u == late then Reset(mb, ms, c.blocks) else ClaimPair(mb, ms)
  {
    var zero := seq(mb / 2, _ => 0);
    TrackedStart(c, file, s, mb, ms);
    assert PhaseOf(s.pcs[0]) == Round(mb, ms);
    var reset := ResetOthers(c, file, s, s, mb, ms, zero, 0, late);
    s', counts := MergeRest(c, file, s, reset, 0, mb, ms, zero, 0);
    GetsOn(c, s, reset, s');
  }

  /** What the history says of the windows. */
  lemma WindowsOf(c: Config, file: seq<seq<Record>>, s0: State, s: State, mb: nat, ms: nat, counts: seq<nat>, b: nat)
    requires During(c, file, s0, s, mb, ms, counts) && forall p | 0 <= p < |counts| :: counts[p] == b
    ensures s.sorted == s0.sorted && Safe(c, file, s)
    ensures s.windows == s0.windows[s0.sorted := Merged(s0.windows[s0.sorted], ms / RECORD_SIZE, seq(mb / 2, _ => b))]
  {
    assert counts == seq(mb / 2, _ => b);
  }

  /** All reset, thread 0 merges all pairs, and the others find none. */
  lemma OnePassRun(c: Config, file: seq<seq<Record>>, s: State, mb: nat, ms: nat) returns (s': State)
    requires Safe(c, file, s) && AtRoundStart(c, s, mb, ms)
    ensures s.sorted < |s.windows| && Gets(c, s, s') && Safe(c, file, s') && s'.sorted == s.sorted
    ensures forall u | 0 <= u < |s'.pcs| :: s'.pcs[u] == WaitRound(mb, ms)
    ensures s'.windows == s.windows[s.sorted := Pass(s.windows[s.sorted], ms / RECORD_SIZE, mb / 2)]
  {
    var merged, counts := FirstPassRun(c, file, s, mb, ms, c.threads);
    s' := RestWait(c, file, s, merged, mb, ms, counts, 0);
    GetsOn(c, s, merged, s');
    WindowsOf(c, file, s, s', mb, ms, counts, 1);
    PassIsOnce(s.windows[s.sorted], ms / RECORD_SIZE, mb / 2);
  }

  /** Thread 1 resets the table again and merges all pairs again. */
  lemma MergeAgain(c: Config, file: seq<seq<Record>>, s0: State, s: State, mb: nat, ms: nat, counts: seq<nat>)
    returns (s': State, after: seq<nat>)
    requires During(c, file, s0, s, mb, ms, counts) && c.threads >= 2 && mb == 2 * |counts| <= |s.busy|
    requires s.pcs[1] == Reset(mb, ms, c.blocks) && NoneResetting(c, s)
    ensures Gets(c, s, s') && During(c, file, s0, s', mb, ms, after)
    ensures |after| == |counts| && forall p | 0 <= p < |counts| :: after[p] == counts[p] + 1
    ensures s'.pcs == s.pcs[1 := ClaimPair(mb, ms)][1 := WaitRound(mb, ms)] && mb <= |s'.busy| && NoneFree(s'.busy, mb)
  {
    var again := ResetOne(c, file, s0, s, 1, mb, ms, counts, c.blocks);
    s', after := MergeRest(c, file, s0, again, 1, mb, ms, counts, 0);
    GetsOn(c, s, again, s');
  }

  /** Thread 1 resets only when thread 0 has merged all pairs, and merges them all again. */
  lemma TwoPassRun(c: Config, file: seq<seq<Record>>, s: State, mb: nat, ms: nat) returns (s': State)
    requires Safe(c, file, s) && AtRoundStart(c, s, mb, ms) && c.threads >= 2
    ensures s.sorted < |s.windows| && Gets(c, s, s') && Safe(c, file, s') && s'.sorted == s.sorted
    ensures forall u | 0 <= u < |s'.pcs| :: s'.pcs[u] == WaitRound(mb, ms)
    ensures var once := Pass(s.windows[s.sorted], ms / RECORD_SIZE, mb / 2);
            s'.windows == s.windows[s.sorted := Pass(once, ms / RECORD_SIZE, mb / 2)]
  {
    var merged, one := FirstPassRun(c, file, s, mb, ms, 1);
    var twice, two := MergeAgain(c, file, s, merged, mb, ms, one);
    s' := RestWait(c, file, s, twice, mb, ms, two, 0);
    GetsOn(c, s, merged, twice);
    GetsOn(c, s, twice, s');
    WindowsOf(c, file, s, s', mb, ms, two, 2);
    SecondPassIsTwice(s.windows[s.sorted], ms / RECORD_SIZE, mb / 2);
  }

  ghost predicate AlwaysOnePass(c: Config, s: State, mb: nat, ms: nat)
    requires s.sorted < |s.windows|
  {
    forall schedule :: IsOnePass(c, s, schedule, mb, ms)
  }

  /** However threads interleave between the barriers of a round, the round is one sequential pass, if and only if
      there is only one thread or a second pass would change nothing. */
  lemma RoundIsPassExactly(c: Config, file: seq<seq<Record>>, s: State, mb: nat, ms: nat)
    requires Safe(c, file, s) && AtRoundStart(c, s, mb, ms)
    ensures s.sorted < |s.windows|
    ensures AlwaysOnePass(c, s, mb, ms) <==>
              c.threads == 1 || SecondPassIdle(s.windows[s.sorted], ms / RECORD_SIZE, mb / 2)
  {
    assert PhaseOf(s.pcs[0]) == Round(mb, ms);
    if c.threads == 1 || SecondPassIdle(s.windows[s.sorted], ms / RECORD_SIZE, mb / 2) {
      forall schedule ensures IsOnePass(c, s, schedule, mb, ms) {
        RoundIsPass(c, file, s, schedule, mb, ms);
      }
    } else {
      var s' := TwoPassRun(c, file, s, mb, ms);
      var schedule :| Leads(c, s, schedule, s');
      assert s'.windows[s.sorted] != Pass(s.windows[s.sorted], ms / RECORD_SIZE, mb / 2);
      assert !IsOnePass(c, s, schedule, mb, ms);
    }
  }

  /** Where the blocks fit, the runs are sorted, so every round is one sequential pass, whatever the schedule. */
  lemma RoundIsSequentialPass(c: Config, file: seq<seq<Record>>, s: State, mb: nat, ms: nat)
    requires Safe(c, file, s) && AtRoundStart(c, s, mb, ms) && c.Fits()
    ensures s.sorted < |s.windows| && AlwaysOnePass(c, s, mb, ms)
  {
    assert PhaseOf(s.pcs[0]) == Round(mb, ms);
    var w, n := s.windows[s.sorted], ms / RECORD_SIZE;
    if ms >= RECORD_SIZE {
      ChunksReady(w, n, mb / 2);
      ReadyIdle(w, n, mb / 2);
    } else {
      EmptyPass(w, mb / 2);
    }
    RoundIsPassExactly(c, file, s, mb, ms);
  }
}
