/** What holds in every reachable state of the parallel sort, and that every step keeps it. The phase
    a thread is in can be read off its program counter; all threads are always in the same phase. */
module SortInvariant {
  import opened Options
  import opened Records
  import opened Merging
  import opened SortProtocol
  import opened SortSizes

  datatype Phase = Between | Sorting | Round(mergedBlocks: nat, mergedSize: nat) | Closing

  function PhaseOf(pc: Pc): Phase {
    match pc
    case SortOwn => Sorting
    case ClaimBlock => Sorting
    case SortClaimed(_) => Sorting
    case WaitSorted => Sorting
    case Reset(mb, ms, _) => Round(mb, ms)
    case ClaimPair(mb, ms) => Round(mb, ms)
    case MergePair(mb, ms, _) => Round(mb, ms)
    case WaitRound(mb, ms) => Round(mb, ms)
    case Close => Closing
    case WaitWindow => Closing
    case _ => Between
  }

  ghost predicate SamePhase(c: Config, s: State) {
    && |s.pcs| == c.threads > 0
    && (forall t | 0 <= t < |s.pcs| :: PhaseOf(s.pcs[t]) == PhaseOf(s.pcs[0]))
  }

  /** No window has lost or gained a record, and if the blocks fit, the windows already closed are sorted. */
  ghost predicate FileKept(c: Config, file: seq<seq<Record>>, s: State) {
    && |s.windows| == |file| && EvenWindows(c, s.windows)
    && (forall i | 0 <= i < |file| :: Kept(c.Stable(), s.windows[i], file[i]))
    && s.sorted <= |s.windows|
    && (c.Fits() ==> forall i | 0 <= i < s.sorted :: Sorted(s.windows[i]))
  }

  // ---- Between windows: everybody takes the same exit decision.

  predicate DecidedRightly(pc: Pc, t: nat, windowsLeft: bool) {
    && ((pc.AtTop? || pc.WaitStart?) ==> windowsLeft)
    && ((pc.WriteResult? || pc.Done?) ==> !windowsLeft)
    && (pc.WriteResult? ==> t == 0)
  }

  ghost predicate BetweenInv(c: Config, s: State)
    requires |s.pcs| > 0
  {
    && (forall t | 0 <= t < |s.pcs| :: DecidedRightly(s.pcs[t], t, s.sorted < |s.windows|))
    && (s.pcs[0].WaitStart? ==> s.mapped == Some(s.sorted) && s.busy == InitialBusy(c))
    && s.result == if s.pcs[0].Done? then Some(KWay(s.windows)) else None
  }

  /** The window being worked on is the one that is mapped, and `busy` is the table made for it. */
  ghost predicate WindowMapped(c: Config, s: State) {
    && s.sorted < |s.windows|
    && s.mapped == Some(s.sorted)
    && |s.busy| == c.blocks
    && s.result == None
  }

  // ---- Sorting blocks: each block is free, owned by one thread, or sorted.

  /** The blocks of the current window. */
  ghost function Blocks(c: Config, s: State): seq<seq<Record>>
    requires s.sorted < |s.windows|
  {
    BlocksOf(c, s.windows[s.sorted])
  }

  /** Thread `t` is at work on block `b`. */
  predicate Owns(pc: Pc, t: nat, b: nat) {
    (pc.SortOwn? && b == t) || (pc.SortClaimed? && b == pc.curBlock)
  }

  /** What a thread is at work on, it has claimed. */
  ghost predicate ClaimHeld(pc: Pc, t: nat, busy: seq<int>) {
    forall b: nat | Owns(pc, t, b) :: b < |busy| && busy[b] == t
  }

  /** Block `b` is free, or its claimer is at work on it, or it is sorted. */
  ghost predicate Handled(pcs: seq<Pc>, busy: seq<int>, blocks: seq<seq<Record>>, b: nat)
    requires b < |busy| && b < |blocks|
  {
    || busy[b] == -1
    || (0 <= busy[b] < |pcs| && (Owns(pcs[busy[b]], busy[b], b) || Sorted(blocks[b])))
  }

  ghost predicate NoneFree(busy: seq<int>, limit: nat)
    requires limit <= |busy|
  {
    forall i | 0 <= i < limit :: busy[i] != -1
  }

  ghost predicate SortingTable(pcs: seq<Pc>, busy: seq<int>, blocks: seq<seq<Record>>) {
    && |busy| == |blocks|
    && (forall t | 0 <= t < |pcs| :: ClaimHeld(pcs[t], t, busy))
    && (forall b | 0 <= b < |blocks| :: Handled(pcs, busy, blocks, b))
    && (forall t | 0 <= t < |pcs| && pcs[t].WaitSorted? :: NoneFree(busy, |busy|))
  }

  ghost predicate SortingInv(c: Config, s: State)
    requires c.Started() && |s.pcs| == c.threads
  {
    WindowMapped(c, s) && SortingTable(s.pcs, s.busy, Blocks(c, s))
  }

  // ---- A merge round: runs of `n` records are merged in pairs.

  /** The pairs of runs of the current window. */
  ghost function Pairs(c: Config, s: State, mb: nat, ms: nat): seq<seq<Record>>
    requires s.sorted < |s.windows|
  {
    PairsOf(c, s.windows[s.sorted], mb, ms)
  }

  ghost predicate RunsSorted(pair: seq<Record>) {
    Sorted(pair[..|pair| / 2]) && Sorted(pair[|pair| / 2..])
  }

  /** A thread has claimed pair `p` and not merged it yet. */
  predicate IsToMerge(pc: Pc, p: nat) {
    pc.MergePair? && pc.curBlock == 2 * p
  }

  /** Pair `p` is free, or its claimer is still to merge it, or it is merged. */
  ghost predicate Covered(pcs: seq<Pc>, busy: seq<int>, pairs: seq<seq<Record>>, p: nat)
    requires 2 * p < |busy| && p < |pairs|
  {
    || busy[2 * p] == -1
    || (0 <= busy[2 * p] < |pcs| && IsToMerge(pcs[busy[2 * p]], p))
    || Sorted(pairs[p])
  }

  /** A claim covers both halves of a pair of the round. */
  predicate ClaimInRound(pc: Pc, limit: nat) {
    pc.MergePair? ==> pc.curBlock % 2 == 0 && pc.curBlock < limit
  }

  /** The second entry of a pair is free only if the first one is. */
  predicate Paired(busy: seq<int>, p: nat)
    requires 2 * p + 1 < |busy|
  {
    busy[2 * p + 1] == -1 ==> busy[2 * p] == -1
  }

  /** The reset of this thread has not come to pair `p` yet. */
  predicate BeforePair(pc: Pc, p: nat, entries: nat) {
    pc.Reset? && entries <= 2 * p + pc.left
  }

  /** No reset has come to pair `p` in this round: its entries are left over from before. */
  ghost predicate Stale(pcs: seq<Pc>, p: nat, entries: nat) {
    forall t | 0 <= t < |pcs| :: BeforePair(pcs[t], p, entries)
  }

  /** A reset is inside the table, and what it has cleared of a pair that it is halfway through is still free. */
  ghost predicate ResetFits(pc: Pc, busy: seq<int>) {
    && (pc.Reset? ==> pc.left <= |busy|)
    && (forall p | 0 <= 2 * p < |busy| && Halfway(pc, |busy|, 2 * p) :: busy[2 * p] == -1)
  }

  ghost predicate RoundTable(pcs: seq<Pc>, busy: seq<int>, pairs: seq<seq<Record>>) {
    && 2 * |pairs| <= |busy| && |busy| % 2 == 0
    && (forall p | 0 <= p < |pairs| :: Paired(busy, p))
    && (forall t | 0 <= t < |pcs| :: ClaimInRound(pcs[t], 2 * |pairs|) && ResetFits(pcs[t], busy))
    && (forall p | 0 <= p < |pairs| :: RunsSorted(pairs[p]))
    // once a reset has come to a pair it is not forgotten, although other resets may free it again
    && (forall p | 0 <= p < |pairs| :: Stale(pcs, p, |busy|) || Covered(pcs, busy, pairs, p))
    // a pair is free only while some thread is still to look
    && ((exists t :: 0 <= t < |pcs| && !pcs[t].WaitRound?) || NoneFree(busy, 2 * |pairs|))
  }

  ghost predicate RoundInv(c: Config, s: State, mb: nat, ms: nat)
    requires |s.pcs| == c.threads
  {
    && WindowMapped(c, s) && RoundSizes(c, mb, ms)
    && mb == 2 * |Pairs(c, s, mb, ms)|
    && RoundTable(s.pcs, s.busy, Pairs(c, s, mb, ms))
  }

  // ---- The end of a window.

  ghost predicate ClosingInv(c: Config, s: State)
    requires |s.pcs| > 0
  {
    && s.result == None
    && (s.pcs[0].Close? ==>
          && s.sorted < |s.windows| && s.mapped == Some(s.sorted)
          && (c.Fits() ==> Sorted(s.windows[s.sorted])))
    && (s.pcs[0].WaitWindow? ==> s.mapped == None)
  }

  ghost predicate PhaseInv(c: Config, s: State)
    requires c.Started() && |s.pcs| == c.threads
  {
    match PhaseOf(s.pcs[0])
    case Between => BetweenInv(c, s)
    case Sorting => SortingInv(c, s)
    case Round(mb, ms) => RoundInv(c, s, mb, ms)
    case Closing => ClosingInv(c, s)
  }

  ghost predicate Inv(c: Config, file: seq<seq<Record>>, s: State) {
    c.Started() && SamePhase(c, s) && FileKept(c, file, s) && PhaseInv(c, s)
  }

  // ---- Steps.

  lemma InitialInv(c: Config, file: seq<seq<Record>>)
    requires c.Started() && |file| > 0 && EvenWindows(c, file)
    ensures Inv(c, file, Initial(c, file))
  {
  }

  /** Rearranging the records of the current window keeps the file. */
  lemma WindowReplaced(c: Config, file: seq<seq<Record>>, s: State, w: seq<Record>)
    requires FileKept(c, file, s) && s.sorted < |s.windows|
    requires |w| == |s.windows[s.sorted]| && Kept(c.Stable(), w, s.windows[s.sorted])
    ensures FileKept(c, file, s.(windows := s.windows[s.sorted := w]))
  {
    assert Kept(c.Stable(), s.windows[s.sorted], file[s.sorted]);
  }

  lemma LessTimes(a: int, b: int, k: int)
    requires k > 0
    ensures a * k < b * k <==> a < b
  {
    if a < b {
      assert (b - a) * k > 0;
    } else {
      assert (a - b) * k >= 0;
    }
  }

  lemma ExitDecision(c: Config, file: seq<seq<Record>>, s: State)
    requires c.Valid() && FileOf(c, file) && |s.windows| == |file| && EvenWindows(c, s.windows)
    ensures s.sorted * c.size < c.sizeOfFile <==> s.sorted < |s.windows|
    ensures |Concat(s.windows)| == c.amountOfRecs
  {
    LessTimes(s.sorted, |file|, c.size);
    ConcatUniform(s.windows, c.recsInBuffer);
    assert |file| * (c.recsInBuffer * RECORD_SIZE) == (|file| * c.recsInBuffer) * RECORD_SIZE;
  }

  lemma BetweenStep(c: Config, file: seq<seq<Record>>, s: State, t: nat, out: seq<Record>)
    requires Inv(c, file, s) && t < |s.pcs| && PhaseOf(s.pcs[0]).Between?
    requires s.sorted * c.size < c.sizeOfFile <==> s.sorted < |s.windows|
    requires |Concat(s.windows)| == c.amountOfRecs
    ensures !ExecThread(c, s, t, out).Fault?
    ensures ExecThread(c, s, t, out).Ok? ==> Inv(c, file, ExecThread(c, s, t, out).state)
  {
    assert PhaseOf(s.pcs[t]) == Between;
  }

  lemma ClosingStep(c: Config, file: seq<seq<Record>>, s: State, t: nat, out: seq<Record>)
    requires Inv(c, file, s) && t < |s.pcs| && PhaseOf(s.pcs[0]).Closing?
    ensures !ExecThread(c, s, t, out).Fault?
    ensures ExecThread(c, s, t, out).Ok? ==> Inv(c, file, ExecThread(c, s, t, out).state)
  {
    assert PhaseOf(s.pcs[t]) == Closing;
  }

  lemma TableAfterSort(pcs: seq<Pc>, busy: seq<int>, blocks: seq<seq<Record>>, t: nat, b: nat, out: seq<Record>)
    requires SortingTable(pcs, busy, blocks) && t < |pcs| && b < |blocks| && Owns(pcs[t], t, b) && Sorted(out)
    ensures SortingTable(pcs[t := ClaimBlock], busy, blocks[b := out])
  {
    var pcs', blocks' := pcs[t := ClaimBlock], blocks[b := out];
    forall b' | 0 <= b' < |blocks| ensures Handled(pcs', busy, blocks', b') {
      assert Handled(pcs, busy, blocks, b');
      assert ClaimHeld(pcs[t], t, busy);
    }
    forall u | 0 <= u < |pcs| ensures ClaimHeld(pcs'[u], u, busy) {
      assert ClaimHeld(pcs[u], u, busy);
    }
  }

  lemma TableAfterClaim(pcs: seq<Pc>, busy: seq<int>, blocks: seq<seq<Record>>, t: nat)
    requires SortingTable(pcs, busy, blocks) && t < |pcs| && pcs[t].ClaimBlock?
    ensures var cur := FirstFree(busy, 0, |busy|);
            if cur == |busy| then SortingTable(pcs[t := WaitSorted], busy, blocks)
            else SortingTable(pcs[t := SortClaimed(cur)], busy[cur := t], blocks)
  {
    var cur := FirstFree(busy, 0, |busy|);
    var pcs' := if cur == |busy| then pcs[t := WaitSorted] else pcs[t := SortClaimed(cur)];
    var busy' := if cur == |busy| then busy else busy[cur := t];
    forall b | 0 <= b < |blocks| ensures Handled(pcs', busy', blocks, b) {
      assert Handled(pcs, busy, blocks, b);
    }
    forall u | 0 <= u < |pcs| ensures ClaimHeld(pcs'[u], u, busy') {
      assert ClaimHeld(pcs[u], u, busy);
    }
    forall u | 0 <= u < |pcs| && pcs'[u].WaitSorted? ensures NoneFree(busy', |busy'|) {
      assert u == t || NoneFree(busy, |busy|);
    }
  }

  /** A call of `qsort` on a block of whole records sorts that block and leaves the others alone. */
  lemma WholeBlockSorted(c: Config, w: seq<Record>, b: nat, out: seq<Record>, lo: nat)
    requires c.Valid() && c.Fits() && c.BlockRecs() > 0 && |w| == c.recsInBuffer && b < c.blocks
    requires lo == b * c.sizeOfBlock / RECORD_SIZE && lo + c.BlockRecs() <= |w|
    requires QsortResult(c.stableQsort, w[lo..lo + c.BlockRecs()], out)
    ensures Sorted(out) && |BlocksOf(c, w)| == c.blocks && BlocksOf(c, Splice(w, lo, out)) == BlocksOf(c, w)[b := out]
  {
    BlockCount(c, w);
    BlockStart(c, b);
    QsortSorts(c.stableQsort, w[lo..lo + c.BlockRecs()], out);
    SpliceChunk(w, c.BlockRecs(), b, lo, out);
  }

  /** The window after a call of `qsort` on block `b`, and that block `m` of it. */
  lemma BlockRewritten(c: Config, w: seq<Record>, b: nat, out: seq<Record>, lo: nat) returns (m: seq<Record>)
    requires c.Valid() && |w| == c.recsInBuffer && b < c.blocks
    requires lo == b * c.sizeOfBlock / RECORD_SIZE && lo + c.BlockRecs() <= |w|
    requires QsortResult(c.stableQsort, w[lo..lo + c.BlockRecs()], out)
    ensures Kept(c.Stable(), Splice(w, lo, out), w)
    ensures Sorted(m) && |BlocksOf(c, w)| == c.blocks && BlocksOf(c, Splice(w, lo, out)) == BlocksOf(c, w)[b := m]
  {
    SpliceKept(c.Stable(), w, lo, out);
    m := [];
    if c.Fits() && c.BlockRecs() > 0 {
      m := out;
      WholeBlockSorted(c, w, b, out, lo);
    }
  }

  lemma SortBlockState(c: Config, s: State, t: nat, b: nat, out: seq<Record>, lo: nat)
    requires t < |s.pcs| && s.sorted < |s.windows| && s.mapped == Some(s.sorted)
    requires lo == b * c.sizeOfBlock / RECORD_SIZE && lo + c.BlockRecs() <= |s.windows[s.sorted]|
    ensures !SortBlock(c, s, t, b, out).Fault?
    ensures SortBlock(c, s, t, b, out).Ok? ==>
              && QsortResult(c.stableQsort, s.windows[s.sorted][lo..lo + c.BlockRecs()], out)
              && SortBlock(c, s, t, b, out).state
                 == s.(windows := s.windows[s.sorted := Splice(s.windows[s.sorted], lo, out)],
                       pcs := s.pcs[t := ClaimBlock])
  {
  }

  /** A call of `qsort` rewrites a part of the window with the same records; `m` is the block afterwards. */
  lemma SortBlockEffect(c: Config, s: State, t: nat, b: nat, out: seq<Record>) returns (w: seq<Record>, m: seq<Record>)
    requires c.Valid() && t < |s.pcs| && s.sorted < |s.windows| && s.mapped == Some(s.sorted)
    requires b < c.blocks && |s.windows[s.sorted]| == c.recsInBuffer
    ensures !SortBlock(c, s, t, b, out).Fault?
    ensures |Blocks(c, s)| == c.blocks
    ensures SortBlock(c, s, t, b, out).Ok? ==>
              && SortBlock(c, s, t, b, out).state
                 == s.(windows := s.windows[s.sorted := w], pcs := s.pcs[t := ClaimBlock])
              && |w| == |s.windows[s.sorted]| && Kept(c.Stable(), w, s.windows[s.sorted])
              && Sorted(m) && BlocksOf(c, w) == Blocks(c, s)[b := m]
  {
    var lo, before := b * c.sizeOfBlock / RECORD_SIZE, s.windows[s.sorted];
    BlockInside(c, b);
    BlockCount(c, before);
    SortBlockState(c, s, t, b, out, lo);
    w, m := before, [];
    if SortBlock(c, s, t, b, out).Ok? {
      w := Splice(before, lo, out);
      m := BlockRewritten(c, before, b, out, lo);
    }
  }

  lemma SortBlockStep(c: Config, file: seq<seq<Record>>, s: State, t: nat, b: nat, out: seq<Record>)
    requires c.Valid() && Inv(c, file, s) && t < |s.pcs| && PhaseOf(s.pcs[0]).Sorting? && Owns(s.pcs[t], t, b)
    ensures !SortBlock(c, s, t, b, out).Fault?
    ensures SortBlock(c, s, t, b, out).Ok? ==> Inv(c, file, SortBlock(c, s, t, b, out).state)
  {
    assert ClaimHeld(s.pcs[t], t, s.busy);
    var w, m := SortBlockEffect(c, s, t, b, out);
    if SortBlock(c, s, t, b, out).Ok? {
      WindowReplaced(c, file, s, w);
      TableAfterSort(s.pcs, s.busy, Blocks(c, s), t, b, m);
    }
  }

  lemma ClaimBlockStep(c: Config, file: seq<seq<Record>>, s: State, t: nat)
    requires c.Valid() && Inv(c, file, s) && t < |s.pcs| && s.pcs[t].ClaimBlock?
    ensures DoClaimBlock(c, s, t).Ok? && Inv(c, file, DoClaimBlock(c, s, t).state)
  {
    assert PhaseOf(s.pcs[t]) == PhaseOf(s.pcs[0]);
    BlockCount(c, s.windows[s.sorted]);
    TableAfterClaim(s.pcs, s.busy, Blocks(c, s), t);
  }

  lemma SortingStep(c: Config, file: seq<seq<Record>>, s: State, t: nat, out: seq<Record>)
    requires c.Valid() && Inv(c, file, s) && t < |s.pcs| && PhaseOf(s.pcs[0]).Sorting?
    ensures !ExecThread(c, s, t, out).Fault?
    ensures ExecThread(c, s, t, out).Ok? ==> Inv(c, file, ExecThread(c, s, t, out).state)
  {
    assert PhaseOf(s.pcs[t]) == Sorting;
    match s.pcs[t]
    case SortOwn => SortBlockStep(c, file, s, t, t, out);
    case SortClaimed(b) => SortBlockStep(c, file, s, t, b, out);
    case ClaimBlock => ClaimBlockStep(c, file, s, t);
    case _ =>
  }

  // ---- Steps of a merge round.

  /** A reset clears one more entry, of a pair that any thread may have claimed, merged, or be merging. */
  lemma TableAfterReset(pcs: seq<Pc>, busy: seq<int>, pairs: seq<seq<Record>>, t: nat, at: nat)
    requires RoundTable(pcs, busy, pairs) && t < |pcs| && pcs[t].Reset? && pcs[t].left > 0
    requires at == |busy| - pcs[t].left
    ensures RoundTable(pcs[t := pcs[t].(left := pcs[t].left - 1)], busy[at := -1], pairs)
  {
    var pcs', busy' := pcs[t := pcs[t].(left := pcs[t].left - 1)], busy[at := -1];
    assert !pcs'[t].WaitRound?;
    assert ResetFits(pcs[t], busy);
    forall p | 0 <= p < |pairs|
      ensures Paired(busy', p) && (Stale(pcs', p, |busy'|) || Covered(pcs', busy', pairs, p))
    {
      assert Paired(busy, p);
      assert at == 2 * p + 1 ==> Halfway(pcs[t], |busy|, 2 * p);
      if Stale(pcs, p, |busy|) {
        assert BeforePair(pcs[t], p, |busy|);
      }
    }
    forall u | 0 <= u < |pcs| ensures ClaimInRound(pcs'[u], 2 * |pairs|) && ResetFits(pcs'[u], busy') {
      assert ClaimInRound(pcs[u], 2 * |pairs|) && ResetFits(pcs[u], busy);
    }
  }

  lemma TableAfterWholeReset(pcs: seq<Pc>, busy: seq<int>, pairs: seq<seq<Record>>, t: nat, pc: Pc)
    requires RoundTable(pcs, busy, pairs) && t < |pcs| && pcs[t].Reset? && pcs[t].left == 0 && pc.ClaimPair?
    ensures RoundTable(pcs[t := pc], busy, pairs)
  {
    var pcs' := pcs[t := pc];
    assert !pcs'[t].WaitRound?;
    forall p | 0 <= p < |pairs| ensures Covered(pcs', busy, pairs, p) {
      assert !BeforePair(pcs[t], p, |busy|);
      assert Covered(pcs, busy, pairs, p);
    }
    forall u | 0 <= u < |pcs| ensures ClaimInRound(pcs'[u], 2 * |pairs|) && ResetFits(pcs'[u], busy) {
      assert ClaimInRound(pcs[u], 2 * |pairs|) && ResetFits(pcs[u], busy);
    }
  }

  /** The first free index of a round is even. */
  lemma FirstFreeEven(busy: seq<int>, n: nat)
    requires 2 * n <= |busy| && forall p | 0 <= p < n :: Paired(busy, p)
    ensures FirstFree(busy, 0, 2 * n) % 2 == 0
  {
    var cur := FirstFree(busy, 0, 2 * n);
    if cur < 2 * n {
      assert Paired(busy, cur / 2);
    }
  }

  /** No reset is halfway through the pair that is claimed next. */
  ghost predicate NoneHalfway(pcs: seq<Pc>, entries: nat, cur: nat) {
    forall u | 0 <= u < |pcs| :: !Halfway(pcs[u], entries, cur)
  }

  /** A thread that finds no free pair goes to wait. */
  lemma TableAfterNoPair(pcs: seq<Pc>, busy: seq<int>, pairs: seq<seq<Record>>, t: nat, pc: Pc)
    requires RoundTable(pcs, busy, pairs) && t < |pcs| && pcs[t].ClaimPair? && pc.WaitRound?
    requires NoneFree(busy, 2 * |pairs|)
    ensures RoundTable(pcs[t := pc], busy, pairs)
  {
    var pcs' := pcs[t := pc];
    forall p | 0 <= p < |pairs| ensures Covered(pcs', busy, pairs, p) {
      assert !BeforePair(pcs[t], p, |busy|);
      assert Covered(pcs, busy, pairs, p);
    }
    forall u | 0 <= u < |pcs| ensures ClaimInRound(pcs'[u], 2 * |pairs|) && ResetFits(pcs'[u], busy) {
      assert ClaimInRound(pcs[u], 2 * |pairs|) && ResetFits(pcs[u], busy);
    }
  }

  /** A claim of a whole pair that no reset is halfway through. */
  lemma TableAfterPair(pcs: seq<Pc>, busy: seq<int>, pairs: seq<seq<Record>>, t: nat, pc: Pc, cur: nat)
    requires RoundTable(pcs, busy, pairs) && t < |pcs| && pcs[t].ClaimPair? && IsToMerge(pc, cur / 2)
    requires cur % 2 == 0 && cur < 2 * |pairs| && NoneHalfway(pcs, |busy|, cur)
    ensures RoundTable(pcs[t := pc], busy[cur := t][cur + 1 := t], pairs)
  {
    var pcs', busy' := pcs[t := pc], busy[cur := t][cur + 1 := t];
    assert !pcs'[t].WaitRound?;
    forall p | 0 <= p < |pairs| ensures Paired(busy', p) && Covered(pcs', busy', pairs, p) {
      assert !BeforePair(pcs[t], p, |busy|);
      assert Paired(busy, p) && Covered(pcs, busy, pairs, p);
    }
    forall u | 0 <= u < |pcs| ensures ClaimInRound(pcs'[u], 2 * |pairs|) && ResetFits(pcs'[u], busy') {
      assert ClaimInRound(pcs[u], 2 * |pairs|) && ResetFits(pcs[u], busy);
      assert !Halfway(pcs[u], |busy|, cur);
    }
  }

  /** A search finds a pair as a whole and inside the table, and a calm claim keeps the table of the round. */
  lemma TableAfterClaimPair(pcs: seq<Pc>, busy: seq<int>, pairs: seq<seq<Record>>, t: nat, mb: nat, ms: nat)
    requires RoundTable(pcs, busy, pairs) && t < |pcs| && pcs[t].ClaimPair?
    ensures var cur := FirstFree(busy, 0, 2 * |pairs|);
            if cur == 2 * |pairs| then RoundTable(pcs[t := WaitRound(mb, ms)], busy, pairs)
            else cur + 1 < |busy| &&
                 (NoneHalfway(pcs, |busy|, cur) ==>
                    RoundTable(pcs[t := MergePair(mb, ms, cur)], busy[cur := t][cur + 1 := t], pairs))
  {
    var cur := FirstFree(busy, 0, 2 * |pairs|);
    FirstFreeEven(busy, |pairs|);
    if cur == 2 * |pairs| {
      assert NoneFree(busy, 2 * |pairs|);
      TableAfterNoPair(pcs, busy, pairs, t, WaitRound(mb, ms));
    } else if NoneHalfway(pcs, |busy|, cur) {
      TableAfterPair(pcs, busy, pairs, t, MergePair(mb, ms, cur), cur);
    }
  }

  lemma SortedRuns(pair: seq<Record>)
    requires Sorted(pair)
    ensures RunsSorted(pair)
  {
  }

  lemma TableAfterMerge(pcs: seq<Pc>, busy: seq<int>, pairs: seq<seq<Record>>, t: nat, p: nat, pc: Pc, m: seq<Record>)
    requires RoundTable(pcs, busy, pairs) && t < |pcs| && IsToMerge(pcs[t], p) && p < |pairs|
    requires pc.ClaimPair? && Sorted(m)
    ensures RoundTable(pcs[t := pc], busy, pairs[p := m])
  {
    var pcs', pairs' := pcs[t := pc], pairs[p := m];
    SortedRuns(m);
    assert !pcs'[t].WaitRound?;
    forall q | 0 <= q < |pairs| ensures Covered(pcs', busy, pairs', q) {
      assert !BeforePair(pcs[t], q, |busy|);
      assert Covered(pcs, busy, pairs, q);
    }
    forall u | 0 <= u < |pcs| ensures ClaimInRound(pcs'[u], 2 * |pairs'|) && ResetFits(pcs'[u], busy) {
      assert ClaimInRound(pcs[u], 2 * |pairs|) && ResetFits(pcs[u], busy);
    }
  }

  lemma PairStart(n: nat, b: nat, p: nat)
    requires b == 2 * p
    ensures b * n == p * (2 * n)
  {
    var x := p * n;
    assert b * n == 2 * x;
  }

  /** Rewriting two neighbouring sorted runs `a` and `b` with their merge. */
  lemma MergedRange(w: seq<Record>, lo: nat, a: seq<Record>, b: seq<Record>)
    requires lo + |a| + |b| <= |w| && a + b == w[lo..lo + |a| + |b|] && Sorted(a) && Sorted(b)
    ensures var m := MergeRuns(a, b);
            |m| == |a| + |b| && StableSortOf(m, a + b) && SameByKey(Splice(w, lo, m), w)
  {
    MergeRunsLength(a, b);
    MergeRunsStable(a, b);
    var m := MergeRuns(a, b);
    assert w[lo..lo + |m|] == a + b;
    SpliceSameByKey(w, lo, m);
  }

  /** Where the runs of pair `p` are: the program starts at `b * n` for its even block number `b`. */
  lemma PairAt(w: seq<Record>, n: nat, b: nat, p: nat, lo: nat)
    requires n > 0 && p < |Chunks(w, 2 * n)| && b == 2 * p && lo == b * n
    ensures lo == p * (2 * n) && lo + 2 * n <= |w|
    ensures var pair := Chunks(w, 2 * n)[p];
            && pair == w[lo..lo + 2 * n] == w[lo..lo + n] + w[lo + n..lo + 2 * n]
            && pair[..n] == w[lo..lo + n] && pair[n..] == w[lo + n..lo + 2 * n]
  {
    PairStart(n, b, p);
    ChunkAt(w, 2 * n, p);
    assert w[lo..lo + 2 * n] == w[lo..lo + n] + w[lo + n..lo + 2 * n];
  }

  /** Merging the two runs of a pair in place. */
  lemma MergeChunk(w: seq<Record>, n: nat, b: nat, p: nat, lo: nat)
    requires n > 0 && p < |Chunks(w, 2 * n)| && RunsSorted(Chunks(w, 2 * n)[p]) && b == 2 * p && lo == b * n
    ensures lo + 2 * n <= |w|
    ensures var m := MergeRuns(w[lo..lo + n], w[lo + n..lo + 2 * n]);
            && |m| == 2 * n
            && StableSortOf(m, Chunks(w, 2 * n)[p])
            && SameByKey(Splice(w, lo, m), w)
            && Chunks(Splice(w, lo, m), 2 * n) == Chunks(w, 2 * n)[p := m]
  {
    PairAt(w, n, b, p, lo);
    MergedRange(w, lo, w[lo..lo + n], w[lo + n..lo + 2 * n]);
    SpliceChunk(w, 2 * n, p, lo, MergeRuns(w[lo..lo + n], w[lo + n..lo + 2 * n]));
  }

  lemma MergeKeepsRange(w: seq<Record>, lo: nat, a: seq<Record>, b: seq<Record>)
    requires lo + |a| + |b| <= |w| && a + b == w[lo..lo + |a| + |b|]
    ensures var m := MergeRuns(a, b); |m| == |a| + |b| && multiset(Splice(w, lo, m)) == multiset(w)
  {
    var m := MergeRuns(a, b);
    MergeRunsLength(a, b);
    MergeRunsPermutes(a, b);
    assert w[lo..lo + |m|] == a + b;
    assert multiset(a + b) == multiset(a) + multiset(b);
    SpliceKept(false, w, lo, m);
  }

  /** Merging runs in place loses no record, whether they are sorted or not. */
  lemma MergeKeeps(w: seq<Record>, lo: nat, n: nat)
    requires lo + 2 * n <= |w|
    ensures var m := MergeRuns(w[lo..lo + n], w[lo + n..lo + 2 * n]);
            |m| == 2 * n && multiset(Splice(w, lo, m)) == multiset(w) && (n == 0 ==> Splice(w, lo, m) == w)
  {
    MergeKeepsRange(w, lo, w[lo..lo + n], w[lo + n..lo + 2 * n]);
  }

  /** The window `w` after pair `p` has been merged, and that pair `m` of it. */
  lemma PairRewritten(c: Config, w: seq<Record>, mb: nat, ms: nat, b: nat, p: nat, n: nat, lo: nat)
    returns (m: seq<Record>)
    requires n == ms / RECORD_SIZE && lo == b * n && b == 2 * p && lo + 2 * n <= |w|
    requires p < |PairsOf(c, w, mb, ms)| && RunsSorted(PairsOf(c, w, mb, ms)[p])
    ensures var merged := MergeRuns(w[lo..lo + n], w[lo + n..lo + 2 * n]);
            && |merged| == 2 * n
            && (c.Fits() ==> SameByKey(Splice(w, lo, merged), w))
            && StableSortOf(m, PairsOf(c, w, mb, ms)[p])
            && PairsOf(c, Splice(w, lo, merged), mb, ms) == PairsOf(c, w, mb, ms)[p := m]
  {
    MergeKeeps(w, lo, n);
    m := [];
    if c.Fits() && ms >= RECORD_SIZE {
      MergeChunk(w, n, b, p, lo);
      m := MergeRuns(w[lo..lo + n], w[lo + n..lo + 2 * n]);
    }
  }

  lemma MergePairState(s: State, t: nat, n: nat, lo: nat, i: nat)
    requires t < |s.pcs| && s.pcs[t].MergePair? && i < |s.windows| && s.mapped == Some(i)
    requires n == s.pcs[t].mergedSize / RECORD_SIZE && lo == s.pcs[t].curBlock * n && lo + 2 * n <= |s.windows[i]|
    ensures var w := s.windows[i];
            var merged := MergeRuns(w[lo..lo + n], w[lo + n..lo + 2 * n]);
            && |merged| == 2 * n
            && DoMergePair(s, t)
               == Ok(s.(windows := s.windows[i := Splice(w, lo, merged)],
                        pcs := s.pcs[t := ClaimPair(s.pcs[t].mergedBlocks, s.pcs[t].mergedSize)]))
  {
    var w := s.windows[i];
    MergeRunsLength(w[lo..lo + n], w[lo + n..lo + 2 * n]);
  }

  /** `merge` rewrites one pair of the window with its stable sort and leaves the rest alone; `m` is the pair
      afterwards. */
  lemma MergePairEffect(c: Config, s: State, t: nat, mb: nat, ms: nat, p: nat) returns (w: seq<Record>, m: seq<Record>)
    requires c.Valid() && RoundSizes(c, mb, ms) && t < |s.pcs| && IsToMerge(s.pcs[t], p)
    requires s.pcs[t].mergedBlocks == mb && s.pcs[t].mergedSize == ms
    requires s.sorted < |s.windows| && s.mapped == Some(s.sorted) && |s.windows[s.sorted]| == c.recsInBuffer
    requires mb == 2 * |Pairs(c, s, mb, ms)| && p < |Pairs(c, s, mb, ms)| && RunsSorted(Pairs(c, s, mb, ms)[p])
    ensures DoMergePair(s, t) == Ok(s.(windows := s.windows[s.sorted := w], pcs := s.pcs[t := ClaimPair(mb, ms)]))
    ensures |w| == |s.windows[s.sorted]| && multiset(w) == multiset(s.windows[s.sorted])
    ensures c.Fits() ==> SameByKey(w, s.windows[s.sorted])
    ensures ms < RECORD_SIZE ==> w == s.windows[s.sorted]
    ensures StableSortOf(m, Pairs(c, s, mb, ms)[p]) && PairsOf(c, w, mb, ms) == Pairs(c, s, mb, ms)[p := m]
  {
    var n, b, before := ms / RECORD_SIZE, s.pcs[t].curBlock, s.windows[s.sorted];
    var lo := b * n;
    PairInside(c, mb, ms, b, n, lo);
    MergePairState(s, t, n, lo, s.sorted);
    MergeKeeps(before, lo, n);
    var merged := MergeRuns(before[lo..lo + n], before[lo + n..lo + 2 * n]);
    w := Splice(before, lo, merged);
    m := PairRewritten(c, before, mb, ms, b, p, n, lo);
  }

  /** A change of program counters and of `busy` keeps the file and the windows. */
  lemma TableStep(c: Config, file: seq<seq<Record>>, s: State, t: nat, pc: Pc, busy: seq<int>, mb: nat, ms: nat)
    requires Inv(c, file, s) && t < |s.pcs| && PhaseOf(s.pcs[0]) == PhaseOf(pc) == Round(mb, ms) && |busy| == |s.busy|
    requires RoundTable(s.pcs[t := pc], busy, Pairs(c, s, mb, ms))
    ensures Inv(c, file, s.(busy := busy, pcs := s.pcs[t := pc]))
  {
  }

  lemma ResetStores(c: Config, s: State, t: nat, pairs: seq<seq<Record>>)
    requires t < |s.pcs| && s.pcs[t].Reset? && 0 < s.pcs[t].left <= |s.busy| == c.blocks
    requires RoundTable(s.pcs, s.busy, pairs)
    ensures var pc, busy := s.pcs[t].(left := s.pcs[t].left - 1), s.busy[c.blocks - s.pcs[t].left := -1];
            && DoReset(c, s, t) == Ok(s.(busy := busy, pcs := s.pcs[t := pc]))
            && RoundTable(s.pcs[t := pc], busy, pairs)
  {
    TableAfterReset(s.pcs, s.busy, pairs, t, c.blocks - s.pcs[t].left);
  }

  lemma ResetStep(c: Config, file: seq<seq<Record>>, s: State, t: nat, mb: nat, ms: nat)
    requires Inv(c, file, s) && t < |s.pcs| && s.pcs[t].Reset?
    requires s.pcs[t].mergedBlocks == mb && s.pcs[t].mergedSize == ms
    ensures DoReset(c, s, t).Ok? && Inv(c, file, DoReset(c, s, t).state)
  {
    assert PhaseOf(s.pcs[t]) == PhaseOf(s.pcs[0]);
    assert ResetFits(s.pcs[t], s.busy);
    var pairs, left := Pairs(c, s, mb, ms), s.pcs[t].left;
    if left == 0 {
      TableAfterWholeReset(s.pcs, s.busy, pairs, t, ClaimPair(mb, ms));
      TableStep(c, file, s, t, ClaimPair(mb, ms), s.busy, mb, ms);
    } else {
      ResetStores(c, s, t, pairs);
      TableStep(c, file, s, t, s.pcs[t].(left := left - 1), s.busy[c.blocks - left := -1], mb, ms);
    }
  }

  lemma ClaimPairStep(c: Config, file: seq<seq<Record>>, s: State, t: nat, mb: nat, ms: nat)
    requires Inv(c, file, s) && t < |s.pcs| && s.pcs[t] == ClaimPair(mb, ms)
    ensures DoClaimPair(s, t).Ok?
    ensures Calm(c, s, Thread(t, [])) ==> Inv(c, file, DoClaimPair(s, t).state)
  {
    assert PhaseOf(s.pcs[t]) == PhaseOf(s.pcs[0]);
    TableAfterClaimPair(s.pcs, s.busy, Pairs(c, s, mb, ms), t, mb, ms);
  }

  /** A change of one program counter and of the current window keeps the rest. */
  lemma WindowStep(c: Config, file: seq<seq<Record>>, s: State, t: nat, pc: Pc, w: seq<Record>, mb: nat, ms: nat)
    requires Inv(c, file, s) && t < |s.pcs| && PhaseOf(s.pcs[0]) == PhaseOf(pc) == Round(mb, ms)
    requires FileKept(c, file, s.(windows := s.windows[s.sorted := w]))
    requires |PairsOf(c, w, mb, ms)| == |Pairs(c, s, mb, ms)|
    requires RoundTable(s.pcs[t := pc], s.busy, PairsOf(c, w, mb, ms))
    ensures Inv(c, file, s.(windows := s.windows[s.sorted := w], pcs := s.pcs[t := pc]))
  {
  }

  lemma MergePairStep(c: Config, file: seq<seq<Record>>, s: State, t: nat, mb: nat, ms: nat)
    requires c.Valid() && Inv(c, file, s) && t < |s.pcs| && s.pcs[t].MergePair?
    requires s.pcs[t].mergedBlocks == mb && s.pcs[t].mergedSize == ms
    ensures DoMergePair(s, t).Ok? && Inv(c, file, DoMergePair(s, t).state)
  {
    assert PhaseOf(s.pcs[t]) == PhaseOf(s.pcs[0]);
    var pairs, p := Pairs(c, s, mb, ms), s.pcs[t].curBlock / 2;
    assert ClaimInRound(s.pcs[t], 2 * |pairs|);
    var w, m := MergePairEffect(c, s, t, mb, ms, p);
    WindowReplaced(c, file, s, w);
    TableAfterMerge(s.pcs, s.busy, pairs, t, p, ClaimPair(mb, ms), m);
    WindowStep(c, file, s, t, ClaimPair(mb, ms), w, mb, ms);
  }

  lemma RoundStep(c: Config, file: seq<seq<Record>>, s: State, t: nat, out: seq<Record>)
    requires c.Valid() && Inv(c, file, s) && t < |s.pcs| && PhaseOf(s.pcs[0]).Round?
    ensures !ExecThread(c, s, t, out).Fault?
    ensures ExecThread(c, s, t, out).Ok? && Calm(c, s, Thread(t, out)) ==> Inv(c, file, ExecThread(c, s, t, out).state)
  {
    assert PhaseOf(s.pcs[t]) == PhaseOf(s.pcs[0]);
    match s.pcs[t]
    case Reset(mb, ms, _) => ResetStep(c, file, s, t, mb, ms);
    case ClaimPair(mb, ms) => ClaimPairStep(c, file, s, t, mb, ms);
    case MergePair(mb, ms, b) => MergePairStep(c, file, s, t, mb, ms);
    case _ =>
  }
}
