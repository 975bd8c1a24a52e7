/** `func` of Lab6/src/sort_index.c: any number of threads that sort blocks and merge runs of a mapped
    window, as a state machine. A step is one thread moving to its next shared access, or the barrier
    opening for everyone. A section under the mutex is one step. The reset of `busy`, which is not under
    the mutex, clears one entry a step, between the steps of the others. */
module SortProtocol {
  import opened Options
  import opened Records
  import opened Merging

  const RECORD_SIZE := 16

  /** 1, 2, 4, 8, ... */
  ghost predicate PowerOfTwo(n: int)
    decreases n
  {
    n == 1 || (n > 1 && n % 2 == 0 && PowerOfTwo(n / 2))
  }

  /** Runs of this many bytes are whole records, or parts of a record of which a whole number makes one. */
  predicate WholeRecords(size: nat) {
    size > 0 && (size % RECORD_SIZE == 0 || size in {1, 2, 4, 8})
  }

  /** The globals that `main` sets before it starts the threads, in bytes where the program has bytes.
      `stableQsort` says whether the C library's `qsort` happens to be stable. */
  datatype Config = Config(
    size: nat,
    blocks: nat,
    threads: nat,
    sizeOfFile: nat,
    sizeOfBlock: nat,
    recsInBuffer: nat,
    amountOfRecs: nat,
    stableQsort: bool)
  {
    /** What the checks of `main` ensure, for a window and a file of whole records. */
    ghost predicate Valid() {
      && Started() && PowerOfTwo(blocks)
      && sizeOfBlock == size / blocks
      && recsInBuffer * RECORD_SIZE == size
      && amountOfRecs * RECORD_SIZE == sizeOfFile
    }

    predicate Started() {
      1 <= threads < blocks && recsInBuffer > 0 && size > 0
    }

    /** The blocks cover the window, and neither a block nor a record is cut by the other's border. */
    predicate Fits() {
      sizeOfBlock * blocks == size && WholeRecords(sizeOfBlock)
    }

    /** Equal time marks keep their order. */
    predicate Stable() {
      stableQsort && Fits()
    }

    function BlockRecs(): nat { sizeOfBlock / RECORD_SIZE }
  }

  /** Where a thread is. The fields are its local variables `merged_blocks`, `merged_size`, `cur_block`, and
      how many entries of `busy` its `memset` has still to clear. */
  datatype Pc =
    | AtTop
    | WaitStart
    | SortOwn
    | ClaimBlock
    | SortClaimed(curBlock: nat)
    | WaitSorted
    | Reset(mergedBlocks: nat, mergedSize: nat, left: nat)
    | ClaimPair(mergedBlocks: nat, mergedSize: nat)
    | MergePair(mergedBlocks: nat, mergedSize: nat, curBlock: nat)
    | WaitRound(mergedBlocks: nat, mergedSize: nat)
    | Close
    | WaitWindow
    | ExitTest
    | WriteResult
    | Done

  /** What the threads share: the file as a sequence of windows, which window is mapped, `busy`,
      `sorted_in_buffer`, and what has been written to the result file. */
  datatype State = State(
    windows: seq<seq<Record>>,
    mapped: Option<nat>,
    busy: seq<int>,
    sorted: nat,
    pcs: seq<Pc>,
    result: Option<seq<Record>>)

  /** A schedule is a sequence of these. `out` is what `qsort` leaves if the step is a call of it. */
  datatype Label = Thread(t: nat, out: seq<Record>) | OpenBarrier

  /** `Stuck`: the step cannot happen here. `Fault`: it accesses memory that is not there. */
  datatype Outcome = Stuck | Fault | Ok(state: State)

  predicate Waiting(pc: Pc) {
    pc.WaitStart? || pc.WaitSorted? || pc.WaitRound? || pc.WaitWindow?
  }

  /** The test of the loop over merge rounds. */
  function EnterRound(c: Config, mergedBlocks: nat, mergedSize: nat): Pc {
    if mergedBlocks > 1 then Reset(mergedBlocks, mergedSize, c.blocks) else Close
  }

  /** Where a thread goes from a barrier it waits at. */
  function Released(c: Config, pc: Pc): Pc
  {
    match pc
    case WaitStart => SortOwn
    case WaitSorted => EnterRound(c, c.blocks, c.sizeOfBlock)
    case WaitRound(blocks, size) => EnterRound(c, blocks / 2, size * 2)
    case WaitWindow => ExitTest
    case _ => pc
  }

  /** The first unclaimed index below `limit`, or `limit`. */
  ghost function FirstFree(busy: seq<int>, i: nat, limit: nat): (r: nat)
    requires i <= limit <= |busy|
    ensures i <= r <= limit
    ensures forall j | i <= j < r :: busy[j] != -1
    ensures r < limit ==> busy[r] == -1
    decreases limit - i
  {
    if i == limit || busy[i] == -1 then i else FirstFree(busy, i + 1, limit)
  }

  /** The table thread 0 prepares: each thread owns the block of its number, the others are free. */
  ghost function InitialBusy(c: Config): (b: seq<int>)
    ensures |b| == c.blocks
    ensures forall i | 0 <= i < c.blocks :: b[i] == if i < c.threads then i else -1
  {
    seq(c.blocks, i => if i < c.threads then i else -1)
  }

  /** Writing `out` over the mapped window from record `lo` on, where `out` may follow from what is there. */
  ghost function Rewrite(s: State, lo: nat, out: seq<Record>): State
    requires s.mapped.Some? && s.mapped.value < |s.windows| && lo + |out| <= |s.windows[s.mapped.value]|
  {
    s.(windows := s.windows[s.mapped.value := Splice(s.windows[s.mapped.value], lo, out)])
  }

  /** Records `lo` to `hi` of the mapped window exist. */
  predicate InWindow(s: State, lo: int, hi: int) {
    s.mapped.Some? && s.mapped.value < |s.windows| && 0 <= lo <= hi <= |s.windows[s.mapped.value]|
  }

  /** The call of `qsort` on block `b`. */
  ghost function SortBlock(c: Config, s: State, t: nat, b: nat, out: seq<Record>): Outcome
    requires t < |s.pcs|
  {
    var lo := b * c.sizeOfBlock / RECORD_SIZE;
    if !InWindow(s, lo, lo + c.BlockRecs()) then Fault
    else if !QsortResult(c.stableQsort, s.windows[s.mapped.value][lo..lo + c.BlockRecs()], out) then Stuck
    else Ok(Rewrite(s, lo, out).(pcs := s.pcs[t := ClaimBlock]))
  }

  ghost function DoClaimBlock(c: Config, s: State, t: nat): Outcome
    requires t < |s.pcs|
  {
    if c.blocks > |s.busy| then Fault
    else
      var cur := FirstFree(s.busy, 0, c.blocks);
      if cur == c.blocks then Ok(s.(pcs := s.pcs[t := WaitSorted]))
      else Ok(s.(busy := s.busy[cur := t], pcs := s.pcs[t := SortClaimed(cur)]))
  }

  /** The `memset` of `busy` clears its next entry, or returns. */
  ghost function DoReset(c: Config, s: State, t: nat): Outcome
    requires t < |s.pcs| && s.pcs[t].Reset?
  {
    var left := s.pcs[t].left;
    if left == 0 then Ok(s.(pcs := s.pcs[t := ClaimPair(s.pcs[t].mergedBlocks, s.pcs[t].mergedSize)]))
    else if c.blocks > |s.busy| || left > c.blocks then Fault
    else Ok(s.(busy := s.busy[c.blocks - left := -1], pcs := s.pcs[t := s.pcs[t].(left := left - 1)]))
  }

  ghost function DoClaimPair(s: State, t: nat): Outcome
    requires t < |s.pcs| && s.pcs[t].ClaimPair?
  {
    var mb, ms := s.pcs[t].mergedBlocks, s.pcs[t].mergedSize;
    if mb > |s.busy| then Fault
    else
      var cur := FirstFree(s.busy, 0, mb);
      if cur == mb then Ok(s.(pcs := s.pcs[t := WaitRound(mb, ms)]))
      else if cur + 1 >= |s.busy| then Fault
      else Ok(s.(busy := s.busy[cur := t][cur + 1 := t], pcs := s.pcs[t := MergePair(mb, ms, cur)]))
  }

  ghost function DoMergePair(s: State, t: nat): Outcome
    requires t < |s.pcs| && s.pcs[t].MergePair?
  {
    var mb, ms := s.pcs[t].mergedBlocks, s.pcs[t].mergedSize;
    var n := ms / RECORD_SIZE;
    var lo := s.pcs[t].curBlock * n;
    if !InWindow(s, lo, lo + 2 * n) then Fault
    else
      var w := s.windows[s.mapped.value];
      MergeRunsLength(w[lo..lo + n], w[lo + n..lo + 2 * n]);
      Ok(Rewrite(s, lo, MergeRuns(w[lo..lo + n], w[lo + n..lo + 2 * n])).(pcs := s.pcs[t := ClaimPair(mb, ms)]))
  }

  /** The final merge reads the first `sorted` windows, which must be the whole file. */
  ghost function DoWriteResult(c: Config, s: State, t: nat): Outcome
    requires t < |s.pcs|
  {
    if s.sorted != |s.windows| then Fault
    else if |Concat(s.windows)| != c.amountOfRecs then Fault
    else Ok(s.(result := Some(KWay(s.windows)), pcs := s.pcs[t := Done]))
  }

  ghost function ExecThread(c: Config, s: State, t: nat, out: seq<Record>): Outcome
    requires t < |s.pcs|
  {
    match s.pcs[t]
    case AtTop =>
      if t != 0 then Ok(s.(pcs := s.pcs[t := WaitStart]))
      else if s.sorted >= |s.windows| then Fault
      else Ok(s.(mapped := Some(s.sorted), busy := InitialBusy(c), pcs := s.pcs[t := WaitStart]))
    case SortOwn => SortBlock(c, s, t, t, out)
    case ClaimBlock => DoClaimBlock(c, s, t)
    case SortClaimed(b) => SortBlock(c, s, t, b, out)
    case Reset(_, _, _) => DoReset(c, s, t)
    case ClaimPair(_, _) => DoClaimPair(s, t)
    case MergePair(_, _, _) => DoMergePair(s, t)
    case Close =>
      if t != 0 then Ok(s.(pcs := s.pcs[t := WaitWindow]))
      else Ok(s.(mapped := None, sorted := s.sorted + 1, pcs := s.pcs[t := WaitWindow]))
    case ExitTest =>
      Ok(s.(pcs := s.pcs[t := if s.sorted * c.size < c.sizeOfFile then AtTop
                              else if t == 0 then WriteResult else Done]))
    case WriteResult => DoWriteResult(c, s, t)
    case _ => Stuck
  }

  ghost function Exec(c: Config, s: State, l: Label): Outcome {
    match l
    case Thread(t, out) => if t < |s.pcs| then ExecThread(c, s, t, out) else Stuck
    case OpenBarrier =>
      if forall t | 0 <= t < |s.pcs| :: Waiting(s.pcs[t])
      then Ok(s.(pcs := seq(|s.pcs|, t requires 0 <= t < |s.pcs| => Released(c, s.pcs[t]))))
      else Stuck
  }

  /** Runs a schedule. */
  ghost function Run(c: Config, s: State, schedule: seq<Label>): Outcome
    decreases |schedule|
  {
    if schedule == [] then Ok(s)
    else
      var first := Exec(c, s, schedule[0]);
      if first.Ok? then Run(c, first.state, schedule[1..]) else first
  }

  /** The reset of a thread has cleared entry `cur` and not the one after it. */
  predicate Halfway(pc: Pc, entries: nat, cur: nat) {
    pc.Reset? && pc.left > 0 && entries == cur + 1 + pc.left
  }

  /** This step is not a claim of a pair that some reset has cleared the first entry of and not the second. */
  ghost predicate Calm(c: Config, s: State, l: Label) {
    l.Thread? && l.t < |s.pcs| && s.pcs[l.t].ClaimPair? && s.pcs[l.t].mergedBlocks <= |s.busy| ==>
      var mb := s.pcs[l.t].mergedBlocks;
      var cur := FirstFree(s.busy, 0, mb);
      cur < mb ==> forall u | 0 <= u < |s.pcs| :: !Halfway(s.pcs[u], c.blocks, cur)
  }

  ghost predicate CalmRun(c: Config, s: State, schedule: seq<Label>)
    decreases |schedule|
  {
    schedule == [] ||
    (Calm(c, s, schedule[0]) &&
     (Exec(c, s, schedule[0]).Ok? ==> CalmRun(c, Exec(c, s, schedule[0]).state, schedule[1..])))
  }

  ghost function Initial(c: Config, file: seq<seq<Record>>): State {
    State(file, None, [], 0, seq(c.threads, _ => AtTop), None)
  }

  ghost predicate EvenWindows(c: Config, file: seq<seq<Record>>) {
    forall i | 0 <= i < |file| :: |file[i]| == c.recsInBuffer
  }

  /** There are files of at least one window, and of whole windows only. */
  predicate WholeFile(c: Config) {
    c.size > 0 && c.sizeOfFile > 0 && c.sizeOfFile % c.size == 0
  }

  /** The file consists of whole windows. */
  ghost predicate FileOf(c: Config, file: seq<seq<Record>>) {
    |file| * c.size == c.sizeOfFile && EvenWindows(c, file)
  }

  ghost predicate AllDone(s: State) {
    forall t | 0 <= t < |s.pcs| :: s.pcs[t].Done?
  }

  /** What every step keeps of a range: its records, and their order by key when `qsort` is stable. */
  ghost predicate Kept(stable: bool, a: seq<Record>, b: seq<Record>) {
    multiset(a) == multiset(b) && (stable ==> SameByKey(a, b))
  }

  lemma SpliceSameByKey(s: seq<Record>, lo: nat, t: seq<Record>)
    requires lo + |t| <= |s| && SameByKey(t, s[lo..lo + |t|])
    ensures SameByKey(Splice(s, lo, t), s)
  {
    var mid, hi := s[lo..lo + |t|], s[lo + |t|..];
    assert s == s[..lo] + mid + hi;
    SameByKeyConcat(s[..lo], t, s[..lo], mid);
    SameByKeyConcat(s[..lo] + t, hi, s[..lo] + mid, hi);
  }

  lemma SpliceKept(stable: bool, s: seq<Record>, lo: nat, t: seq<Record>)
    requires lo + |t| <= |s| && Kept(stable, t, s[lo..lo + |t|])
    ensures Kept(stable, Splice(s, lo, t), s)
  {
    assert s == s[..lo] + s[lo..lo + |t|] + s[lo + |t|..];
    if stable {
      SpliceSameByKey(s, lo, t);
    }
  }
}
