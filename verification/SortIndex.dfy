/** The shared variables of Lab6/src/sort_index.c and the statements of `func` that change them, in
    place. Each method is one step of a thread and does to the arrays what the protocol says. */
module SortIndex {
  import opened Options
  import opened Records
  import opened Merging
  import opened MergeCode
  import opened SortProtocol
  import opened SortInvariant
  import opened SortParameters
  import opened SortSafety
  import opened SortTheorems

  lemma SpliceTwice(s: seq<Record>, recs: nat, lo: nat, t: seq<Record>, origin: nat)
    requires lo + |t| <= recs && origin + recs <= |s|
    ensures Splice(s, origin + lo, t) == Splice(s, origin, Splice(s[origin..origin + recs], lo, t))
  {
  }

  /** Writing inside one window of a file is writing inside that window. */
  lemma SpliceInside(s: seq<Record>, recs: nat, w: nat, lo: nat, t: seq<Record>, origin: nat)
    requires recs > 0 && w < |Chunks(s, recs)| && lo + |t| <= recs && origin == w * recs
    ensures origin + recs <= |s| && |Chunks(s, recs)[w]| == recs
    ensures Chunks(s, recs)[w] == s[origin..origin + recs]
    ensures Chunks(Splice(s, origin + lo, t), recs) == Chunks(s, recs)[w := Splice(Chunks(s, recs)[w], lo, t)]
  {
    ChunkAt(s, recs, w);
    var inner := Splice(s[origin..origin + recs], lo, t);
    SpliceTwice(s, recs, lo, t, origin);
    SpliceChunk(s, recs, w, origin, inner);
  }

  /** Rewriting a part of the mapped window, seen on the whole file. */
  lemma RewriteOnFile(v: State, s: seq<Record>, recs: nat, lo: nat, out: seq<Record>, origin: nat)
    requires recs > 0 && v.windows == Chunks(s, recs) && lo + |out| <= recs
    requires v.mapped.Some? && v.mapped.value < |v.windows| && origin == v.mapped.value * recs
    ensures origin + lo + |out| <= |s| && |v.windows[v.mapped.value]| == recs
    ensures Rewrite(v, lo, out) == v.(windows := Chunks(Splice(s, origin + lo, out), recs))
  {
    SpliceInside(s, recs, v.mapped.value, lo, out, origin);
  }

  /** Copying a sequence into an array, as a C library routine leaves its output in place. */
  method WriteRange(a: array<Record>, lo: nat, out: seq<Record>)
    requires lo + |out| <= a.Length
    modifies a
    ensures a[..] == Splice(old(a[..]), lo, out)
  {
    for i := 0 to |out|
      invariant forall j | 0 <= j < a.Length ::
                  a[j] == if lo <= j < lo + i then out[j - lo] else old(a[j])
    {
      a[lo + i] := out[i];
    }
  }

  /** The call of `qsort` on a block, seen on the whole file. */
  lemma QsortOnFile(c: Config, v: State, t: nat, b: nat, out: seq<Record>, s: seq<Record>, lo: nat, origin: nat)
    requires c.recsInBuffer > 0 && v.windows == Chunks(s, c.recsInBuffer)
    requires t < |v.pcs| && SortBlock(c, v, t, b, out).Ok?
    requires lo == b * c.sizeOfBlock / RECORD_SIZE && origin == v.mapped.value * c.recsInBuffer
    ensures origin + lo + |out| <= |s|
    ensures SortBlock(c, v, t, b, out).state
            == v.(windows := Chunks(Splice(s, origin + lo, out), c.recsInBuffer), pcs := v.pcs[t := ClaimBlock])
  {
    ChunkSizes(s, c.recsInBuffer);
    RewriteOnFile(v, s, c.recsInBuffer, lo, out, origin);
  }

  lemma SubSlice(s: seq<Record>, lo: nat, hi: nat, i: nat, j: nat)
    requires lo <= hi <= |s| && i <= j <= hi - lo
    ensures s[lo..hi][i..j] == s[lo + i..lo + j]
  {
    forall k | 0 <= k < j - i ensures s[lo..hi][i..j][k] == s[lo + i..lo + j][k] {
      assert s[lo..hi][i..j][k] == s[lo..hi][i + k] == s[lo + i + k];
    }
  }

  lemma MergeInside(s: seq<Record>, origin: nat, recs: nat, win: seq<Record>, lo: nat, n: nat)
    requires origin + recs <= |s| && win == s[origin..origin + recs] && lo + 2 * n <= recs
    ensures var at, merged := origin + lo, MergeRuns(win[lo..lo + n], win[lo + n..lo + 2 * n]);
            |merged| == 2 * n && merged == Pending(s, at, at + n, at + n, at + 2 * n)
  {
    SubSlice(s, origin, origin + recs, lo, lo + n);
    SubSlice(s, origin, origin + recs, lo + n, lo + 2 * n);
    MergeRunsLength(win[lo..lo + n], win[lo + n..lo + 2 * n]);
  }

  /** The merge of a pair, seen on the whole file. */
  lemma MergeOnFile(c: Config, v: State, t: nat, s: seq<Record>, lo: nat, origin: nat, n: nat)
    requires c.recsInBuffer > 0 && v.windows == Chunks(s, c.recsInBuffer)
    requires t < |v.pcs| && v.pcs[t].MergePair? && DoMergePair(v, t).Ok?
    requires n == v.pcs[t].mergedSize / RECORD_SIZE && lo == v.pcs[t].curBlock * n
    requires origin == v.mapped.value * c.recsInBuffer
    ensures origin + lo + 2 * n <= |s|
    ensures var at := origin + lo;
            var merged := Pending(s, at, at + n, at + n, at + 2 * n);
            && |merged| == 2 * n
            && DoMergePair(v, t).state
               == v.(windows := Chunks(Splice(s, at, merged), c.recsInBuffer),
                     pcs := v.pcs[t := ClaimPair(v.pcs[t].mergedBlocks, v.pcs[t].mergedSize)])
  {
    var win := v.windows[v.mapped.value];
    ChunkAt(s, c.recsInBuffer, v.mapped.value);
    MergeInside(s, origin, c.recsInBuffer, win, lo, n);
    MergePairState(v, t, n, lo, v.mapped.value);
    var merged := MergeRuns(win[lo..lo + n], win[lo + n..lo + 2 * n]);
    RewriteOnFile(v, s, c.recsInBuffer, lo, merged, origin);
    assert DoMergePair(v, t).state
           == Rewrite(v, lo, merged).(pcs := v.pcs[t := ClaimPair(v.pcs[t].mergedBlocks, v.pcs[t].mergedSize)]);
  }

  class Sorter {
    const c: Config
    const file: array<Record>   // the whole buffer file; a window of it is mapped at a time
    const pcs: array<Pc>        // where each thread is, with its local variables
    var mapped: Option<nat>
    var busy: array<int>
    var sortedInBuffer: nat
    var result: Option<seq<Record>>

    ghost predicate Valid()
      reads this
    {
      c.recsInBuffer > 0 && c.blocks > 0
    }

    ghost function View(): State
      reads this, file, busy, pcs
      requires Valid()
    {
      State(Chunks(file[..], c.recsInBuffer), mapped, busy[..], sortedInBuffer, pcs[..], result)
    }

    constructor (c: Config, file: array<Record>)
      requires c.recsInBuffer > 0 && c.blocks > 0
      ensures Valid() && this.c == c && this.file == file && fresh(pcs) && fresh(busy)
      ensures View() == Initial(c, Chunks(file[..], c.recsInBuffer))
    {
      this.c := c;
      this.file := file;
      pcs := new Pc[c.threads](_ => AtTop);
      mapped := None;
      busy := new int[0];
      sortedInBuffer := 0;
      result := None;
    }

    /** The top of the loop: thread 0 maps the next window and prepares `busy`. */
    method Enter(t: nat)
      requires Valid() && t < pcs.Length && pcs[t].AtTop? && ExecThread(c, View(), t, []).Ok?
      modifies this, pcs
      ensures Valid() && (busy == old(busy) || fresh(busy))
      ensures Ok(View()) == old(ExecThread(c, View(), t, []))
    {
      if t == 0 {
        mapped := Some(sortedInBuffer);
        busy := new int[c.blocks](_ => 0);
        for i := 0 to c.blocks
          invariant unchanged(file) && unchanged(pcs) && fresh(busy) && busy.Length == c.blocks
          invariant mapped == Some(sortedInBuffer) && sortedInBuffer == old(sortedInBuffer) && result == old(result)
          invariant forall j | 0 <= j < i :: busy[j] == if j < c.threads then j else -1
        {
          if i < c.threads {
            busy[i] := i;
          } else {
            busy[i] := -1;
          }
        }
        assert busy[..] == InitialBusy(c);
      }
      pcs[t] := WaitStart;
    }

    /** The call of `qsort` on block `b`: what it leaves in the block is `out`. */
    method Qsort(t: nat, b: nat, out: seq<Record>)
      requires Valid() && t < pcs.Length && SortBlock(c, View(), t, b, out).Ok?
      modifies file, pcs
      ensures Valid() && Ok(View()) == old(SortBlock(c, View(), t, b, out))
    {
      var lo := b * c.sizeOfBlock / RECORD_SIZE;
      var origin := mapped.value * c.recsInBuffer;
      QsortOnFile(c, View(), t, b, out, file[..], lo, origin);
      WriteRange(file, origin + lo, out);
      pcs[t] := ClaimBlock;
    }

    /** The search of `busy` under the mutex: the first free index below `limit`, or `limit`. */
    method FindFree(limit: nat) returns (curBlock: nat)
      requires limit <= busy.Length
      ensures curBlock == FirstFree(busy[..], 0, limit)
    {
      curBlock := 0;
      while curBlock < limit
        invariant 0 <= curBlock <= limit
        invariant FirstFree(busy[..], 0, limit) == FirstFree(busy[..], curBlock, limit)
      {
        if busy[curBlock] == -1 {
          break;
        }
        curBlock := curBlock + 1;
      }
    }

    method ClaimFreeBlock(t: nat)
      requires Valid() && t < pcs.Length && pcs[t].ClaimBlock? && DoClaimBlock(c, View(), t).Ok?
      modifies busy, pcs
      ensures Valid() && Ok(View()) == old(DoClaimBlock(c, View(), t))
    {
      var curBlock := FindFree(c.blocks);
      if curBlock == c.blocks {
        pcs[t] := WaitSorted;
      } else {
        busy[curBlock] := t;
        pcs[t] := SortClaimed(curBlock);
      }
    }

    /** The next store of `memset(busy, -1, ...)` on entering a merge round. */
    method ResetBusy(t: nat)
      requires Valid() && t < pcs.Length && pcs[t].Reset? && DoReset(c, View(), t).Ok?
      modifies busy, pcs
      ensures Valid() && Ok(View()) == old(DoReset(c, View(), t))
    {
      var left := pcs[t].left;
      if left == 0 {
        pcs[t] := ClaimPair(pcs[t].mergedBlocks, pcs[t].mergedSize);
      } else {
        busy[c.blocks - left] := -1;
        pcs[t] := pcs[t].(left := left - 1);
      }
    }

    method ClaimFreePair(t: nat)
      requires Valid() && t < pcs.Length && pcs[t].ClaimPair? && DoClaimPair(View(), t).Ok?
      modifies busy, pcs
      ensures Valid() && Ok(View()) == old(DoClaimPair(View(), t))
    {
      var mergedBlocks, mergedSize := pcs[t].mergedBlocks, pcs[t].mergedSize;
      var curBlock := FindFree(mergedBlocks);
      if curBlock == mergedBlocks {
        pcs[t] := WaitRound(mergedBlocks, mergedSize);
      } else {
        busy[curBlock] := t;
        busy[curBlock + 1] := t;
        pcs[t] := MergePair(mergedBlocks, mergedSize, curBlock);
      }
    }

    method MergeClaimed(t: nat)
      requires Valid() && t < pcs.Length && pcs[t].MergePair? && DoMergePair(View(), t).Ok?
      modifies file, pcs
      ensures Valid() && Ok(View()) == old(DoMergePair(View(), t))
    {
      var mergedBlocks, mergedSize, curBlock := pcs[t].mergedBlocks, pcs[t].mergedSize, pcs[t].curBlock;
      var recordsCount := mergedSize / RECORD_SIZE;
      var origin := mapped.value * c.recsInBuffer;
      var lo := curBlock * recordsCount;
      MergeOnFile(c, View(), t, file[..], lo, origin, recordsCount);
      Merge(file, origin, lo, recordsCount);
      pcs[t] := ClaimPair(mergedBlocks, mergedSize);
    }

    /** The end of a window: thread 0 unmaps it and counts it. */
    method CloseWindow(t: nat)
      requires Valid() && t < pcs.Length && pcs[t].Close?
      modifies this, pcs
      ensures Valid() && busy == old(busy) && Ok(View()) == old(ExecThread(c, View(), t, []))
    {
      if t == 0 {
        mapped := None;
        sortedInBuffer := sortedInBuffer + 1;
      }
      pcs[t] := WaitWindow;
    }

    method TestExit(t: nat)
      requires Valid() && t < pcs.Length && pcs[t].ExitTest?
      modifies pcs
      ensures Valid() && Ok(View()) == old(ExecThread(c, View(), t, []))
    {
      if sortedInBuffer * c.size >= c.sizeOfFile {
        if t == 0 {
          pcs[t] := WriteResult;
        } else {
          pcs[t] := Done;
        }
      } else {
        pcs[t] := AtTop;
      }
    }

    method WriteFile(t: nat)
      requires Valid() && t < pcs.Length && pcs[t].WriteResult? && DoWriteResult(c, View(), t).Ok?
      modifies this, pcs
      ensures Valid() && busy == old(busy) && Ok(View()) == old(DoWriteResult(c, View(), t))
    {
      var written := MergeSorted(file, sortedInBuffer, c.recsInBuffer, c.amountOfRecs);
      result := Some(written);
      pcs[t] := Done;
    }

    /** The barrier opens: every thread goes on from where it waits. */
    method PassBarrier()
      requires Valid() && Exec(c, View(), OpenBarrier).Ok?
      modifies pcs
      ensures Valid() && Ok(View()) == old(Exec(c, View(), OpenBarrier))
    {
      for t := 0 to pcs.Length
        invariant forall u | 0 <= u < pcs.Length :: pcs[u] == if u < t then Released(c, old(pcs[u])) else old(pcs[u])
      {
        pcs[t] := Released(c, pcs[t]);
      }
      assert pcs[..] == old(Exec(c, View(), OpenBarrier)).state.pcs;
    }

    /** One step of the schedule. */
    method Step(l: Label)
      requires Valid() && Exec(c, View(), l).Ok?
      modifies this, file, busy, pcs
      ensures Valid() && (busy == old(busy) || fresh(busy))
      ensures Ok(View()) == old(Exec(c, View(), l))
    {
      if l.OpenBarrier? {
        PassBarrier();
      } else {
        match pcs[l.t]
        case AtTop => Enter(l.t);
        case SortOwn => Qsort(l.t, l.t, l.out);
        case ClaimBlock => ClaimFreeBlock(l.t);
        case SortClaimed(b) => Qsort(l.t, b, l.out);
        case Reset(_, _, _) => ResetBusy(l.t);
        case ClaimPair(_, _) => ClaimFreePair(l.t);
        case MergePair(_, _, _) => MergeClaimed(l.t);
        case Close => CloseWindow(l.t);
        case ExitTest => TestExit(l.t);
        case WriteResult => WriteFile(l.t);
      }
    }

    /** Any calm schedule, executed on the arrays. If it starts from a safe state, the blocks fit, and all
        threads finish, the file has been sorted into the result. */
    method Execute(schedule: seq<Label>, ghost contents: seq<seq<Record>>)
      requires Valid() && Safe(c, contents, View()) && CalmRun(c, View(), schedule) && Run(c, View(), schedule).Ok?
      modifies this, file, busy, pcs
      ensures Valid() && Ok(View()) == old(Run(c, View(), schedule))
      ensures Safe(c, contents, View())
      ensures AllDone(View()) ==> result.Some? && multiset(result.value) == multiset(Concat(contents))
      ensures AllDone(View()) && c.Fits() ==> SortedFile(c, contents, result)
    {
      ghost var goal := Run(c, View(), schedule);
      for i := 0 to |schedule|
        invariant Valid() && (busy == old(busy) || fresh(busy))
        invariant CalmRun(c, View(), schedule[i..]) && Run(c, View(), schedule[i..]) == goal
        invariant Safe(c, contents, View())
      {
        StepSafe(c, contents, View(), schedule[i]);
        assert schedule[i..][1..] == schedule[i + 1..];
        Step(schedule[i]);
      }
      if AllDone(View()) {
        DoneIsPermutation(c, contents, View());
        if c.Fits() {
          DoneIsSorted(c, contents, View());
        }
      }
    }
  }

  /** All threads finish under this calm schedule. */
  ghost predicate Finishes(c: Config, records: seq<Record>, schedule: seq<Label>) {
    c.recsInBuffer > 0 &&
    var s := Initial(c, Chunks(records, c.recsInBuffer));
    CalmRun(c, s, schedule) && Run(c, s, schedule).Ok? && AllDone(Run(c, s, schedule).state)
  }

  /** The whole program, under any calm schedule that lets all threads finish: what is written are the records of the
      file, and if the blocks are even, in order, and in stable order if the library sorts stably. */
  method SortFile(
    size: nat, blocks: nat, threads: nat, stableQsort: bool, file: array<Record>, schedule: seq<Label>)
    returns (written: Option<seq<Record>>)
    requires size > 0 && size % RECORD_SIZE == 0 && PowerOfTwo(blocks) && 1 <= threads < blocks
    requires file.Length > 0 && file.Length * RECORD_SIZE % size == 0
    requires Finishes(Configure(size, blocks, threads, file.Length * RECORD_SIZE, stableQsort), file[..], schedule)
    modifies file
    ensures written.Some? && multiset(written.value) == multiset(old(file[..]))
    ensures EvenBlocks(size, blocks) ==> Sorted(written.value)
    ensures EvenBlocks(size, blocks) && stableQsort ==> StableSortOf(written.value, old(file[..]))
  {
    var c := Configure(size, blocks, threads, file.Length * RECORD_SIZE, stableQsort);
    ghost var windows := Chunks(file[..], c.recsInBuffer);
    Configured(file[..], size, blocks, threads, stableQsort);
    FitsExactly(c);
    InitialSafe(c, windows);
    var sorter := new Sorter(c, file);
    sorter.Execute(schedule, windows);
    written := sorter.result;
  }
}
