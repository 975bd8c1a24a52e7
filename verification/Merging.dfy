/** The two merges of Lab6/src/sort_index.c as functions on values: `MergeRuns` for the pairwise merge
    inside a window and `KWay` for the final merge of all windows, with the proof that both are
    stable sorts of what they are given. */
module Merging {
  import opened Records

  /** Two-way merge; of equal time marks the left run comes first. */
  ghost function MergeRuns(a: seq<Record>, b: seq<Record>): seq<Record>
    decreases |a| + |b|
  {
    if a == [] then b
    else if b == [] then a
    else if a[0].timeMark <= b[0].timeMark then [a[0]] + MergeRuns(a[1..], b)
    else [b[0]] + MergeRuns(a, b[1..])
  }

  /** A head of the right run that is below the whole left run may be taken first. */
  lemma RightHeadFirst(a: seq<Record>, b: seq<Record>, rest: seq<Record>)
    requires Sorted(a) && a != [] && b != [] && b[0].timeMark < a[0].timeMark
    requires SameByKey(rest, a + b[1..])
    ensures SameByKey([b[0]] + rest, a + b)
  {
    forall k: real ensures At([b[0]] + rest, k) == At(a + b, k) {
      AtConcat(a, b, k);
      AtConcat(a, b[1..], k);
      assert At(rest, k) == At(a + b[1..], k);
      AtMember(a, k);
      assert ([b[0]] + rest)[1..] == rest;
    }
  }

  lemma {:induction false} MergeRunsStable(a: seq<Record>, b: seq<Record>)
    requires Sorted(a) && Sorted(b)
    ensures StableSortOf(MergeRuns(a, b), a + b)
    decreases |a| + |b|
  {
    if a == [] {
      assert a + b == b;
    } else if b == [] {
      assert a + b == a;
    } else if a[0].timeMark <= b[0].timeMark {
      MergeRunsStable(a[1..], b);
      assert a + b == [a[0]] + (a[1..] + b);
      SameByKeyConcat([a[0]], MergeRuns(a[1..], b), [a[0]], a[1..] + b);
      SameByKeyAtLeast(a[1..] + b, MergeRuns(a[1..], b), a[0].timeMark);
      SortedCons(a[0], MergeRuns(a[1..], b));
    } else {
      MergeRunsStable(a, b[1..]);
      RightHeadFirst(a, b, MergeRuns(a, b[1..]));
      SameByKeyAtLeast(a + b[1..], MergeRuns(a, b[1..]), b[0].timeMark);
      SortedCons(b[0], MergeRuns(a, b[1..]));
    }
  }

  lemma {:induction false} MergeRunsLength(a: seq<Record>, b: seq<Record>)
    ensures |MergeRuns(a, b)| == |a| + |b|
    decreases |a| + |b|
  {
    if a != [] && b != [] {
      if a[0].timeMark <= b[0].timeMark {
        MergeRunsLength(a[1..], b);
      } else {
        MergeRunsLength(a, b[1..]);
      }
    }
  }

  lemma {:induction false} MergeRunsPermutes(a: seq<Record>, b: seq<Record>)
    ensures multiset(MergeRuns(a, b)) == multiset(a) + multiset(b)
    decreases |a| + |b|
  {
    if a != [] && b != [] {
      assert a == [a[0]] + a[1..] && b == [b[0]] + b[1..];
      if a[0].timeMark <= b[0].timeMark {
        MergeRunsPermutes(a[1..], b);
      } else {
        MergeRunsPermutes(a, b[1..]);
      }
    }
  }

  lemma MarksSliced(a: seq<Record>, b: seq<Record>, lo: nat, hi: nat)
    requires TimeMarks(a) == TimeMarks(b) && lo <= hi <= |a|
    ensures |a| == |b| && TimeMarks(a[lo..hi]) == TimeMarks(b[lo..hi])
  {
    assert |a| == |TimeMarks(a)| == |b|;
    forall i | 0 <= i < hi - lo ensures a[lo..hi][i].timeMark == b[lo..hi][i].timeMark {
      assert TimeMarks(a)[lo + i] == TimeMarks(b)[lo + i];
    }
  }

  lemma MarksJoined(a: seq<Record>, b: seq<Record>, c: seq<Record>, d: seq<Record>)
    requires TimeMarks(a) == TimeMarks(c) && TimeMarks(b) == TimeMarks(d)
    ensures TimeMarks(a + b) == TimeMarks(c + d)
  {
    assert TimeMarks(a + b) == TimeMarks(a) + TimeMarks(b) && TimeMarks(c + d) == TimeMarks(c) + TimeMarks(d);
  }

  lemma MarksTail(a: seq<Record>, b: seq<Record>)
    requires TimeMarks(a) == TimeMarks(b) && a != []
    ensures b != [] && a[0].timeMark == b[0].timeMark && TimeMarks(a[1..]) == TimeMarks(b[1..])
  {
    assert |a| == |TimeMarks(a)| == |b| && TimeMarks(a)[0] == TimeMarks(b)[0];
    MarksSliced(a, b, 1, |a|);
  }

  lemma {:induction false} MergeRunsMarks(a: seq<Record>, b: seq<Record>, c: seq<Record>, d: seq<Record>)
    requires TimeMarks(a) == TimeMarks(c) && TimeMarks(b) == TimeMarks(d)
    ensures TimeMarks(MergeRuns(a, b)) == TimeMarks(MergeRuns(c, d))
    decreases |a| + |b|
  {
    assert |a| == |TimeMarks(a)| == |c| && |b| == |TimeMarks(b)| == |d|;
    if a != [] && b != [] {
      MarksTail(a, c);
      MarksTail(b, d);
      if a[0].timeMark <= b[0].timeMark {
        MergeRunsMarks(a[1..], b, c[1..], d);
        MarksJoined([a[0]], MergeRuns(a[1..], b), [c[0]], MergeRuns(c[1..], d));
      } else {
        MergeRunsMarks(a, b[1..], c, d[1..]);
        MarksJoined([b[0]], MergeRuns(a, b[1..]), [d[0]], MergeRuns(c, d[1..]));
      }
    }
  }

  /** If no record of the left run is above the head of the right one, merging changes nothing. */
  lemma {:induction false} MergeLeaves(a: seq<Record>, b: seq<Record>)
    requires b != [] ==> forall i | 0 <= i < |a| :: a[i].timeMark <= b[0].timeMark
    ensures MergeRuns(a, b) == a + b
  {
    if a != [] && b != [] {
      MergeLeaves(a[1..], b);
      assert a + b == [a[0]] + (a[1..] + b);
    }
  }

  /** Merging an already merged pair changes no record, not even among equal time marks. */
  lemma MergeAgainChangesNothing(a: seq<Record>, b: seq<Record>)
    requires Sorted(a + b)
    ensures MergeRuns(a, b) == a + b
  {
    assert Sorted(a) by {
      forall i, j | 0 <= i < j < |a| ensures a[i].timeMark <= a[j].timeMark {
        assert (a + b)[i] == a[i] && (a + b)[j] == a[j];
      }
    }
    assert Sorted(b) by {
      forall i, j | 0 <= i < j < |b| ensures b[i].timeMark <= b[j].timeMark {
        assert (a + b)[|a| + i] == b[i] && (a + b)[|a| + j] == b[j];
      }
    }
    MergeRunsStable(a, b);
    StableSortUnique(MergeRuns(a, b), a + b);
  }

  // ---- A stretch of records cut into pieces of the same length.

  /** `s` with `t` written from position `lo` on. */
  ghost function Splice(s: seq<Record>, lo: nat, t: seq<Record>): (r: seq<Record>)
    requires lo + |t| <= |s|
    ensures |r| == |s|
    ensures r[lo..lo + |t|] == t
  {
    s[..lo] + t + s[lo + |t|..]
  }

  /** The consecutive pieces of `n` records of `s`: the blocks or runs of a window, the windows of a file. */
  ghost function Chunks(s: seq<Record>, n: nat): seq<seq<Record>>
    requires n > 0
    decreases |s|
  {
    if |s| < n then [] else [s[..n]] + Chunks(s[n..], n)
  }

  lemma {:induction false} ChunksLength(s: seq<Record>, n: nat, m: nat)
    requires n > 0 && |s| == m * n
    ensures |Chunks(s, n)| == m
    decreases m
  {
    if m > 0 {
      assert |s[n..]| == (m - 1) * n;
      ChunksLength(s[n..], n, m - 1);
    }
  }

  lemma {:induction false} ChunkAt(s: seq<Record>, n: nat, b: nat)
    requires n > 0 && b < |Chunks(s, n)|
    ensures 0 <= b * n && b * n + n <= |s|
    ensures Chunks(s, n)[b] == s[b * n..b * n + n]
    decreases b
  {
    if b > 0 {
      var lo := (b - 1) * n;
      assert b * n == lo + n;
      ChunkAt(s[n..], n, b - 1);
      assert Chunks(s, n)[b] == Chunks(s[n..], n)[b - 1];
      assert s[n..][lo..lo + n] == s[lo + n..lo + n + n];
    }
  }

  lemma {:induction false} ChunkSizes(s: seq<Record>, n: nat)
    requires n > 0
    ensures forall b | 0 <= b < |Chunks(s, n)| :: |Chunks(s, n)[b]| == n
    decreases |s|
  {
    if |s| >= n {
      ChunkSizes(s[n..], n);
    }
  }

  /** Rewriting one piece leaves all others alone. */
  lemma {:induction false} SpliceChunk(s: seq<Record>, n: nat, b: nat, lo: nat, t: seq<Record>)
    requires n > 0 && b < |Chunks(s, n)| && |t| == n && lo == b * n
    ensures lo + n <= |s|
    ensures Chunks(Splice(s, lo, t), n) == Chunks(s, n)[b := t]
    decreases b
  {
    ChunkAt(s, n, b);
    if b == 0 {
      assert Splice(s, 0, t)[..n] == t && Splice(s, 0, t)[n..] == s[n..];
    } else {
      var up := lo - n;
      assert up == (b - 1) * n;
      SpliceChunk(s[n..], n, b - 1, up, t);
      assert Splice(s, lo, t)[..n] == s[..n];
      assert Splice(s, lo, t)[n..] == Splice(s[n..], up, t);
    }
  }

  /** Two neighbouring pieces are one piece of twice the length. */
  lemma {:induction false} ChunkPairs(s: seq<Record>, n: nat)
    requires n > 0 && |Chunks(s, n)| % 2 == 0
    ensures |Chunks(s, 2 * n)| == |Chunks(s, n)| / 2
    ensures forall p | 0 <= p < |Chunks(s, n)| / 2 ::
              Chunks(s, 2 * n)[p] == Chunks(s, n)[2 * p] + Chunks(s, n)[2 * p + 1]
    decreases |s|
  {
    if |s| >= 2 * n {
      var rest := s[n..][n..];
      assert rest == s[2 * n..];
      assert Chunks(s, n) == [s[..n], s[n..][..n]] + Chunks(rest, n);
      ChunkPairs(rest, n);
      assert s[..2 * n] == s[..n] + s[n..][..n];
    } else if |s| >= n {
      assert |Chunks(s, n)| == 1;
    }
  }

  // ---- The final merge of all runs.

  ghost function Concat(runs: seq<seq<Record>>): seq<Record> {
    if runs == [] then [] else runs[0] + Concat(runs[1..])
  }

  lemma {:induction false} ConcatUniform(runs: seq<seq<Record>>, recs: nat)
    requires forall i | 0 <= i < |runs| :: |runs[i]| == recs
    ensures |Concat(runs)| == |runs| * recs
  {
    if runs != [] {
      ConcatUniform(runs[1..], recs);
    }
  }

  lemma {:induction false} ConcatChunks(s: seq<Record>, n: nat, m: nat)
    requires n > 0 && |s| == m * n
    ensures Concat(Chunks(s, n)) == s
    decreases m
  {
    if m > 0 {
      assert |s[n..]| == (m - 1) * n;
      ConcatChunks(s[n..], n, m - 1);
      assert Chunks(s, n)[1..] == Chunks(s[n..], n);
      assert s == s[..n] + s[n..];
    }
  }

  ghost predicate AllSorted(runs: seq<seq<Record>>) {
    forall i | 0 <= i < |runs| :: Sorted(runs[i])
  }

  /** Run `m` supplies the next record of the first `n` runs: its head is least, and strictly less than
      the head of every earlier run. */
  ghost predicate Supplies(runs: seq<seq<Record>>, n: nat, m: int)
    requires n <= |runs|
  {
    && 0 <= m < n
    && runs[m] != []
    && (forall i | 0 <= i < n && runs[i] != [] ::
          && runs[m][0].timeMark <= runs[i][0].timeMark
          && (i < m ==> runs[m][0].timeMark < runs[i][0].timeMark))
  }

  lemma SuppliesUnique(runs: seq<seq<Record>>, m: int, m': int)
    requires Supplies(runs, |runs|, m) && Supplies(runs, |runs|, m')
    ensures m == m'
  {
  }

  lemma {:induction false} SomeRunSupplies(runs: seq<seq<Record>>, n: nat)
    requires n <= |runs| && exists i :: 0 <= i < n && runs[i] != []
    ensures exists m :: Supplies(runs, n, m)
  {
    if forall i | 0 <= i < n - 1 :: runs[i] == [] {
      assert Supplies(runs, n, n - 1);
    } else {
      SomeRunSupplies(runs, n - 1);
      var m :| Supplies(runs, n - 1, m);
      if runs[n - 1] != [] && runs[n - 1][0].timeMark < runs[m][0].timeMark {
        assert Supplies(runs, n, n - 1);
      } else {
        assert Supplies(runs, n, m);
      }
    }
  }

  lemma {:induction false} SomeRunUnexhausted(runs: seq<seq<Record>>)
    ensures |Concat(runs)| > 0 <==> exists i :: 0 <= i < |runs| && runs[i] != []
  {
    if runs != [] {
      SomeRunUnexhausted(runs[1..]);
      if runs[0] == [] {
        forall i | 0 <= i < |runs| && runs[i] != [] ensures |Concat(runs)| > 0 {
          assert runs[1..][i - 1] == runs[i];
        }
      }
    }
  }

  ghost function Advance(runs: seq<seq<Record>>, m: nat): seq<seq<Record>>
    requires m < |runs| && runs[m] != []
  {
    runs[m := runs[m][1..]]
  }

  lemma {:induction false} AdvanceLength(runs: seq<seq<Record>>, m: nat)
    requires m < |runs| && runs[m] != []
    ensures |Concat(Advance(runs, m))| == |Concat(runs)| - 1
  {
    if m == 0 {
      assert Advance(runs, m)[1..] == runs[1..];
    } else {
      AdvanceLength(runs[1..], m - 1);
      assert Advance(runs, m)[1..] == Advance(runs[1..], m - 1);
    }
  }

  /** The merge of all runs: the supplying run gives its head until nothing is left. */
  ghost function KWay(runs: seq<seq<Record>>): seq<Record>
    decreases |Concat(runs)|
  {
    if |Concat(runs)| == 0 then []
    else
      SomeRunUnexhausted(runs);
      SomeRunSupplies(runs, |runs|);
      var m :| Supplies(runs, |runs|, m);
      AdvanceLength(runs, m);
      [runs[m][0]] + KWay(Advance(runs, m))
  }

  lemma KWayStep(runs: seq<seq<Record>>, m: nat)
    requires Supplies(runs, |runs|, m)
    ensures |Concat(runs)| > 0
    ensures KWay(runs) == [runs[m][0]] + KWay(Advance(runs, m))
  {
    SomeRunUnexhausted(runs);
    forall m' | Supplies(runs, |runs|, m') ensures m' == m {
      SuppliesUnique(runs, m, m');
    }
  }

  lemma {:induction false} ConcatAdvancePermutes(runs: seq<seq<Record>>, m: nat)
    requires m < |runs| && runs[m] != []
    ensures multiset(Concat(runs)) == multiset{runs[m][0]} + multiset(Concat(Advance(runs, m)))
  {
    if m == 0 {
      assert Advance(runs, m)[1..] == runs[1..];
      assert runs[0] == [runs[0][0]] + runs[0][1..];
    } else {
      ConcatAdvancePermutes(runs[1..], m - 1);
      var later := Advance(runs[1..], m - 1);
      assert Advance(runs, m)[1..] == later;
      assert Concat(Advance(runs, m)) == runs[0] + Concat(later);
    }
  }

  /** The final merge writes every record once, whether the runs are sorted or not. */
  lemma {:induction false} KWayPermutes(runs: seq<seq<Record>>)
    ensures multiset(KWay(runs)) == multiset(Concat(runs))
    decreases |Concat(runs)|
  {
    if |Concat(runs)| > 0 {
      SomeRunUnexhausted(runs);
      SomeRunSupplies(runs, |runs|);
      var m :| Supplies(runs, |runs|, m);
      KWayStep(runs, m);
      AdvanceLength(runs, m);
      KWayPermutes(Advance(runs, m));
      ConcatAdvancePermutes(runs, m);
    }
  }

  lemma {:induction false} ConcatAdvance(runs: seq<seq<Record>>, m: nat, k: real)
    requires m < |runs| && runs[m] != []
    requires forall i | 0 <= i < m :: At(runs[i], runs[m][0].timeMark) == []
    ensures At(Concat(runs), k) == At([runs[m][0]], k) + At(Concat(Advance(runs, m)), k)
  {
    var x := runs[m][0];
    AtConcat(runs[0], Concat(runs[1..]), k);
    if m == 0 {
      assert Advance(runs, m)[1..] == runs[1..];
      AtConcat(runs[0][1..], Concat(runs[1..]), k);
      assert runs[0] == [x] + runs[0][1..];
      AtConcat([x], runs[0][1..], k);
    } else {
      ConcatAdvance(runs[1..], m - 1, k);
      var later := Advance(runs[1..], m - 1);
      assert Advance(runs, m)[1..] == later;
      assert Concat(Advance(runs, m)) == runs[0] + Concat(later);
      AtConcat(runs[0], Concat(later), k);
      if x.timeMark == k {
        assert At(runs[0], k) == [];
      }
    }
  }

  lemma {:induction false} ConcatAtLeast(runs: seq<seq<Record>>, k: real)
    requires forall i | 0 <= i < |runs| :: AtLeast(runs[i], k)
    ensures AtLeast(Concat(runs), k)
  {
    if runs != [] {
      ConcatAtLeast(runs[1..], k);
    }
  }

  lemma SupplierFirst(runs: seq<seq<Record>>, m: nat, rest: seq<Record>)
    requires AllSorted(runs) && Supplies(runs, |runs|, m)
    requires SameByKey(rest, Concat(Advance(runs, m)))
    ensures SameByKey([runs[m][0]] + rest, Concat(runs))
  {
    var x := runs[m][0];
    forall i | 0 <= i < m ensures At(runs[i], x.timeMark) == [] {
      AtMember(runs[i], x.timeMark);
    }
    forall k: real ensures At([x] + rest, k) == At(Concat(runs), k) {
      ConcatAdvance(runs, m, k);
      AtConcat([x], rest, k);
      assert At(rest, k) == At(Concat(Advance(runs, m)), k);
    }
  }

  lemma SupplierLeast(runs: seq<seq<Record>>, m: nat)
    requires AllSorted(runs) && Supplies(runs, |runs|, m)
    ensures AllSorted(Advance(runs, m))
    ensures AtLeast(Concat(Advance(runs, m)), runs[m][0].timeMark)
  {
    var rest := Advance(runs, m);
    forall i | 0 <= i < |rest| ensures AtLeast(rest[i], runs[m][0].timeMark) && Sorted(rest[i]) {
      assert Sorted(runs[i]);
    }
    ConcatAtLeast(rest, runs[m][0].timeMark);
  }

  lemma SupplierThenRest(runs: seq<seq<Record>>, m: nat, rest: seq<Record>)
    requires AllSorted(runs) && Supplies(runs, |runs|, m)
    requires StableSortOf(rest, Concat(Advance(runs, m)))
    ensures StableSortOf([runs[m][0]] + rest, Concat(runs))
  {
    SupplierFirst(runs, m, rest);
    SupplierLeast(runs, m);
    SameByKeyAtLeast(Concat(Advance(runs, m)), rest, runs[m][0].timeMark);
    SortedCons(runs[m][0], rest);
  }

  /** The final merge is the stable sort of all runs, taken by run number and then by position. */
  lemma {:induction false} KWayStable(runs: seq<seq<Record>>)
    requires AllSorted(runs)
    ensures StableSortOf(KWay(runs), Concat(runs))
    decreases |Concat(runs)|
  {
    if |Concat(runs)| > 0 {
      SomeRunUnexhausted(runs);
      SomeRunSupplies(runs, |runs|);
      var m :| Supplies(runs, |runs|, m);
      KWayStep(runs, m);
      AdvanceLength(runs, m);
      SupplierLeast(runs, m);
      KWayStable(Advance(runs, m));
      SupplierThenRest(runs, m, KWay(Advance(runs, m)));
    }
  }

  ghost predicate RunsAlike(runs: seq<seq<Record>>, other: seq<seq<Record>>) {
    |runs| == |other| && forall i | 0 <= i < |runs| :: TimeMarks(runs[i]) == TimeMarks(other[i])
  }

  lemma AlikeSupply(runs: seq<seq<Record>>, other: seq<seq<Record>>, m: nat)
    requires RunsAlike(runs, other) && Supplies(runs, |runs|, m)
    ensures Supplies(other, |other|, m) && runs[m][0].timeMark == other[m][0].timeMark
    ensures RunsAlike(Advance(runs, m), Advance(other, m))
  {
    forall i | 0 <= i < |other| && other[i] != []
      ensures runs[i] != [] && other[i][0].timeMark == runs[i][0].timeMark
    {
      MarksTail(other[i], runs[i]);
    }
    MarksTail(runs[m], other[m]);
  }

  /** What the final merge makes of the time marks depends only on them. */
  lemma {:induction false} KWayMarks(runs: seq<seq<Record>>, other: seq<seq<Record>>)
    requires RunsAlike(runs, other)
    ensures TimeMarks(KWay(runs)) == TimeMarks(KWay(other))
    decreases |Concat(runs)|
  {
    SomeRunUnexhausted(runs);
    SomeRunUnexhausted(other);
    if |Concat(runs)| > 0 {
      SomeRunSupplies(runs, |runs|);
      var m :| Supplies(runs, |runs|, m);
      AlikeSupply(runs, other, m);
      KWayStep(runs, m);
      KWayStep(other, m);
      AdvanceLength(runs, m);
      KWayMarks(Advance(runs, m), Advance(other, m));
      MarksJoined([runs[m][0]], KWay(Advance(runs, m)), [other[m][0]], KWay(Advance(other, m)));
    } else {
      forall i | 0 <= i < |other| ensures other[i] == [] {
        assert |other[i]| == |TimeMarks(other[i])| == |runs[i]|;
      }
    }
  }
}
