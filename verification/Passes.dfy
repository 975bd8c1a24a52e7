/** Passes over a window of runs that are merged in pairs, from the left, and what becomes of windows of which some
    pairs are merged more than once. */
module Passes {
  import opened Records
  import opened Merging

  // ---- Windows whose pairs have been merged a number of times each.

  /** A pair of runs of `n` records, merged `k` times. */
  ghost function Times(pair: seq<Record>, n: nat, k: nat): (r: seq<Record>)
    requires |pair| == 2 * n
    ensures |r| == 2 * n
  {
    if k == 0 then pair
    else
      var q := Times(pair, n, k - 1);
      MergeRunsLength(q[..n], q[n..]);
      MergeRuns(q[..n], q[n..])
  }

  /** Pair `p` of the window has been merged `counts[p]` times. */
  ghost function Merged(w: seq<Record>, n: nat, counts: seq<nat>): (r: seq<Record>)
    ensures |r| == |w|
    decreases |counts|
  {
    if counts == [] || |w| < 2 * n then w
    else Times(w[..2 * n], n, counts[0]) + Merged(w[2 * n..], n, counts[1..])
  }

  /** One sequential pass: the first `k` pairs of runs of `n` records are merged, from the left. */
  ghost function Pass(w: seq<Record>, n: nat, k: nat): seq<Record>
    decreases k
  {
    if k == 0 || |w| < 2 * n then w
    else MergeRuns(w[..n], w[n..2 * n]) + Pass(w[2 * n..], n, k - 1)
  }

  /** Piece `p` of length `d` starts at `lo`. */
  predicate StartsAt(p: nat, d: nat, lo: int) {
    if p == 0 then lo == 0 else StartsAt(p - 1, d, lo - d)
  }

  lemma {:induction false} StartsAtProduct(p: nat, d: nat, lo: nat)
    requires lo == p * d
    ensures StartsAt(p, d, lo)
    decreases p
  {
    if p > 0 {
      assert p * d == (p - 1) * d + d;
      StartsAtProduct(p - 1, d, lo - d);
    }
  }

  lemma {:induction false} StartsInside(p: nat, d: nat, lo: int)
    requires StartsAt(p, d, lo)
    ensures lo >= 0 && (p > 0 ==> lo >= d)
    decreases p
  {
    if p > 0 {
      StartsInside(p - 1, d, lo - d);
    }
  }

  lemma SpliceBehind(head: seq<Record>, rest: seq<Record>, up: nat, m: seq<Record>, n: nat)
    requires up + 2 * n <= |rest| && |m| == 2 * n
    ensures var v, lo := head + rest, |head| + up;
            && v[lo..lo + n] == rest[up..up + n] && v[lo + n..lo + 2 * n] == rest[up + n..up + 2 * n]
            && Splice(v, lo, m) == head + Splice(rest, up, m)
  {
  }

  /** The pair of `v` at `lo`, merged. */
  ghost function PairMerged(v: seq<Record>, lo: nat, n: nat): (m: seq<Record>)
    requires lo + 2 * n <= |v|
    ensures |m| == 2 * n
  {
    MergeRunsLength(v[lo..lo + n], v[lo + n..lo + 2 * n]);
    MergeRuns(v[lo..lo + n], v[lo + n..lo + 2 * n])
  }

  lemma UpdateBehind(counts: seq<nat>, p: nat, x: nat)
    requires p < |counts|
    ensures p == 0 ==> counts[p := x][1..] == counts[1..] && counts[p := x][0] == x
    ensures p > 0 ==> counts[p := x][1..] == counts[1..][p - 1 := x] && counts[p := x][0] == counts[0]
  {
  }

  lemma MergeInFront(head: seq<Record>, rest: seq<Record>, n: nat)
    requires |head| == 2 * n
    ensures Splice(head + rest, 0, PairMerged(head + rest, 0, n)) == PairMerged(head, 0, n) + rest
  {
    var v := head + rest;
    assert v[0..n] == head[0..n] && v[n..2 * n] == head[n..2 * n];
    assert Splice(v, 0, PairMerged(v, 0, n)) == PairMerged(v, 0, n) + v[2 * n..];
    assert v[2 * n..] == rest;
  }

  lemma OneMoreTime(pair: seq<Record>, n: nat, k: nat)
    requires |pair| == 2 * n
    ensures PairMerged(Times(pair, n, k), 0, n) == Times(pair, n, k + 1)
  {
    var q := Times(pair, n, k);
    assert q[0..n] == q[..n] && q[n..2 * n] == q[n..];
  }

  lemma MergedSplits(w: seq<Record>, n: nat, counts: seq<nat>)
    requires counts != [] && |w| >= 2 * n
    ensures Merged(w, n, counts) == Times(w[..2 * n], n, counts[0]) + Merged(w[2 * n..], n, counts[1..])
  {
  }

  lemma FirstMergedOnce(w: seq<Record>, n: nat, counts: seq<nat>, more: seq<nat>)
    requires counts != [] && more != [] && more[0] == counts[0] + 1 && more[1..] == counts[1..] && 2 * n <= |w|
    ensures var v := Merged(w, n, counts); Splice(v, 0, PairMerged(v, 0, n)) == Merged(w, n, more)
  {
    MergedSplits(w, n, counts);
    MergedSplits(w, n, more);
    MergeInFront(Times(w[..2 * n], n, counts[0]), Merged(w[2 * n..], n, counts[1..]), n);
    OneMoreTime(w[..2 * n], n, counts[0]);
  }

  lemma MergeBehind(head: seq<Record>, rest: seq<Record>, up: nat, n: nat)
    requires up + 2 * n <= |rest|
    ensures var v, lo := head + rest, |head| + up;
            Splice(v, lo, PairMerged(v, lo, n)) == head + Splice(rest, up, PairMerged(rest, up, n))
  {
    SpliceBehind(head, rest, up, PairMerged(rest, up, n), n);
  }

  /** Merging the pair of `v` at `lo` in place makes it `u`. */
  ghost predicate MergesTo(v: seq<Record>, lo: int, n: nat, u: seq<Record>) {
    0 <= lo && lo + 2 * n <= |v| && Splice(v, lo, PairMerged(v, lo, n)) == u
  }

  lemma MergesBehind(
    head: seq<Record>, rest: seq<Record>, up: int, n: nat, after: seq<Record>, v: seq<Record>, u: seq<Record>, lo: int)
    requires MergesTo(rest, up, n, after) && v == head + rest && u == head + after && lo == |head| + up
    ensures MergesTo(v, lo, n, u)
  {
    MergeBehind(head, rest, up, n);
  }

  lemma MergesLater(
    w: seq<Record>, n: nat, counts: seq<nat>, more: seq<nat>, v: seq<Record>, lo: int, u: seq<Record>)
    requires counts != [] && more != [] && more[0] == counts[0] && 2 * n <= |w|
    requires MergesTo(Merged(w[2 * n..], n, counts[1..]), lo - 2 * n, n, Merged(w[2 * n..], n, more[1..]))
    requires v == Merged(w, n, counts) && u == Merged(w, n, more)
    ensures MergesTo(v, lo, n, u)
  {
    var rest, after := Merged(w[2 * n..], n, counts[1..]), Merged(w[2 * n..], n, more[1..]);
    MergedSplits(w, n, counts);
    MergedSplits(w, n, more);
    MergesBehind(Times(w[..2 * n], n, counts[0]), rest, lo - 2 * n, n, after, v, u, lo);
  }

  /** Merging one pair in place counts it once more. */
  lemma {:induction false} MergedOnce(w: seq<Record>, n: nat, counts: seq<nat>, more: seq<nat>, p: nat, lo: int)
    requires p < |counts| && more == counts[p := counts[p] + 1] && StartsAt(p, 2 * n, lo) && lo + 2 * n <= |w|
    ensures MergesTo(Merged(w, n, counts), lo, n, Merged(w, n, more))
    decreases p
  {
    UpdateBehind(counts, p, counts[p] + 1);
    if p == 0 {
      FirstMergedOnce(w, n, counts, more);
    } else {
      StartsInside(p, 2 * n, lo);
      MergedOnce(w[2 * n..], n, counts[1..], more[1..], p - 1, lo - 2 * n);
      MergesLater(w, n, counts, more, Merged(w, n, counts), lo, Merged(w, n, more));
    }
  }

  /** A pass counts every pair once more. */
  lemma {:induction false} PassOfMerged(w: seq<Record>, n: nat, counts: seq<nat>)
    ensures Pass(Merged(w, n, counts), n, |counts|)
            == Merged(w, n, seq(|counts|, i requires 0 <= i < |counts| => counts[i] + 1))
    decreases |counts|
  {
    if counts != [] && |w| >= 2 * n {
      var more := seq(|counts|, i requires 0 <= i < |counts| => counts[i] + 1);
      var v, rest := Merged(w, n, counts), counts[1..];
      PassOfMerged(w[2 * n..], n, rest);
      var head := Times(w[..2 * n], n, counts[0]);
      assert v[..n] == head[..n] && v[n..2 * n] == head[n..] && v[2 * n..] == Merged(w[2 * n..], n, rest);
      assert more[1..] == seq(|rest|, i requires 0 <= i < |rest| => rest[i] + 1);
    }
  }

  lemma {:induction false} NoneMerged(w: seq<Record>, n: nat, k: nat)
    ensures Merged(w, n, seq(k, _ => 0)) == w
    decreases k
  {
    if k > 0 && |w| >= 2 * n {
      assert seq(k, _ => 0)[1..] == seq(k - 1, _ => 0);
      NoneMerged(w[2 * n..], n, k - 1);
    }
  }

  lemma PassIsOnce(w: seq<Record>, n: nat, k: nat)
    ensures Pass(w, n, k) == Merged(w, n, seq(k, _ => 1))
  {
    var zero := seq(k, _ => 0);
    NoneMerged(w, n, k);
    PassOfMerged(w, n, zero);
    assert seq(k, i requires 0 <= i < k => zero[i] + 1) == seq(k, _ => 1);
  }

  lemma PassLength(w: seq<Record>, n: nat, k: nat)
    ensures |Pass(w, n, k)| == |w|
  {
    PassIsOnce(w, n, k);
  }

  lemma SecondPassIsTwice(w: seq<Record>, n: nat, k: nat)
    ensures Pass(Pass(w, n, k), n, k) == Merged(w, n, seq(k, _ => 2))
  {
    var one := seq(k, _ => 1);
    PassIsOnce(w, n, k);
    PassOfMerged(w, n, one);
    assert seq(k, i requires 0 <= i < k => one[i] + 1) == seq(k, _ => 2);
  }

  /** A second pass changes nothing. */
  ghost predicate SecondPassIdle(w: seq<Record>, n: nat, k: nat) {
    Pass(Pass(w, n, k), n, k) == Pass(w, n, k)
  }

  lemma {:induction false} TimesIdle(pair: seq<Record>, n: nat, k: nat)
    requires |pair| == 2 * n && k >= 1 && Times(pair, n, 2) == Times(pair, n, 1)
    ensures Times(pair, n, k) == Times(pair, n, 1)
    decreases k
  {
    if k > 2 {
      TimesIdle(pair, n, k - 1);
    }
  }

  lemma TimesOnce(w: seq<Record>, n: nat)
    requires |w| >= 2 * n
    ensures Times(w[..2 * n], n, 1) == MergeRuns(w[..n], w[n..2 * n])
  {
    var pair := w[..2 * n];
    assert pair[..n] == w[..n] && pair[n..] == w[n..2 * n];
    assert Times(pair, n, 0) == pair;
  }

  lemma PassSplits(w: seq<Record>, n: nat, k: nat)
    requires k > 0 && |w| >= 2 * n
    ensures var m, rest := MergeRuns(w[..n], w[n..2 * n]), Pass(w[2 * n..], n, k - 1);
            var v := Pass(w, n, k);
            |m| == 2 * n && v == m + rest && v[..n] == m[..n] && v[n..2 * n] == m[n..] && v[2 * n..] == rest
  {
    MergeRunsLength(w[..n], w[n..2 * n]);
  }

  lemma SameParts(a: seq<Record>, b: seq<Record>, c: seq<Record>, d: seq<Record>)
    requires |a| == |c| && a + b == c + d
    ensures a == c && b == d
  {
    assert a == (a + b)[..|a|] && c == (c + d)[..|c|] && b == (a + b)[|a|..] && d == (c + d)[|c|..];
  }

  lemma IdleSplits(w: seq<Record>, n: nat, k: nat)
    requires SecondPassIdle(w, n, k) && k > 0 && |w| >= 2 * n
    ensures Times(w[..2 * n], n, 2) == Times(w[..2 * n], n, 1)
    ensures SecondPassIdle(w[2 * n..], n, k - 1)
  {
    var once, rest := Times(w[..2 * n], n, 1), Pass(w[2 * n..], n, k - 1);
    var v := Pass(w, n, k);
    TimesOnce(w, n);
    PassLength(w, n, k);
    PassSplits(w, n, k);
    PassSplits(v, n, k);
    assert Times(w[..2 * n], n, 2) == MergeRuns(once[..n], once[n..]);
    SameParts(Times(w[..2 * n], n, 2), Pass(rest, n, k - 1), once, rest);
  }

  /** If a second pass changes nothing, it does not matter how often a pair is merged. */
  lemma {:induction false} IdleMerged(w: seq<Record>, n: nat, counts: seq<nat>)
    requires SecondPassIdle(w, n, |counts|) && forall p | 0 <= p < |counts| :: counts[p] >= 1
    ensures Merged(w, n, counts) == Pass(w, n, |counts|)
    decreases |counts|
  {
    if counts != [] && |w| >= 2 * n {
      IdleSplits(w, n, |counts|);
      IdleMerged(w[2 * n..], n, counts[1..]);
      TimesIdle(w[..2 * n], n, counts[0]);
      TimesOnce(w, n);
      MergedSplits(w, n, counts);
      PassSplits(w, n, |counts|);
    }
  }

  lemma SortedPairIdle(a: seq<Record>, b: seq<Record>, n: nat)
    requires |a| == |b| == n && Sorted(a) && Sorted(b)
    ensures var m := MergeRuns(a, b); |m| == 2 * n && MergeRuns(m[..n], m[n..]) == m
  {
    var m := MergeRuns(a, b);
    MergeRunsLength(a, b);
    MergeRunsStable(a, b);
    assert m == m[..n] + m[n..];
    MergeAgainChangesNothing(m[..n], m[n..]);
  }

  lemma IdleJoins(w: seq<Record>, n: nat, k: nat)
    requires k > 0 && |w| >= 2 * n && SecondPassIdle(w[2 * n..], n, k - 1)
    requires var m := MergeRuns(w[..n], w[n..2 * n]); |m| == 2 * n && MergeRuns(m[..n], m[n..]) == m
    ensures SecondPassIdle(w, n, k)
  {
    PassSplits(w, n, k);
    PassLength(w, n, k);
    PassSplits(Pass(w, n, k), n, k);
  }

  /** The first `2 * k` runs of `n` records are there and sorted. */
  ghost predicate Ready(w: seq<Record>, n: nat, k: nat)
    decreases k
  {
    k == 0 || (|w| >= 2 * n && Sorted(w[..n]) && Sorted(w[n..2 * n]) && Ready(w[2 * n..], n, k - 1))
  }

  /** A second pass changes nothing on pairs of sorted runs. */
  lemma {:induction false} ReadyIdle(w: seq<Record>, n: nat, k: nat)
    requires Ready(w, n, k)
    ensures SecondPassIdle(w, n, k)
    decreases k
  {
    if k > 0 {
      ReadyIdle(w[2 * n..], n, k - 1);
      SortedPairIdle(w[..n], w[n..2 * n], n);
      IdleJoins(w, n, k);
    }
  }

  lemma {:induction false} SinglesReady(w: seq<Record>, k: nat)
    requires |w| >= 2 * k
    ensures Ready(w, 1, k)
    decreases k
  {
    if k > 0 {
      SinglesReady(w[2..], k - 1);
    }
  }

  lemma SortedMerge(w: seq<Record>, n: nat)
    requires |w| >= 2 * n && Sorted(w[..n]) && Sorted(w[n..2 * n])
    ensures Sorted(MergeRuns(w[..n], w[n..2 * n]))
  {
    MergeRunsStable(w[..n], w[n..2 * n]);
  }

  lemma PassSplitsTwice(w: seq<Record>, n: nat, k: nat)
    requires k >= 2 && |w| >= 4 * n
    ensures var one, two := MergeRuns(w[..n], w[n..2 * n]), MergeRuns(w[2 * n..][..n], w[2 * n..][n..2 * n]);
            var rest, v := Pass(w[4 * n..], n, k - 2), Pass(w, n, k);
            && |v| >= 4 * n && v[..2 * n] == one && v[2 * n..4 * n] == two && v[4 * n..] == rest
  {
    PassSplits(w, n, k);
    PassSplits(w[2 * n..], n, k - 1);
    assert w[2 * n..][2 * n..] == w[4 * n..];
    var v := Pass(w, n, k);
    assert v[2 * n..4 * n] == v[2 * n..][..2 * n] && v[4 * n..] == v[2 * n..][2 * n..];
  }

  /** The merged pairs of one pass are the sorted runs of the next. */
  lemma {:induction false} ReadyAgain(w: seq<Record>, n: nat, j: nat)
    requires Ready(w, n, 2 * j)
    ensures Ready(Pass(w, n, 2 * j), 2 * n, j)
    decreases j
  {
    hide MergeRuns, Sorted;
    if j > 0 {
      assert Ready(w[2 * n..], n, 2 * j - 1);
      assert w[2 * n..][2 * n..] == w[4 * n..];
      SortedMerge(w, n);
      SortedMerge(w[2 * n..], n);
      PassSplitsTwice(w, n, 2 * j);
      ReadyAgain(w[4 * n..], n, j - 1);
    }
  }

  lemma {:induction false} EmptyPass(w: seq<Record>, k: nat)
    ensures Pass(w, 0, k) == w
    decreases k
  {
    if k > 0 {
      EmptyPass(w, k - 1);
      assert w[0..] == w;
    }
  }

  /** What a pass makes of the time marks depends only on them. */
  lemma {:induction false} PassMarks(w: seq<Record>, v: seq<Record>, n: nat, k: nat)
    requires TimeMarks(w) == TimeMarks(v)
    ensures TimeMarks(Pass(w, n, k)) == TimeMarks(Pass(v, n, k))
    decreases k
  {
    if k > 0 && |w| >= 2 * n {
      assert |w| == |TimeMarks(w)| == |v|;
      MarksSliced(w, v, 0, n);
      MarksSliced(w, v, n, 2 * n);
      MarksSliced(w, v, 2 * n, |w|);
      assert w[0..n] == w[..n] && v[0..n] == v[..n] && w[2 * n..|w|] == w[2 * n..] && v[2 * n..|v|] == v[2 * n..];
      MergeRunsMarks(w[..n], w[n..2 * n], v[..n], v[n..2 * n]);
      PassMarks(w[2 * n..], v[2 * n..], n, k - 1);
      MarksJoined(MergeRuns(w[..n], w[n..2 * n]), Pass(w[2 * n..], n, k - 1),
                  MergeRuns(v[..n], v[n..2 * n]), Pass(v[2 * n..], n, k - 1));
    }
  }
}
