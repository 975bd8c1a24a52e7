/** Windows that are in order but for one pair of runs, and passes over them. In two kinds of them, hills and cliffs,
    a second pass goes on changing that pair. */
module Hills {
  import opened Records
  import opened Merging
  import opened Passes
  import opened SortSizes

  function Keyed(key: real): Record { Record(key, 0) }

  /** Equal time marks are equal records. */
  ghost predicate Plain(w: seq<Record>) {
    forall i | 0 <= i < |w| :: w[i] == Keyed(w[i].timeMark)
  }

  /** No record comes after the records of dull windows. */
  ghost predicate UpToNine(w: seq<Record>) {
    forall i | 0 <= i < |w| :: w[i].timeMark <= 9.0
  }

  // ---- Passes over windows that are nearly in order.

  /** Pair `j` of runs of `n` records is there, and its left run is not above the head of the right one. */
  ghost predicate PairQuiet(w: seq<Record>, n: nat, j: nat)
    requires n > 0
  {
    var q := (2 * j + 1) * n;
    q + n <= |w| && forall i | 0 <= q - n <= i < q :: w[i].timeMark <= w[q].timeMark
  }

  lemma QuietShifted(w: seq<Record>, n: nat, j: nat)
    requires n > 0 && 2 * n <= |w| && PairQuiet(w, n, j + 1)
    ensures PairQuiet(w[2 * n..], n, j)
  {
    var x := j * n;
    assert (2 * (j + 1) + 1) * n == 2 * x + 3 * n && (2 * j + 1) * n == 2 * x + n;
    var v, q := w[2 * n..], 2 * x + n;
    assert v[q] == w[q + 2 * n];
    forall i | q - n <= i < q ensures v[i].timeMark <= v[q].timeMark {
      assert v[i] == w[i + 2 * n];
    }
  }

  lemma QuietFront(w: seq<Record>, n: nat)
    requires n > 0 && PairQuiet(w, n, 0)
    ensures 2 * n <= |w| && MergeRuns(w[..n], w[n..2 * n]) == w[..2 * n]
  {
    assert (2 * 0 + 1) * n == n;
    MergeLeaves(w[..n], w[n..2 * n]);
    assert w[..n] + w[n..2 * n] == w[..2 * n];
  }

  lemma {:induction false} PassLeaves(w: seq<Record>, n: nat, k: nat)
    requires n > 0 && forall j: nat | j < k :: PairQuiet(w, n, j)
    ensures Pass(w, n, k) == w
    decreases k
  {
    if k > 0 {
      QuietFront(w, n);
      forall j: nat | j < k - 1 ensures PairQuiet(w[2 * n..], n, j) {
        QuietShifted(w, n, j);
      }
      PassLeaves(w[2 * n..], n, k - 1);
    }
  }

  lemma MergesInFront(w: seq<Record>, n: nat, u: seq<Record>)
    requires MergesTo(w, 0, n, u)
    ensures 2 * n <= |w| && u == MergeRuns(w[..n], w[n..2 * n]) + w[2 * n..]
  {
    assert w[0..n] == w[..n];
  }

  lemma MergesBehindFront(w: seq<Record>, lo: nat, n: nat, u: seq<Record>)
    requires MergesTo(w, lo, n, u) && lo >= 2 * n
    ensures |w| == |u| && u[..2 * n] == w[..2 * n] && MergesTo(w[2 * n..], lo - 2 * n, n, u[2 * n..])
  {
    var head, rest, up := w[..2 * n], w[2 * n..], lo - 2 * n;
    assert w == head + rest;
    MergeBehind(head, rest, up, n);
    assert u == head + Splice(rest, up, PairMerged(rest, up, n));
  }

  /** A pass on a window in which only pair `p` is not quiet merges that pair. */
  lemma {:induction false} PassMergesOne(w: seq<Record>, n: nat, k: nat, p: nat, lo: nat, u: seq<Record>)
    requires n > 0 && p < k && StartsAt(p, 2 * n, lo) && MergesTo(w, lo, n, u) && lo + 2 * n <= |w|
    requires forall j: nat | j < k && j != p :: PairQuiet(w, n, j)
    ensures Pass(w, n, k) == u
    decreases k
  {
    hide PairQuiet, MergesTo;
    StartsInside(p, 2 * n, lo);
    forall j: nat | j < k - 1 && j + 1 != p ensures PairQuiet(w[2 * n..], n, j) {
      QuietShifted(w, n, j);
    }
    if p == 0 {
      MergesInFront(w, n, u);
      PassLeaves(w[2 * n..], n, k - 1);
    } else {
      MergesBehindFront(w, lo, n, u);
      QuietFront(w, n);
      PassMergesOne(w[2 * n..], n, k - 1, p - 1, lo - 2 * n, u[2 * n..]);
      assert u == u[..2 * n] + u[2 * n..];
    }
  }

  /** Outside of `lo` to `hi` no record comes after a greater one. */
  ghost predicate PeaksBut(w: seq<Record>, lo: nat, hi: nat) {
    forall q, i | 0 <= i < q < |w| && !(lo <= q <= hi) :: w[i].timeMark <= w[q].timeMark
  }

  predicate Within(lo: nat, hi: nat, n: nat, j: nat) {
    lo <= (2 * j + 1) * n <= hi
  }

  /** The heads of right runs of `n` records avoid the records from `lo` to `hi`. */
  ghost predicate Avoids(lo: nat, hi: nat, n: nat) {
    forall j: nat :: !Within(lo, hi, n, j)
  }

  lemma PeaksQuiet(w: seq<Record>, lo: nat, hi: nat, n: nat, k: nat, j: nat)
    requires n > 0 && PeaksBut(w, lo, hi) && !Within(lo, hi, n, j) && j < k && 2 * k * n <= |w|
    ensures PairQuiet(w, n, j)
  {
    MulMono(2 * j + 2, 2 * k, n);
    assert (2 * j + 2) * n == (2 * j + 1) * n + n;
  }

  lemma OtherPair(n: nat, p: nat, o: nat, j: nat)
    requires n > 0 && o == p * (2 * n) && j != p
    ensures !Within(o + 1, o + n + 1, n, j)
  {
    var x, y := p * n, j * n;
    assert o == 2 * x && (2 * j + 1) * n == 2 * y + n;
    if j < p {
      MulMono(j + 1, p, n);
    } else {
      MulMono(p + 1, j, n);
    }
  }

  lemma WithinLess(lo: nat, hi: nat, lo': nat, hi': nat, n: nat, j: nat)
    requires lo <= lo' && hi' <= hi && !Within(lo, hi, n, j)
    ensures !Within(lo', hi', n, j)
  {
  }

  /** A pass on a window that is out of order around one pair only. */
  lemma OnePairPass(w: seq<Record>, u: seq<Record>, n: nat, k: nat, p: nat, o: nat, lo: nat, hi: nat)
    requires n > 0 && p < k && 2 * k * n <= |w| && o == p * (2 * n) && MergesTo(w, o, n, u)
    requires PeaksBut(w, lo, hi) && o < lo && hi <= o + n + 1
    ensures Pass(w, n, k) == u
  {
    hide PairQuiet, PeaksBut, Within;
    StartsAtProduct(p, 2 * n, o);
    forall j: nat | j < k && j != p ensures PairQuiet(w, n, j) {
      OtherPair(n, p, o, j);
      WithinLess(o + 1, o + n + 1, lo, hi, n, j);
      PeaksQuiet(w, lo, hi, n, k, j);
    }
    PassMergesOne(w, n, k, p, o, u);
  }

  // ---- A hill of records between low and high ones.

  /** From `o` on a run of `a` high and `n - a` low records, and one between them that the next run begins with. */
  function HillMark(o: nat, a: nat, n: nat, i: nat): real {
    if i < o then 0.0 else if i < o + a then 3.0 else if i < o + n then 1.0 else if i == o + n then 2.0 else 9.0
  }

  /** The hill after one merge of its two runs. */
  function HillOnceMark(o: nat, a: nat, n: nat, i: nat): real {
    if i < o then 0.0 else if i == o then 2.0 else if i <= o + a then 3.0 else if i <= o + n then 1.0 else 9.0
  }

  /** The hill after two. */
  function HillTwiceMark(o: nat, a: nat, n: nat, i: nat): real {
    if i < o then 0.0 else if i == o then 1.0 else if i == o + 1 then 2.0 else if i <= o + a + 1 then 3.0
    else if i <= o + n then 1.0 else 9.0
  }

  ghost function Hill(recs: nat, o: nat, a: nat, n: nat): (w: seq<Record>)
    ensures |w| == recs && forall i | 0 <= i < recs :: w[i] == Keyed(HillMark(o, a, n, i))
  {
    seq(recs, i requires 0 <= i => Keyed(HillMark(o, a, n, i)))
  }

  ghost function HillOnce(recs: nat, o: nat, a: nat, n: nat): (w: seq<Record>)
    ensures |w| == recs && forall i | 0 <= i < recs :: w[i] == Keyed(HillOnceMark(o, a, n, i))
  {
    seq(recs, i requires 0 <= i => Keyed(HillOnceMark(o, a, n, i)))
  }

  ghost function HillTwice(recs: nat, o: nat, a: nat, n: nat): (w: seq<Record>)
    ensures |w| == recs && forall i | 0 <= i < recs :: w[i] == Keyed(HillTwiceMark(o, a, n, i))
  {
    seq(recs, i requires 0 <= i => Keyed(HillTwiceMark(o, a, n, i)))
  }

  /** Two runs of which the right one begins with a record that goes first. */
  lemma {:induction false} MergeTakesRight(a: seq<Record>, b: seq<Record>)
    requires a != [] && b != [] && b[0].timeMark < a[0].timeMark
    requires |b| > 1 ==> forall i | 0 <= i < |a| :: a[i].timeMark <= b[1].timeMark
    ensures MergeRuns(a, b) == [b[0]] + a + b[1..]
  {
    MergeLeaves(a, b[1..]);
    assert [b[0]] + (a + b[1..]) == [b[0]] + a + b[1..];
  }

  lemma SpliceIs(w: seq<Record>, lo: nat, m: seq<Record>, u: seq<Record>)
    requires lo + |m| <= |w| == |u|
    requires u[..lo] == w[..lo] && u[lo..lo + |m|] == m && u[lo + |m|..] == w[lo + |m|..]
    ensures Splice(w, lo, m) == u
  {
    assert u == u[..lo] + u[lo..lo + |m|] + u[lo + |m|..];
  }

  /** `u` is `w` with the head of the right run moved before the left run. */
  ghost predicate HeadMoved(w: seq<Record>, o: nat, n: nat, u: seq<Record>)
    requires n >= 2 && o + 2 * n <= |w| == |u|
  {
    && u[..o] == w[..o] && u[o] == w[o + n] && u[o + 1..o + n + 1] == w[o..o + n] && u[o + n + 1..] == w[o + n + 1..]
  }

  lemma HeadMovedPair(w: seq<Record>, o: nat, n: nat, u: seq<Record>)
    requires n >= 2 && o + 2 * n <= |w| == |u| && HeadMoved(w, o, n, u)
    ensures u[o..o + 2 * n] == [w[o + n]] + w[o..o + n] + w[o + n..o + 2 * n][1..]
    ensures u[o + 2 * n..] == w[o + 2 * n..]
  {
    assert u[o..o + 2 * n] == [u[o]] + u[o + 1..o + n + 1] + u[o + n + 1..][..n - 1];
    assert w[o + n..o + 2 * n][1..] == w[o + n + 1..][..n - 1];
    assert u[o + 2 * n..] == u[o + n + 1..][n - 1..] && w[o + 2 * n..] == w[o + n + 1..][n - 1..];
  }

  lemma {:induction false} MergesByRight(w: seq<Record>, o: nat, n: nat, u: seq<Record>)
    requires n >= 2 && o + 2 * n <= |w| == |u| && w[o + n].timeMark < w[o].timeMark
    requires forall i | o <= i < o + n :: w[i].timeMark <= w[o + n + 1].timeMark
    requires HeadMoved(w, o, n, u)
    ensures MergesTo(w, o, n, u)
  {
    var a, b := w[o..o + n], w[o + n..o + 2 * n];
    MergeTakesRight(a, b);
    HeadMovedPair(w, o, n, u);
    SpliceIs(w, o, [b[0]] + a + b[1..], u);
  }

  lemma HillFirst(recs: nat, o: nat, a: nat, n: nat)
    requires 1 <= a < n && o + 2 * n <= recs
    ensures MergesTo(Hill(recs, o, a, n), o, n, HillOnce(recs, o, a, n))
  {
    hide MergesTo;
    MergesByRight(Hill(recs, o, a, n), o, n, HillOnce(recs, o, a, n));
  }

  lemma HillSecond(recs: nat, o: nat, a: nat, n: nat)
    requires 1 <= a < n && o + 2 * n <= recs
    ensures MergesTo(HillOnce(recs, o, a, n), o, n, HillTwice(recs, o, a, n))
  {
    hide MergesTo;
    MergesByRight(HillOnce(recs, o, a, n), o, n, HillTwice(recs, o, a, n));
  }

  lemma HillDiffers(recs: nat, o: nat, a: nat, n: nat)
    requires 1 <= a < n && o + 2 * n <= recs
    ensures TimeMarks(HillOnce(recs, o, a, n)) != TimeMarks(HillTwice(recs, o, a, n))
    ensures UpToNine(HillOnce(recs, o, a, n)) && UpToNine(HillTwice(recs, o, a, n)) && Plain(Hill(recs, o, a, n))
  {
    assert TimeMarks(HillOnce(recs, o, a, n))[o] != TimeMarks(HillTwice(recs, o, a, n))[o];
  }

  lemma HillPeaks(recs: nat, o: nat, a: nat, n: nat)
    requires 1 <= a < n && o + 2 * n <= recs
    ensures PeaksBut(Hill(recs, o, a, n), o + a, o + n)
    ensures PeaksBut(HillOnce(recs, o, a, n), o + a + 1, o + n)
    ensures PeaksBut(HillTwice(recs, o, a, n), o + a + 1, o + n)
  {
  }

  // ---- A cliff: a sorted run before one that is sorted but for its first record.

  function CliffMark(o: nat, n: nat, i: nat): real {
    if i < o then 0.0 else if i + 1 < o + n then 3.0 else if i + 1 == o + n then 5.0 else if i == o + n then 4.0
    else if i == o + n + 1 then 1.0 else 9.0
  }

  function CliffOnceMark(o: nat, n: nat, i: nat): real {
    if i < o then 0.0 else if i + 1 < o + n then 3.0 else if i + 1 == o + n then 4.0 else if i == o + n then 1.0
    else if i == o + n + 1 then 5.0 else 9.0
  }

  function CliffTwiceMark(o: nat, n: nat, i: nat): real {
    if i < o then 0.0 else if i == o then 1.0 else if i < o + n then 3.0 else if i == o + n then 4.0
    else if i == o + n + 1 then 5.0 else 9.0
  }

  ghost function Cliff(recs: nat, o: nat, n: nat): (w: seq<Record>)
    ensures |w| == recs && forall i | 0 <= i < recs :: w[i] == Keyed(CliffMark(o, n, i))
  {
    seq(recs, i requires 0 <= i => Keyed(CliffMark(o, n, i)))
  }

  ghost function CliffOnce(recs: nat, o: nat, n: nat): (w: seq<Record>)
    ensures |w| == recs && forall i | 0 <= i < recs :: w[i] == Keyed(CliffOnceMark(o, n, i))
  {
    seq(recs, i requires 0 <= i => Keyed(CliffOnceMark(o, n, i)))
  }

  ghost function CliffTwice(recs: nat, o: nat, n: nat): (w: seq<Record>)
    ensures |w| == recs && forall i | 0 <= i < recs :: w[i] == Keyed(CliffTwiceMark(o, n, i))
  {
    seq(recs, i requires 0 <= i => Keyed(CliffTwiceMark(o, n, i)))
  }

  lemma {:induction false} MergePrefix(p: seq<Record>, a: seq<Record>, b: seq<Record>)
    requires b != [] && forall i | 0 <= i < |p| :: p[i].timeMark <= b[0].timeMark
    ensures MergeRuns(p + a, b) == p + MergeRuns(a, b)
    decreases |p|
  {
    if p == [] {
      assert p + a == a;
    } else {
      MergePrefix(p[1..], a, b);
      assert (p + a)[1..] == p[1..] + a;
    }
  }

  lemma {:induction false} CliffRuns(p: seq<Record>, x: Record, y: Record, z: Record, rest: seq<Record>)
    requires z.timeMark < y.timeMark < x.timeMark && forall i | 0 <= i < |p| :: p[i].timeMark <= y.timeMark
    requires rest != [] ==> x.timeMark <= rest[0].timeMark
    ensures MergeRuns(p + [x], [y, z] + rest) == p + [y, z, x] + rest
  {
    var b := [y, z] + rest;
    MergePrefix(p, [x], b);
    assert b[1..] == [z] + rest && b[1..][1..] == rest;
    MergeLeaves([x], rest);
    assert MergeRuns([x], b[1..]) == [z] + MergeRuns([x], rest);
    assert MergeRuns([x], b) == [y] + MergeRuns([x], b[1..]);
    assert p + ([y] + ([z] + ([x] + rest))) == p + [y, z, x] + rest;
  }

  lemma CliffParts(recs: nat, o: nat, n: nat, p: seq<Record>, rest: seq<Record>)
    requires n >= 2 && o + 2 * n <= recs && p == seq(n - 1, _ => Keyed(3.0)) && rest == seq(n - 2, _ => Keyed(9.0))
    ensures Cliff(recs, o, n)[o..o + n] == p + [Keyed(5.0)]
    ensures Cliff(recs, o, n)[o + n..o + 2 * n] == [Keyed(4.0), Keyed(1.0)] + rest
  {
  }

  lemma CliffOnceParts(recs: nat, o: nat, n: nat, p: seq<Record>, rest: seq<Record>)
    requires n >= 2 && o + 2 * n <= recs && p == seq(n - 1, _ => Keyed(3.0)) && rest == seq(n - 2, _ => Keyed(9.0))
    ensures var w, u := Cliff(recs, o, n), CliffOnce(recs, o, n);
            && u[..o] == w[..o] && u[o..o + 2 * n] == p + [Keyed(4.0), Keyed(1.0), Keyed(5.0)] + rest
            && u[o + 2 * n..] == w[o + 2 * n..]
  {
  }

  lemma CliffFirst(recs: nat, o: nat, n: nat)
    requires n >= 2 && o + 2 * n <= recs
    ensures MergesTo(Cliff(recs, o, n), o, n, CliffOnce(recs, o, n))
  {
    var p, rest := seq(n - 1, _ => Keyed(3.0)), seq(n - 2, _ => Keyed(9.0));
    CliffParts(recs, o, n, p, rest);
    CliffRuns(p, Keyed(5.0), Keyed(4.0), Keyed(1.0), rest);
    CliffOnceParts(recs, o, n, p, rest);
    SpliceIs(Cliff(recs, o, n), o, p + [Keyed(4.0), Keyed(1.0), Keyed(5.0)] + rest, CliffOnce(recs, o, n));
  }

  lemma CliffSecond(recs: nat, o: nat, n: nat)
    requires n >= 2 && o + 2 * n <= recs
    ensures MergesTo(CliffOnce(recs, o, n), o, n, CliffTwice(recs, o, n))
  {
    hide MergesTo;
    MergesByRight(CliffOnce(recs, o, n), o, n, CliffTwice(recs, o, n));
  }

  lemma CliffDiffers(recs: nat, o: nat, n: nat)
    requires n >= 2 && o + 2 * n <= recs
    ensures TimeMarks(CliffOnce(recs, o, n)) != TimeMarks(CliffTwice(recs, o, n))
    ensures UpToNine(CliffOnce(recs, o, n)) && UpToNine(CliffTwice(recs, o, n)) && Plain(Cliff(recs, o, n))
  {
    assert TimeMarks(CliffOnce(recs, o, n))[o] != TimeMarks(CliffTwice(recs, o, n))[o];
  }

  lemma CliffPeaks(recs: nat, o: nat, n: nat)
    requires n >= 2 && o + 2 * n <= recs
    ensures PeaksBut(Cliff(recs, o, n), o + n, o + n + 1)
    ensures PeaksBut(CliffOnce(recs, o, n), o + n, o + n)
    ensures PeaksBut(CliffTwice(recs, o, n), o + n, o + n)
  {
  }
}
