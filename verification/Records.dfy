/** The records of Lab6/src/sort_index.c, their order, and what it means to sort them.

    A stable sort is characterised without mentioning positions: the output is ordered and,
    for each time mark, holds the records of that time mark in the order of the input.
    Such an output is unique, which is what makes the parallel sort independent of its schedule. */
module Records {

  /** An `index_s`: the time mark is a totally ordered key (no NaN). */
  datatype Record = Record(timeMark: real, recno: nat)

  /** The comparison handed to `qsort`. */
  function CompareRecords(one: Record, two: Record): int {
    if one.timeMark < two.timeMark then -1
    else if one.timeMark > two.timeMark then 1
    else 0
  }

  ghost predicate Sorted(s: seq<Record>) {
    forall i, j | 0 <= i < j < |s| :: s[i].timeMark <= s[j].timeMark
  }

  /** The records of `s` with time mark `k`, in the order of `s`. */
  ghost function At(s: seq<Record>, k: real): seq<Record> {
    if s == [] then []
    else if s[0].timeMark == k then [s[0]] + At(s[1..], k)
    else At(s[1..], k)
  }

  ghost predicate SameByKey(a: seq<Record>, b: seq<Record>) {
    forall k: real :: At(a, k) == At(b, k)
  }

  ghost predicate StableSortOf(out: seq<Record>, inp: seq<Record>) {
    Sorted(out) && SameByKey(out, inp)
  }

  /** What a call of `qsort` with `CompareRecords` may leave in its range. The C standard promises
      an ordered permutation; a stable library also keeps equal records in order. */
  ghost predicate QsortResult(stable: bool, inp: seq<Record>, out: seq<Record>) {
    && |out| == |inp|
    && multiset(out) == multiset(inp)
    && (forall i, j | 0 <= i < j < |out| :: CompareRecords(out[i], out[j]) <= 0)
    && (stable ==> SameByKey(out, inp))
  }

  lemma QsortSorts(stable: bool, inp: seq<Record>, out: seq<Record>)
    requires QsortResult(stable, inp, out)
    ensures Sorted(out)
  {
    forall i, j | 0 <= i < j < |out| ensures out[i].timeMark <= out[j].timeMark {
      assert CompareRecords(out[i], out[j]) <= 0;
    }
  }

  lemma {:induction false} AtConcat(a: seq<Record>, b: seq<Record>, k: real)
    ensures At(a + b, k) == At(a, k) + At(b, k)
  {
    if a == [] {
      assert a + b == b;
    } else {
      AtConcat(a[1..], b, k);
      assert (a + b)[1..] == a[1..] + b;
    }
  }

  lemma {:induction false} AtMember(s: seq<Record>, k: real)
    ensures At(s, k) != [] <==> exists i :: 0 <= i < |s| && s[i].timeMark == k
  {
    if s != [] {
      AtMember(s[1..], k);
      if s[0].timeMark != k {
        forall i | 0 <= i < |s| && s[i].timeMark == k ensures At(s, k) != [] {
          assert s[1..][i - 1] == s[i];
        }
      }
    }
  }

  /** No record of `s` comes before time mark `k`. */
  ghost predicate AtLeast(s: seq<Record>, k: real) {
    forall i | 0 <= i < |s| :: k <= s[i].timeMark
  }

  lemma SameByKeyAtLeast(a: seq<Record>, b: seq<Record>, k: real)
    requires SameByKey(a, b) && AtLeast(a, k)
    ensures AtLeast(b, k)
  {
    forall i | 0 <= i < |b| ensures k <= b[i].timeMark {
      AtMember(b, b[i].timeMark);
      AtMember(a, b[i].timeMark);
      assert At(a, b[i].timeMark) == At(b, b[i].timeMark);
    }
  }

  lemma SortedCons(x: Record, s: seq<Record>)
    requires Sorted(s) && AtLeast(s, x.timeMark)
    ensures Sorted([x] + s)
  {
  }

  lemma SameByKeyConcat(a: seq<Record>, b: seq<Record>, c: seq<Record>, d: seq<Record>)
    requires SameByKey(a, c) && SameByKey(b, d)
    ensures SameByKey(a + b, c + d)
  {
    forall k: real ensures At(a + b, k) == At(c + d, k) {
      AtConcat(a, b, k);
      AtConcat(c, d, k);
    }
  }

  lemma {:induction false} AtCounts(s: seq<Record>, x: Record)
    ensures multiset(At(s, x.timeMark))[x] == multiset(s)[x]
  {
    if s != [] {
      AtCounts(s[1..], x);
      assert s == [s[0]] + s[1..];
    }
  }

  /** Agreeing on every time mark is agreeing as a permutation. */
  lemma SameByKeyPermutes(a: seq<Record>, b: seq<Record>)
    requires SameByKey(a, b)
    ensures multiset(a) == multiset(b)
  {
    forall x: Record ensures multiset(a)[x] == multiset(b)[x] {
      AtCounts(a, x);
      AtCounts(b, x);
      assert At(a, x.timeMark) == At(b, x.timeMark);
    }
  }

  lemma SameByKeyHead(a: seq<Record>, b: seq<Record>)
    requires Sorted(a) && Sorted(b) && SameByKey(a, b) && a != []
    ensures b != [] && b[0] == a[0]
  {
    var k := a[0].timeMark;
    AtMember(a, k);
    AtMember(b, k);
    assert At(a, k) == At(b, k);
    AtMember(a, b[0].timeMark);
    AtMember(b, b[0].timeMark);
    assert At(a, b[0].timeMark) == At(b, b[0].timeMark);
    assert b[0].timeMark == k;
    assert At(a, k)[0] == a[0] && At(b, k)[0] == b[0];
  }

  /** A list has only one stable sort. */
  lemma {:induction false} StableSortUnique(a: seq<Record>, b: seq<Record>)
    requires Sorted(a) && Sorted(b) && SameByKey(a, b)
    ensures a == b
  {
    if a == [] {
      if b != [] {
        SameByKeyHead(b, a);
      }
    } else {
      SameByKeyHead(a, b);
      forall k: real ensures At(a[1..], k) == At(b[1..], k) {
        assert At(a, k) == At(b, k);
        if a[0].timeMark == k {
          assert At(a[1..], k) == At(a, k)[1..];
          assert At(b[1..], k) == At(b, k)[1..];
        }
      }
      StableSortUnique(a[1..], b[1..]);
      assert a == [a[0]] + a[1..] && b == [b[0]] + b[1..];
    }
  }

  // ---- Time marks alone.

  ghost function TimeMarks(s: seq<Record>): (r: seq<real>)
    ensures |r| == |s| && forall i | 0 <= i < |s| :: r[i] == s[i].timeMark
  {
    seq(|s|, i requires 0 <= i < |s| => s[i].timeMark)
  }

  /** How often a time mark occurs. */
  ghost function Occurrences(s: seq<Record>, k: real): nat {
    if s == [] then 0 else (if s[0].timeMark == k then 1 else 0) + Occurrences(s[1..], k)
  }

  lemma {:induction false} OccurrencesRemove(s: seq<Record>, i: nat, k: real)
    requires i < |s|
    ensures Occurrences(s, k) == (if s[i].timeMark == k then 1 else 0) + Occurrences(s[..i] + s[i + 1..], k)
  {
    if i == 0 {
      assert s[..0] + s[1..] == s[1..];
    } else {
      OccurrencesRemove(s[1..], i - 1, k);
      assert (s[..i] + s[i + 1..])[1..] == s[1..][..i - 1] + s[1..][i..];
    }
  }

  lemma RemoveBoth(a: seq<Record>, b: seq<Record>, i: nat)
    requires a != [] && i < |b| && b[i] == a[0] && multiset(a) == multiset(b)
    ensures multiset(a[1..]) == multiset(b[..i] + b[i + 1..])
  {
    assert b == b[..i] + [b[i]] + b[i + 1..];
    assert a == [a[0]] + a[1..];
    assert multiset(a[1..]) == multiset(a) - multiset{a[0]};
    assert multiset(b[..i] + b[i + 1..]) == multiset(b) - multiset{a[0]};
  }

  lemma {:induction false} PermutationOccurrences(a: seq<Record>, b: seq<Record>, k: real)
    requires multiset(a) == multiset(b)
    ensures Occurrences(a, k) == Occurrences(b, k)
    decreases |a|
  {
    if a == [] {
      assert |multiset(b)| == 0;
    } else {
      assert a[0] in multiset(b);
      var i :| 0 <= i < |b| && b[i] == a[0];
      RemoveBoth(a, b, i);
      PermutationOccurrences(a[1..], b[..i] + b[i + 1..], k);
      OccurrencesRemove(b, i, k);
    }
  }

  lemma {:induction false} OccursPositive(s: seq<Record>, k: real)
    ensures Occurrences(s, k) > 0 <==> exists i :: 0 <= i < |s| && s[i].timeMark == k
  {
    if s != [] {
      OccursPositive(s[1..], k);
      forall i | 0 <= i < |s| && s[i].timeMark == k ensures Occurrences(s, k) > 0 {
        assert i == 0 || s[1..][i - 1] == s[i];
      }
    }
  }

  lemma HeadOccurs(s: seq<Record>)
    requires s != []
    ensures exists k: real :: Occurrences(s, k) > 0
  {
    assert Occurrences(s, s[0].timeMark) > 0;
  }

  lemma {:induction false} SortedOccurrencesUnique(a: seq<Record>, b: seq<Record>)
    requires Sorted(a) && Sorted(b) && forall k: real :: Occurrences(a, k) == Occurrences(b, k)
    ensures TimeMarks(a) == TimeMarks(b)
  {
    if a == [] {
      if b != [] {
        HeadOccurs(b);
      }
    } else {
      OccursPositive(b, a[0].timeMark);
      assert Occurrences(b, a[0].timeMark) == Occurrences(a, a[0].timeMark) > 0;
      OccursPositive(a, b[0].timeMark);
      assert Occurrences(a, b[0].timeMark) == Occurrences(b, b[0].timeMark) > 0;
      assert a[0].timeMark == b[0].timeMark;
      forall k: real ensures Occurrences(a[1..], k) == Occurrences(b[1..], k) {
        assert Occurrences(a, k) == Occurrences(b, k);
      }
      SortedOccurrencesUnique(a[1..], b[1..]);
      assert TimeMarks(a) == [a[0].timeMark] + TimeMarks(a[1..]);
      assert TimeMarks(b) == [b[0].timeMark] + TimeMarks(b[1..]);
    }
  }

  /** Two sorted lists of the same records have the same time marks in the same order. */
  lemma SortedMarksUnique(a: seq<Record>, b: seq<Record>)
    requires Sorted(a) && Sorted(b) && multiset(a) == multiset(b)
    ensures TimeMarks(a) == TimeMarks(b)
  {
    forall k: real ensures Occurrences(a, k) == Occurrences(b, k) {
      PermutationOccurrences(a, b, k);
    }
    SortedOccurrencesUnique(a, b);
  }
}
