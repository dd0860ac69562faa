/** Ordering the samples by instant: a stable sort of a copy of the input, comparing the
    `Date.parse` keys of the timestamps. Array.prototype.sort is stable (required since ES2019); the
    library's algorithm is not the program's, so the sort is given here by a stable insertion
    sort, and its contract (ascending, a permutation, stable) is what is proved about it. */
module Ordering {
  import opened Samples

  function Key(s: Sample): int { s.timestamp.millis }

  /** Ascending by instant. */
  predicate Sorted(s: seq<Sample>)
  {
    forall i, j :: 0 <= i < j < |s| ==> Key(s[i]) <= Key(s[j])
  }

  /** The samples of `s` whose instant is `k`, in the order `s` has them. */
  function SameInstant(s: seq<Sample>, k: int): (r: seq<Sample>)
    ensures |r| <= |s|
  {
    if s == [] then []
    else (if Key(s[0]) == k then [s[0]] else []) + SameInstant(s[1..], k)
  }

  /** Stability: for every instant, the samples at that instant keep their relative order. */
  ghost predicate SameRuns(s: seq<Sample>, t: seq<Sample>)
  {
    forall k :: SameInstant(s, k) == SameInstant(t, k)
  }

  /** In a sorted sequence, places `x` after every sample whose instant is not later than its own. */
  function Insert(x: Sample, s: seq<Sample>): (r: seq<Sample>)
    ensures |r| == |s| + 1
  {
    if s == [] || Key(x) < Key(s[0]) then [x] + s
    else [s[0]] + Insert(x, s[1..])
  }

  /** The sorted copy of `data`, each sample inserted in input order. */
  function SortByInstant(data: seq<Sample>): (r: seq<Sample>)
    ensures |r| == |data|
  {
    if data == [] then []
    else Insert(data[|data| - 1], SortByInstant(data[..|data| - 1]))
  }

  lemma {:induction false} SameInstantAppend(s: seq<Sample>, t: seq<Sample>, k: int)
    ensures SameInstant(s + t, k) == SameInstant(s, k) + SameInstant(t, k)
  {
    if s == [] {
      assert s + t == t;
    } else {
      var head := if Key(s[0]) == k then [s[0]] else [];
      assert (s + t)[0] == s[0];
      assert (s + t)[1..] == s[1..] + t;
      SameInstantAppend(s[1..], t, k);
      calc {
        SameInstant(s + t, k);
        head + SameInstant(s[1..] + t, k);
        head + (SameInstant(s[1..], k) + SameInstant(t, k));
        (head + SameInstant(s[1..], k)) + SameInstant(t, k);
      }
    }
  }

  /** The run of an instant earlier than a sorted sequence's first sample is empty. */
  lemma SortedNoneBefore(s: seq<Sample>, k: int)
    requires Sorted(s) && s != [] && k < Key(s[0])
    ensures SameInstant(s, k) == []
  {
    if |s| > 1 {
      SortedNoneBefore(s[1..], k);
    }
  }

  lemma InsertSorted(x: Sample, s: seq<Sample>)
    requires Sorted(s)
    ensures Sorted(Insert(x, s))
    ensures Insert(x, s) != [] && (Key(Insert(x, s)[0]) == Key(x) || (s != [] && Key(Insert(x, s)[0]) == Key(s[0])))
  {
    if s != [] && Key(x) >= Key(s[0]) {
      InsertSorted(x, s[1..]);
    }
  }

  lemma InsertMultiset(x: Sample, s: seq<Sample>)
    ensures multiset(Insert(x, s)) == multiset(s) + multiset{x}
  {
    if s != [] && Key(x) >= Key(s[0]) {
      InsertMultiset(x, s[1..]);
      assert s == [s[0]] + s[1..];
    }
  }

  /** Inserting into a sorted sequence appends `x` to the run of its own instant
      and leaves every other run alone. */
  lemma InsertStable(x: Sample, s: seq<Sample>, k: int)
    requires Sorted(s)
    ensures SameInstant(Insert(x, s), k) == SameInstant(s, k) + (if Key(x) == k then [x] else [])
  {
    if s == [] || Key(x) < Key(s[0]) {
      SameInstantAppend([x], s, k);
      if Key(x) == k && s != [] {
        SortedNoneBefore(s, k);
      }
    } else {
      InsertStable(x, s[1..], k);
      SameInstantAppend([s[0]], Insert(x, s[1..]), k);
      SameInstantAppend([s[0]], s[1..], k);
      assert [s[0]] + s[1..] == s;
    }
  }

  /** The sorted copy is ascending by instant. */
  lemma {:induction false} SortIsSorted(data: seq<Sample>)
    ensures Sorted(SortByInstant(data))
  {
    if data != [] {
      SortIsSorted(data[..|data| - 1]);
      InsertSorted(data[|data| - 1], SortByInstant(data[..|data| - 1]));
    }
  }

  /** The sorted copy holds exactly the input samples. */
  lemma {:induction false} SortIsPermutation(data: seq<Sample>)
    ensures multiset(SortByInstant(data)) == multiset(data)
  {
    if data != [] {
      var init := data[..|data| - 1];
      SortIsPermutation(init);
      InsertMultiset(data[|data| - 1], SortByInstant(init));
      assert data == init + [data[|data| - 1]];
    }
  }

  /** The sort is stable: samples with equal instants keep their input order. */
  lemma {:induction false} SortIsStable(data: seq<Sample>)
    ensures SameRuns(SortByInstant(data), data)
  {
    if data != [] {
      var init := data[..|data| - 1];
      var last := data[|data| - 1];
      SortIsStable(init);
      SortIsSorted(init);
      forall k ensures SameInstant(SortByInstant(data), k) == SameInstant(data, k) {
        InsertStable(last, SortByInstant(init), k);
        assert data == init + [last];
        SameInstantAppend(init, [last], k);
      }
    }
  }

  lemma FirstRunNonEmpty(s: seq<Sample>)
    requires s != []
    ensures SameInstant(s, Key(s[0])) != [] && SameInstant(s, Key(s[0]))[0] == s[0]
  {
  }

  lemma SortedTail(s: seq<Sample>)
    requires Sorted(s) && s != []
    ensures Sorted(s[1..])
  {
  }

  /** Two sorted sequences with the same runs start with the same sample. */
  lemma SameRunsSameFirst(s: seq<Sample>, t: seq<Sample>)
    requires Sorted(s) && Sorted(t) && SameRuns(s, t) && s != [] && t != []
    ensures s[0] == t[0]
  {
    var ks, kt := Key(s[0]), Key(t[0]);
    FirstRunNonEmpty(s);
    FirstRunNonEmpty(t);
    assert SameInstant(t, ks) != [] && SameInstant(s, kt) != [];
    SortedFirstIsEarliest(t, ks);
    SortedFirstIsEarliest(s, kt);
    assert SameInstant(s, ks) == SameInstant(t, ks);
  }

  /** The converse view: an instant that has a sample in a sorted sequence is not earlier than
      the first sample's. */
  lemma SortedFirstIsEarliest(s: seq<Sample>, k: int)
    requires Sorted(s) && s != [] && SameInstant(s, k) != []
    ensures Key(s[0]) <= k
  {
    if k < Key(s[0]) {
      SortedNoneBefore(s, k);
    }
  }

  lemma SameRunsBothEmpty(s: seq<Sample>, t: seq<Sample>)
    requires SameRuns(s, t)
    ensures s == [] <==> t == []
  {
    if s != [] {
      FirstRunNonEmpty(s);
      assert SameInstant(t, Key(s[0])) != [];
    }
    if t != [] {
      FirstRunNonEmpty(t);
      assert SameInstant(s, Key(t[0])) != [];
    }
  }

  lemma SameRunsTail(s: seq<Sample>, t: seq<Sample>)
    requires SameRuns(s, t) && s != [] && t != [] && s[0] == t[0]
    ensures SameRuns(s[1..], t[1..])
  {
    forall k ensures SameInstant(s[1..], k) == SameInstant(t[1..], k) {
      var head := if Key(s[0]) == k then [s[0]] else [];
      assert SameInstant(s, k) == head + SameInstant(s[1..], k);
      assert SameInstant(t, k) == head + SameInstant(t[1..], k);
      assert SameInstant(s[1..], k) == SameInstant(s, k)[|head|..];
      assert SameInstant(t[1..], k) == SameInstant(t, k)[|head|..];
    }
  }

  /** A sorted sequence is determined by its runs of equal instants. */
  lemma {:induction false} SortedRunsDetermine(s: seq<Sample>, t: seq<Sample>)
    requires Sorted(s) && Sorted(t) && SameRuns(s, t)
    ensures s == t
    decreases |s|
  {
    SameRunsBothEmpty(s, t);
    if s != [] {
      SameRunsSameFirst(s, t);
      SameRunsTail(s, t);
      SortedTail(s);
      SortedTail(t);
      SortedRunsDetermine(s[1..], t[1..]);
      assert s == [s[0]] + s[1..] && t == [t[0]] + t[1..];
    }
  }

  /** The sorted series depends on the input only through its runs of equal instants:
      in particular, feeding distinct-instant samples in any order gives the same series. */
  lemma SortIgnoresInputOrder(d1: seq<Sample>, d2: seq<Sample>)
    requires SameRuns(d1, d2)
    ensures SortByInstant(d1) == SortByInstant(d2)
  {
    SortIsSorted(d1);
    SortIsSorted(d2);
    SortIsStable(d1);
    SortIsStable(d2);
    SortedRunsDetermine(SortByInstant(d1), SortByInstant(d2));
  }

  /** No two samples share an instant. */
  predicate DistinctInstants(s: seq<Sample>)
  {
    forall i, j :: 0 <= i < j < |s| ==> Key(s[i]) != Key(s[j])
  }

  lemma NoSampleAt(s: seq<Sample>, k: int)
    requires forall i :: 0 <= i < |s| ==> Key(s[i]) != k
    ensures SameInstant(s, k) == []
  {
    if s != [] {
      NoSampleAt(s[1..], k);
    }
  }

  /** With distinct instants, the run of the instant of `x` is `x` alone. */
  lemma {:induction false} DistinctRun(s: seq<Sample>, x: Sample)
    requires DistinctInstants(s) && x in s
    ensures SameInstant(s, Key(x)) == [x]
  {
    if s[0] == x {
      NoSampleAt(s[1..], Key(x));
    } else {
      assert x in s[1..];
      var j :| 0 <= j < |s| && s[j] == x;
      assert Key(s[0]) != Key(x);
      DistinctRun(s[1..], x);
    }
  }

  /** Samples with distinct instants have the same runs in any order, so in particular a
      reversed input has the same runs as the input. */
  lemma DistinctSameRuns(d1: seq<Sample>, d2: seq<Sample>)
    requires DistinctInstants(d1) && DistinctInstants(d2) && multiset(d1) == multiset(d2)
    ensures SameRuns(d1, d2)
  {
    forall k ensures SameInstant(d1, k) == SameInstant(d2, k) {
      if i :| 0 <= i < |d1| && Key(d1[i]) == k {
        assert d1[i] in multiset(d2);
        DistinctRun(d1, d1[i]);
        DistinctRun(d2, d1[i]);
      } else {
        forall j | 0 <= j < |d2| ensures Key(d2[j]) != k {
          assert d2[j] in multiset(d1);
        }
        NoSampleAt(d1, k);
        NoSampleAt(d2, k);
      }
    }
  }
}
