/** The regularity score of a set of purchase weeks: the gaps between
    consecutive distinct weeks, their mean and variance, and the score
    `weeks / (1 + variance)`, in exact real arithmetic. */
module Intervals {
  import opened Basics
  import opened Weeks

  /** The weeks of a set in increasing order. */
  ghost function Ascending(s: set<int>): (r: seq<int>)
    ensures |r| == |s|
    decreases s
  {
    if s == {} then [] else var m := SetMin(s); [m] + Ascending(s - {m})
  }

  /** `Ascending` lists each week of the set once. */
  lemma {:induction false} AscendingOnce(s: set<int>)
    ensures |Ascending(s)| == |s|
    ensures forall x :: multiset(Ascending(s))[x] == if x in s then 1 else 0
    decreases s
  {
    if s != {} {
      var m := SetMin(s);
      var rest := Ascending(s - {m});
      AscendingOnce(s - {m});
      assert multiset([m] + rest) == multiset{m} + multiset(rest);
    }
  }

  /** `Ascending` is sorted. */
  lemma {:induction false} AscendingSorted(s: set<int>)
    ensures Sorted(Ascending(s))
    ensures forall i :: 0 <= i < |Ascending(s)| ==> Ascending(s)[i] in s
    decreases s
  {
    if s != {} {
      var m := SetMin(s);
      var rest := Ascending(s - {m});
      AscendingSorted(s - {m});
      var r := [m] + rest;
      forall i, j | 0 <= i < j < |r| ensures r[i] <= r[j] {
        if i > 0 {
          assert r[i] == rest[i - 1] && r[j] == rest[j - 1];
        } else {
          assert r[j] == rest[j - 1] && r[j] in s;
        }
      }
    }
  }

  /** A sequence without repetitions holds each of its elements once. */
  lemma {:induction false} DistinctOnce<T>(keys: seq<T>)
    requires Distinct(keys)
    ensures forall x :: multiset(keys)[x] == if x in keys then 1 else 0
  {
    if keys != [] {
      var tail := keys[1..];
      assert keys == [keys[0]] + tail;
      DistinctOnce(tail);
      assert keys[0] !in tail by {
        forall k | 0 <= k < |tail| ensures tail[k] != keys[0] {
          assert tail[k] == keys[k + 1];
        }
      }
    }
  }

  /** Two sorted arrangements of the same weeks start with the same week. */
  lemma SortedSameFirst(a: seq<int>, b: seq<int>)
    requires Sorted(a) && Sorted(b) && multiset(a) == multiset(b) && a != []
    ensures b != [] && a[0] == b[0]
  {
    assert a[0] in multiset(b);
    assert b[0] in multiset(a);
  }

  /** Two sorted arrangements of the same weeks are the same sequence. */
  lemma {:induction false} SortedUnique(a: seq<int>, b: seq<int>)
    requires Sorted(a) && Sorted(b) && multiset(a) == multiset(b)
    ensures a == b
    decreases |a|
  {
    if a != [] {
      SortedSameFirst(a, b);
      assert a == [a[0]] + a[1..] && b == [b[0]] + b[1..];
      assert multiset(a[1..]) == multiset(a) - multiset{a[0]};
      assert multiset(b[1..]) == multiset(b) - multiset{b[0]};
      SortedUnique(a[1..], b[1..]);
    } else {
      assert |multiset(b)| == 0;
    }
  }

  /** Sorting the keys of a map, listed in any order, gives its weeks in
      increasing order. */
  lemma SortedKeysAscend(keys: seq<int>, weeks: seq<int>, s: set<int>)
    requires Distinct(keys) && Elements(keys) == s
    requires Sorted(weeks) && multiset(weeks) == multiset(keys)
    ensures weeks == Ascending(s)
  {
    DistinctOnce(keys);
    AscendingOnce(s);
    AscendingSorted(s);
    assert multiset(keys) == multiset(Ascending(s));
    SortedUnique(weeks, Ascending(s));
  }

  /** The sum of the squared differences between each gap and `avg`. */
  function SquaredDeviations(weeks: seq<int>, avg: real): real
    decreases |weeks|
  {
    if |weeks| < 2 then 0.0
    else
      var diff := (weeks[|weeks| - 1] - weeks[|weeks| - 2]) as real - avg;
      SquaredDeviations(weeks[..|weeks| - 1], avg) + diff * diff
  }

  /** Every gap equals `avg`. */
  predicate GapsEqual(weeks: seq<int>, avg: real) {
    forall i :: 1 <= i < |weeks| ==> (weeks[i] - weeks[i - 1]) as real == avg
  }

  /** The gaps all equal `avg` when those before the last do and the last does. */
  lemma GapsEqualStep(weeks: seq<int>, avg: real)
    requires |weeks| >= 2
    ensures GapsEqual(weeks, avg) <==>
              GapsEqual(weeks[..|weeks| - 1], avg) && (weeks[|weeks| - 1] - weeks[|weeks| - 2]) as real == avg
  {
    var init := weeks[..|weeks| - 1];
    assert forall i :: 0 <= i < |init| ==> init[i] == weeks[i];
  }

  lemma AddPositiveProduct(x: real, a: real, b: real)
    requires x >= 0.0 && a > 0.0 && b > 0.0
    ensures x + a * b > 0.0
  {
  }

  /** Adding a square to a non-negative sum keeps it non-negative, and
      gives zero only when both are zero. */
  lemma AddSquare(x: real, d: real)
    requires x >= 0.0
    ensures x + d * d >= 0.0
    ensures x + d * d == 0.0 <==> x == 0.0 && d == 0.0
  {
    if d > 0.0 {
      AddPositiveProduct(x, d, d);
    } else if d < 0.0 {
      AddPositiveProduct(x, -d, -d);
    }
  }

  /** The squared deviations add up to zero or more, and to zero exactly
      when every gap equals `avg`. */
  lemma {:induction false} SquaredDeviationsZero(weeks: seq<int>, avg: real)
    ensures SquaredDeviations(weeks, avg) >= 0.0
    ensures SquaredDeviations(weeks, avg) == 0.0 <==> GapsEqual(weeks, avg)
    decreases |weeks|
  {
    if |weeks| >= 2 {
      var init := weeks[..|weeks| - 1];
      var diff := (weeks[|weeks| - 1] - weeks[|weeks| - 2]) as real - avg;
      SquaredDeviationsZero(init, avg);
      AddSquare(SquaredDeviations(init, avg), diff);
      GapsEqualStep(weeks, avg);
    }
  }

  /** The mean gap: the span of the weeks over the number of gaps. */
  function MeanGap(weeks: seq<int>): real
    requires |weeks| >= 2
  {
    (weeks[|weeks| - 1] - weeks[0]) as real / (|weeks| - 1) as real
  }

  /** The variance of the gaps. */
  function Variance(weeks: seq<int>): (v: real)
    requires |weeks| >= 2
    ensures v >= 0.0
  {
    SquaredDeviationsZero(weeks, MeanGap(weeks));
    Divided(SquaredDeviations(weeks, MeanGap(weeks)), (|weeks| - 1) as real);
    SquaredDeviations(weeks, MeanGap(weeks)) / (|weeks| - 1) as real
  }

  /** The final step of the score: a count of weeks scaled by
      `1 / (1 + variance)`. */
  function Damped(count: int, variance: real): real
    requires variance >= 0.0
  {
    count as real * (1.0 / (1.0 + variance))
  }

  /** The score: the number of weeks, scaled down as the gaps vary. */
  function Score(weeks: seq<int>): real
    requires |weeks| >= 2
  {
    Damped(|weeks|, Variance(weeks))
  }

  /** All gaps are the same. */
  predicate EvenlySpaced(weeks: seq<int>) {
    forall i :: 1 <= i < |weeks| ==> weeks[i] - weeks[i - 1] == weeks[1] - weeks[0]
  }

  /** Evenly spaced weeks span as many gaps as there are. */
  lemma {:induction false} EvenSpan(weeks: seq<int>)
    requires |weeks| >= 2 && EvenlySpaced(weeks)
    ensures weeks[|weeks| - 1] - weeks[0] == (|weeks| - 1) * (weeks[1] - weeks[0])
    decreases |weeks|
  {
    if |weeks| > 2 {
      var init := weeks[..|weeks| - 1];
      assert EvenlySpaced(init) by {
        forall i | 1 <= i < |init| ensures init[i] - init[i - 1] == init[1] - init[0] {
        }
      }
      EvenSpan(init);
    }
  }

  /** The gaps all equal their mean exactly when the weeks are evenly spaced. */
  lemma EvenlySpacedIffMeanGaps(weeks: seq<int>)
    requires |weeks| >= 2
    ensures EvenlySpaced(weeks) <==> GapsEqual(weeks, MeanGap(weeks))
  {
    var g := weeks[1] - weeks[0];
    var n := (|weeks| - 1) as real;
    if EvenlySpaced(weeks) {
      EvenSpan(weeks);
      assert (weeks[|weeks| - 1] - weeks[0]) as real == n * g as real;
      assert MeanGap(weeks) == g as real;
    }
    if GapsEqual(weeks, MeanGap(weeks)) {
      assert g as real == MeanGap(weeks);
    }
  }

  /** `1 / (1 + v)` for a variance `v`: in (0, 1], and 1 only for no variance. */
  lemma Damping(v: real)
    requires v >= 0.0
    ensures 0.0 < 1.0 / (1.0 + v) <= 1.0
    ensures v == 0.0 ==> 1.0 / (1.0 + v) == 1.0
    ensures v > 0.0 ==> 1.0 / (1.0 + v) < 1.0
  {
  }

  lemma Scaled(n: real, q: real)
    requires n > 0.0 && 0.0 < q <= 1.0
    ensures 0.0 < n * q <= n
    ensures q == 1.0 ==> n * q == n
    ensures q < 1.0 ==> n * q < n
  {
  }

  lemma Divided(x: real, g: real)
    requires g > 0.0 && x >= 0.0
    ensures x / g >= 0.0
    ensures x == 0.0 ==> x / g == 0.0
    ensures x > 0.0 ==> x / g > 0.0
  {
  }

  /** The score is positive and at most the number of weeks, which it
      reaches exactly when the weeks are evenly spaced. */
  lemma ScoreBounds(weeks: seq<int>)
    requires |weeks| >= 2
    ensures 0.0 < Score(weeks) <= |weeks| as real
    ensures Score(weeks) == |weeks| as real <==> EvenlySpaced(weeks)
  {
    var avg := MeanGap(weeks);
    var v := Variance(weeks);
    var q := 1.0 / (1.0 + v);
    assert Score(weeks) == Damped(|weeks|, v) == |weeks| as real * q;
    SquaredDeviationsZero(weeks, avg);
    Divided(SquaredDeviations(weeks, avg), (|weeks| - 1) as real);
    assert GapsEqual(weeks, avg) <==> v == 0.0;
    Damping(v);
    Scaled(|weeks| as real, q);
    EvenlySpacedIffMeanGaps(weeks);
  }

  /** The weeks of a set in increasing order run from its first week to
      its last. */
  lemma AscendingSpan(s: set<int>)
    requires |s| >= 1
    ensures |Ascending(s)| == |s|
    ensures Ascending(s)[0] == SetMin(s) && Ascending(s)[|s| - 1] == SetMax(s)
  {
    var r := Ascending(s);
    var top := SetMax(s);
    var last := |r| - 1;
    AscendingOnce(s);
    AscendingSorted(s);
    assert multiset(r)[top] == 1;
    var k :| 0 <= k < |r| && r[k] == top;
    SortedBelowLast(r, k);
    assert r[last] in s;
  }

  /** No element of a sorted sequence exceeds its last. */
  lemma SortedBelowLast(r: seq<int>, k: nat)
    requires Sorted(r) && k < |r|
    ensures r[k] <= r[|r| - 1]
  {
    if k < |r| - 1 {
      assert r[k] <= r[|r| - 1];
    }
  }
}
