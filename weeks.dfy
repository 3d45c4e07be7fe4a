/** Week histories: sorting a history, the sum of the gaps between
    consecutive purchases, the average purchase interval and the "due" test
    of the recommendation engine. */
module Weeks {
  import opened Basics

  type Pos = x: int | x > 0 witness 1

  predicate Sorted(s: seq<int>) {
    forall i, j :: 0 <= i < j < |s| ==> s[i] <= s[j]
  }

  /** Inserts `x` into a sorted sequence. */
  function Insert(x: int, s: seq<int>): (r: seq<int>)
    requires Sorted(s)
    ensures Sorted(r)
    ensures multiset(r) == multiset(s) + multiset{x}
    ensures |r| == |s| + 1
    ensures r[0] == x || (s != [] && r[0] == s[0])
  {
    if s == [] || x <= s[0] then [x] + s
    else
      assert s == [s[0]] + s[1..];
      [s[0]] + Insert(x, s[1..])
  }

  /** `Collections.sort` on a list of weeks: a sorted permutation. */
  function Sort(s: seq<int>): (r: seq<int>)
    ensures Sorted(r)
    ensures multiset(r) == multiset(s)
    ensures |r| == |s|
  {
    if s == [] then []
    else
      assert s == [s[0]] + s[1..];
      Insert(s[0], Sort(s[1..]))
  }

  /** The largest element of a finite non-empty set exists. */
  lemma {:induction false} MaxExists(s: set<int>)
    requires s != {}
    ensures exists m :: m in s && forall x :: x in s ==> x <= m
  {
    var y := PickGhost(s);
    if s != {y} {
      var rest := s - {y};
      MaxExists(rest);
      var m :| m in rest && forall x :: x in rest ==> x <= m;
      var best := if y > m then y else m;
      forall x | x in s ensures x <= best {
        if x != y { assert x in rest; }
      }
    } else {
      assert forall x :: x in s ==> x == y;
    }
  }

  /** The smallest element of a finite non-empty set exists. */
  lemma {:induction false} MinExists(s: set<int>)
    requires s != {}
    ensures exists m :: m in s && forall x :: x in s ==> m <= x
  {
    var y := PickGhost(s);
    if s != {y} {
      var rest := s - {y};
      MinExists(rest);
      var m :| m in rest && forall x :: x in rest ==> m <= x;
      var best := if y < m then y else m;
      forall x | x in s ensures best <= x {
        if x != y { assert x in rest; }
      }
    } else {
      assert forall x :: x in s ==> x == y;
    }
  }

  ghost function SetMax(s: set<int>): (m: int)
    requires s != {}
    ensures m in s && forall x :: x in s ==> x <= m
  {
    MaxExists(s);
    var m :| m in s && forall x :: x in s ==> x <= m;
    m
  }

  ghost function SetMin(s: set<int>): (m: int)
    requires s != {}
    ensures m in s && forall x :: x in s ==> m <= x
  {
    MinExists(s);
    var m :| m in s && forall x :: x in s ==> m <= x;
    m
  }

  /** The ends of a sorted sequence are the smallest and the largest of its elements. */
  lemma SortedEnds(s: seq<int>)
    requires Sorted(s) && |s| >= 1
    ensures s[0] in Elements(s) && s[|s| - 1] in Elements(s)
    ensures s[0] == SetMin(Elements(s))
    ensures s[|s| - 1] == SetMax(Elements(s))
  {
    var lo, hi := SetMin(Elements(s)), SetMax(Elements(s));
    var i :| 0 <= i < |s| && s[i] == lo;
    var j :| 0 <= j < |s| && s[j] == hi;
    assert s[0] in Elements(s) && s[|s| - 1] in Elements(s);
  }

  /** The sum of the differences between consecutive weeks, as the loop over
      a sorted history accumulates it. */
  function GapSum(s: seq<int>): int
    decreases |s|
  {
    if |s| < 2 then 0 else GapSum(s[..|s| - 1]) + (s[|s| - 1] - s[|s| - 2])
  }

  /** The consecutive differences telescope to last minus first. */
  lemma {:induction false} GapSumTelescopes(s: seq<int>)
    requires |s| >= 1
    ensures GapSum(s) == s[|s| - 1] - s[0]
  {
    if |s| >= 2 {
      var init := s[..|s| - 1];
      GapSumTelescopes(init);
      assert init[|init| - 1] == s[|s| - 2] && init[0] == s[0];
    }
  }

  /** The `totalInterval` loop: sums `weeks[i] - weeks[i-1]` for i from 1. */
  method SumOfGaps(weeks: seq<int>) returns (totalInterval: int)
    ensures totalInterval == GapSum(weeks)
    ensures |weeks| >= 1 ==> totalInterval == weeks[|weeks| - 1] - weeks[0]
  {
    totalInterval := 0;
    var i := 1;
    while i < |weeks|
      invariant 1 <= i <= Max(1, |weeks|)
      invariant totalInterval == GapSum(weeks[..Min(i, |weeks|)])
    {
      assert weeks[..i + 1][..i] == weeks[..i];
      totalInterval := totalInterval + (weeks[i] - weeks[i - 1]);
      i := i + 1;
    }
    assert weeks[..Min(i, |weeks|)] == weeks;
    if |weeks| >= 1 {
      GapSumTelescopes(weeks);
    }
  }

  /** The average purchase interval. Java returns a `double`: -1.0 when fewer
      than two purchases are recorded, otherwise `total / gaps`. The model
      keeps the exact pair. */
  datatype Average = Undefined | Mean(total: int, gaps: Pos)

  /** The value the Java method returns, without floating-point rounding. */
  function AsReal(a: Average): real {
    match a
    case Undefined => -1.0
    case Mean(total, gaps) => total as real / gaps as real
  }

  /** The average interval of a history, as the span of the weeks divided by
      the number of gaps between them. It depends only on the multiset of weeks. */
  ghost function MeanInterval(weeks: seq<int>): (a: Average)
    ensures a == Undefined <==> |weeks| < 2
    ensures a.Mean? ==> a.gaps == |weeks| - 1 && a.total >= 0
  {
    if |weeks| < 2 then Undefined
    else
      assert weeks[0] in Elements(weeks);
      Mean(SetMax(Elements(weeks)) - SetMin(Elements(weeks)), |weeks| - 1)
  }

  /** Summing the consecutive gaps of any sorted arrangement of a history gives
      the average interval of that history. */
  lemma MeanOfSortedPermutation(weeks: seq<int>, sorted: seq<int>)
    requires |weeks| >= 2
    requires Sorted(sorted) && multiset(sorted) == multiset(weeks)
    ensures |sorted| == |weeks|
    ensures MeanInterval(weeks) == Mean(GapSum(sorted), |weeks| - 1)
  {
    assert |sorted| == |multiset(sorted)| == |multiset(weeks)| == |weeks|;
    assert Elements(sorted) == Elements(weeks) by {
      forall x ensures x in sorted <==> x in weeks {
        assert x in sorted <==> x in multiset(sorted);
        assert x in weeks <==> x in multiset(weeks);
      }
    }
    SortedEnds(sorted);
    GapSumTelescopes(sorted);
  }

  /** The average interval is not changed by reordering the history. */
  lemma MeanIntervalPermutation(a: seq<int>, b: seq<int>)
    requires multiset(a) == multiset(b)
    ensures MeanInterval(a) == MeanInterval(b)
  {
    assert |a| == |multiset(a)| == |multiset(b)| == |b|;
    assert Elements(a) == Elements(b) by {
      forall x ensures x in a <==> x in b {
        assert x in a <==> x in multiset(a);
        assert x in b <==> x in multiset(b);
      }
    }
  }

  /** The due test `weeksSince >= avgInterval - 0.5`, cross-multiplied by the
      number of gaps so that it stays in integers. */
  predicate IsDue(weeksSince: int, avg: Average) {
    avg.Mean? && 2 * weeksSince * avg.gaps >= 2 * avg.total - avg.gaps
  }

  /** Multiplying both sides by a positive number keeps a comparison. */
  lemma ScaleComparison(a: real, b: real, g: real)
    requires g > 0.0
    ensures a >= b <==> a * g >= b * g
  {
    if a >= b {
      assert a * g - b * g == (a - b) * g;
    } else {
      assert b * g - a * g == (b - a) * g;
    }
  }

  /** The integer due test agrees with the half-week tolerance written on the
      exact quotient. */
  lemma DueMatchesHalfWeekTolerance(weeksSince: int, total: int, gaps: Pos)
    ensures IsDue(weeksSince, Mean(total, gaps))
        <==> weeksSince as real >= AsReal(Mean(total, gaps)) - 0.5
  {
    var g := gaps as real;
    var w := weeksSince as real;
    var q := AsReal(Mean(total, gaps));
    assert q == total as real / g;
    assert q * g == total as real;
    ScaleComparison(w, q - 0.5, 2.0 * g);
    assert (q - 0.5) * (2.0 * g) == 2.0 * (q * g) - g;
    assert w * (2.0 * g) == (2 * weeksSince * gaps) as real;
    assert 2.0 * (q * g) - g == (2 * total - gaps) as real;
  }

  /** Purchases at weeks 1, 3 and 5 average two weeks apart. */
  lemma ThreePurchasesTwoWeeksApart()
    ensures AsReal(MeanInterval([1, 3, 5])) == 2.0
  {
    var s := [1, 3, 5];
    assert Sorted(s);
    SortedEnds(s);
  }
}
