/** The frequency priority queue of the recommendation engine. The queue is
    rebuilt from the frequency map after every purchase, so a copy of it is
    the map itself; polling it removes some remaining item of highest
    frequency (Java leaves the order among equal frequencies unspecified,
    and so does the model). */
module Ranking {
  import opened Basics

  /** A remaining item of highest frequency exists. */
  lemma {:induction false} HeadExists(queue: map<string, int>, remaining: set<string>) returns (h: string)
    requires remaining != {} && remaining <= queue.Keys
    ensures h in remaining && forall x :: x in remaining ==> queue[x] <= queue[h]
  {
    var y := PickGhost(remaining);
    if remaining == {y} {
      h := y;
    } else {
      var rest := remaining - {y};
      var best := HeadExists(queue, rest);
      h := if queue[y] > queue[best] then y else best;
      forall x | x in remaining ensures queue[x] <= queue[h] {
        if x != y { assert x in rest; }
      }
    }
  }

  /** `PriorityQueue.poll` on the copy: some remaining item of highest frequency. */
  method Poll(queue: map<string, int>, remaining: set<string>) returns (head: string)
    requires remaining != {} && remaining <= queue.Keys
    ensures head in remaining
    ensures forall x :: x in remaining ==> queue[x] <= queue[head]
  {
    ghost var highest := HeadExists(queue, remaining);
    head :| head in remaining && forall x :: x in remaining ==> queue[x] <= queue[head];
  }

  /** The polling loop of `getFrequentItems`: takes `min(limit, size)` items
      off a copy of the queue. */
  method PollTop(queue: map<string, int>, limit: nat) returns (polled: seq<string>)
    ensures |polled| == Min(limit, |queue|)
    ensures Distinct(polled)
    ensures forall j :: 0 <= j < |polled| ==> polled[j] in queue
    ensures forall j, k :: 0 <= j < k < |polled| ==> queue[polled[j]] >= queue[polled[k]]
    ensures forall x, j :: x in queue && x !in polled && 0 <= j < |polled| ==> queue[x] <= queue[polled[j]]
  {
    polled := [];
    var remaining := queue.Keys;
    var count := Min(limit, |remaining|);
    var i := 0;
    // Java re-checks `!tempQueue.isEmpty()` in the body; `count` never exceeds the size.
    while i < count
      invariant 0 <= i <= count && |polled| == i
      invariant remaining <= queue.Keys
      invariant forall x :: x in queue ==> (x in remaining <==> x !in polled)
      invariant |remaining| == |queue| - i
      invariant Distinct(polled)
      invariant forall j :: 0 <= j < i ==> polled[j] in queue
      invariant forall j, k :: 0 <= j < k < i ==> queue[polled[j]] >= queue[polled[k]]
      invariant forall x, j :: x in remaining && 0 <= j < i ==> queue[x] <= queue[polled[j]]
    {
      var head := Poll(queue, remaining);
      AppendDistinct(polled, head);
      polled := polled + [head];
      remaining := remaining - {head};
      i := i + 1;
    }
  }

  /** An item with at least two recorded purchases. */
  predicate Repeated(histories: map<string, seq<int>>, x: string) {
    x in histories && |histories[x]| >= 2
  }

  /** The items bought at least twice. */
  ghost function RepeatedIn(histories: map<string, seq<int>>): set<string> {
    set x | x in histories && Repeated(histories, x)
  }

  /** The items padding may add: in the queue, bought at least twice, not yet suggested. */
  ghost function Candidates(queue: map<string, int>, histories: map<string, seq<int>>, suggested: seq<string>): set<string> {
    set x | x in queue && Repeated(histories, x) && x !in suggested
  }

  /** Once padding stops, the padded tail has exactly the expected length. */
  lemma PaddingLength(candidates: set<string>, suggested: seq<string>, padded: seq<string>)
    requires |suggested| < 5 && |suggested| <= |padded| <= 5
    requires Distinct(padded)
    requires forall j :: |suggested| <= j < |padded| ==> padded[j] in candidates
    requires |padded| < 5 ==> candidates <= Elements(padded[|suggested|..])
    ensures |padded| == Min(5, |suggested| + |candidates|)
  {
    var tail := padded[|suggested|..];
    assert Distinct(tail);
    DistinctCardinality(tail);
    assert Elements(tail) <= candidates;
    if |padded| < 5 {
      assert Elements(tail) == candidates;
    } else {
      SubsetCardinality(Elements(tail), candidates);
    }
  }

  lemma {:induction false} SubsetCardinality(a: set<string>, b: set<string>)
    requires a <= b
    ensures |a| <= |b|
  {
    if a != {} {
      var x := PickGhost(a);
      SubsetCardinality(a - {x}, b - {x});
    }
  }

  /** The loop of the padding step: polls the copy of the queue and appends
      each polled candidate until the list holds five items or the queue is
      empty. Polling in order of frequency leaves no candidate behind that
      is more frequent than one taken. */
  method PadLoop(queue: map<string, int>, histories: map<string, seq<int>>, suggested: seq<string>,
                 ghost candidates: set<string>)
    returns (padded: seq<string>)
    requires queue.Keys <= histories.Keys
    requires Distinct(suggested) && |suggested| < 5
    requires candidates == Candidates(queue, histories, suggested)
    ensures |suggested| <= |padded| <= 5 && padded[..|suggested|] == suggested
    ensures Distinct(padded)
    ensures forall j :: |suggested| <= j < |padded| ==> padded[j] in candidates
    ensures forall j, k :: |suggested| <= j < k < |padded| ==> queue[padded[j]] >= queue[padded[k]]
    ensures forall x, j :: x in candidates && x !in padded && |suggested| <= j < |padded| ==>
              queue[x] <= queue[padded[j]]
    ensures |padded| < 5 ==> forall x :: x in candidates ==> x in padded
  {
    padded := suggested;
    var remaining := queue.Keys;
    while |padded| < 5 && remaining != {}
      invariant remaining <= queue.Keys
      invariant |suggested| <= |padded| <= 5
      invariant padded[..|suggested|] == suggested
      invariant Distinct(padded)
      invariant forall j :: |suggested| <= j < |padded| ==> padded[j] in candidates && padded[j] !in remaining
      invariant forall j, k :: |suggested| <= j < k < |padded| ==> queue[padded[j]] >= queue[padded[k]]
      invariant forall x, j :: x in remaining && |suggested| <= j < |padded| ==> queue[x] <= queue[padded[j]]
      invariant forall x :: x in candidates && x !in remaining ==> x in padded
      decreases remaining
    {
      var item := Poll(queue, remaining);
      remaining := remaining - {item};
      if item !in padded && |histories[item]| >= 2 {
        AppendDistinct(padded, item);
        assert item !in suggested by {
          assert forall j :: 0 <= j < |suggested| ==> suggested[j] == padded[j];
        }
        padded := padded + [item];
      }
    }
  }

  /** The padding step of `generateSuggestedList`: when fewer than five items
      were suggested, polls a copy of the queue and appends each polled item
      that is not yet in the list and has at least two purchases, until the
      list holds five items or the queue is empty. */
  method PadByFrequency(queue: map<string, int>, histories: map<string, seq<int>>, suggested: seq<string>)
    returns (padded: seq<string>)
    requires queue.Keys <= histories.Keys
    requires Distinct(suggested)
    ensures |padded| >= |suggested| && padded[..|suggested|] == suggested
    ensures Distinct(padded)
    ensures |suggested| >= 5 ==> padded == suggested
    ensures |suggested| < 5 ==> |padded| == Min(5, |suggested| + |Candidates(queue, histories, suggested)|)
    ensures forall j :: |suggested| <= j < |padded| ==> padded[j] in Candidates(queue, histories, suggested)
    ensures forall j, k :: |suggested| <= j < k < |padded| ==> queue[padded[j]] >= queue[padded[k]]
    ensures forall x, j ::
              x in Candidates(queue, histories, suggested) && x !in padded && |suggested| <= j < |padded| ==>
                queue[x] <= queue[padded[j]]
  {
    padded := suggested;
    if |padded| < 5 {
      ghost var candidates := Candidates(queue, histories, suggested);
      padded := PadLoop(queue, histories, suggested, candidates);
      forall x | x in candidates && |padded| < 5 ensures x in Elements(padded[|suggested|..]) {
        var k :| 0 <= k < |padded| && padded[k] == x;
        assert k >= |suggested|;
        assert padded[|suggested|..][k - |suggested|] == x;
      }
      PaddingLength(candidates, suggested, padded);
    }
  }

  /** The shape of a suggested list, given the set of due items: no item
      twice, only repeated items; all due items first; then, while the list
      is shorter than five, other repeated items in decreasing order of
      frequency, none left out that is more frequent than one taken. */
  ghost predicate SuggestionShape(due: set<string>, repeated: set<string>, queue: map<string, int>, list: seq<string>) {
    && Distinct(list)
    && (forall x :: x in list ==> x in repeated)
    && (forall j :: 0 <= j < |list| ==> (list[j] in due <==> j < |due|))
    && |list| == (if |due| >= 5 then |due| else Min(5, |repeated|))
    && (forall j, k :: |due| <= j < k < |list| ==> GetOr(queue, list[j], 0) >= GetOr(queue, list[k], 0))
    && (forall x, j :: x in repeated && x !in list && |due| <= j < |list| ==>
          GetOr(queue, x, 0) <= GetOr(queue, list[j], 0))
  }

  /** The padded list: the suggested items first, then only candidates. */
  lemma PaddedMembers(queue: map<string, int>, histories: map<string, seq<int>>, suggested: seq<string>,
                      padded: seq<string>, due: set<string>)
    requires Distinct(suggested) && Elements(suggested) == due && |suggested| == |due|
    requires due <= RepeatedIn(histories)
    requires |padded| >= |suggested| && padded[..|suggested|] == suggested && Distinct(padded)
    requires forall j :: |suggested| <= j < |padded| ==> padded[j] in Candidates(queue, histories, suggested)
    ensures forall x :: x in padded ==> x in RepeatedIn(histories)
    ensures forall j :: 0 <= j < |padded| ==> (padded[j] in due <==> j < |due|)
  {
    forall j | 0 <= j < |padded| ensures padded[j] in RepeatedIn(histories) && (padded[j] in due <==> j < |due|) {
      if j < |due| {
        assert padded[j] == suggested[j];
      }
    }
  }

  /** The candidates are the repeated items that are not due. */
  lemma CandidatesAreTheRest(queue: map<string, int>, histories: map<string, seq<int>>, suggested: seq<string>,
                             due: set<string>)
    requires queue.Keys == histories.Keys
    requires Elements(suggested) == due && due <= RepeatedIn(histories)
    ensures Candidates(queue, histories, suggested) == RepeatedIn(histories) - due
    ensures |due| + |Candidates(queue, histories, suggested)| == |RepeatedIn(histories)|
  {
    var repeated := RepeatedIn(histories);
    assert Candidates(queue, histories, suggested) == repeated - due;
    assert repeated == due + (repeated - due);
  }

  /** Padding a list of distinct repeated items, taken as the due items,
      gives a list of that shape. */
  lemma PaddingShape(queue: map<string, int>, histories: map<string, seq<int>>, suggested: seq<string>,
                     padded: seq<string>, due: set<string>)
    requires queue.Keys == histories.Keys
    requires Distinct(suggested) && Elements(suggested) == due && |suggested| == |due|
    requires due <= RepeatedIn(histories)
    requires var candidates := Candidates(queue, histories, suggested);
      && |padded| >= |suggested| && padded[..|suggested|] == suggested
      && Distinct(padded)
      && (|suggested| >= 5 ==> padded == suggested)
      && (|suggested| < 5 ==> |padded| == Min(5, |suggested| + |candidates|))
      && (forall j :: |suggested| <= j < |padded| ==> padded[j] in candidates)
      && (forall j, k :: |suggested| <= j < k < |padded| ==> queue[padded[j]] >= queue[padded[k]])
      && (forall x, j :: x in candidates && x !in padded && |suggested| <= j < |padded| ==>
            queue[x] <= queue[padded[j]])
    ensures SuggestionShape(due, RepeatedIn(histories), queue, padded)
  {
    CandidatesAreTheRest(queue, histories, suggested, due);
    PaddedMembers(queue, histories, suggested, padded, due);
    forall j, k | |due| <= j < k < |padded| ensures GetOr(queue, padded[j], 0) >= GetOr(queue, padded[k], 0) {
    }
    forall x, j | x in RepeatedIn(histories) && x !in padded && |due| <= j < |padded|
      ensures GetOr(queue, x, 0) <= GetOr(queue, padded[j], 0)
    {
      assert x !in suggested;
    }
  }
}
