/** The engine's state as a value, and each state-changing operation of the
    engine as a function on it. The class in module Engine holds the same
    collections in fields and its methods are proved to compute these
    functions; the lemmas here state what the operations promise. */
module Ledger {
  import opened Basics
  import opened Weeks
  import Ranking

  /** Six of the seven collections of a builder, all but the frequency
      priority queue, and its current week. The queue is left out: it is
      rebuilt from `itemFrequency` after every purchase, so it always holds
      exactly the entries of that map. */
  datatype State = State(
    itemFrequency: map<string, int>,
    weeklyItems: map<int, seq<string>>,
    lastPurchaseWeek: map<string, int>,
    purchaseWeeks: map<string, seq<int>>,
    itemCategories: map<string, string>,
    timeSensitiveItems: set<string>,
    currentWeek: int)

  /** A new builder: nothing recorded, current week 1. */
  const Initial: State := State(map[], map[], map[], map[], map[], {}, 1)

  /** One imported purchase: an item and the week it was bought. */
  datatype Purchase = Purchase(item: string, week: int)

  function Frequency(s: State, item: string): int {
    GetOr(s.itemFrequency, item, 0)
  }

  function WeekList(s: State, week: int): seq<string> {
    GetOr(s.weeklyItems, week, [])
  }

  function History(s: State, item: string): seq<int> {
    GetOr(s.purchaseWeeks, item, [])
  }

  /** `getLastPurchaseWeek`: -1 for an item never bought. */
  function LastPurchase(s: State, item: string): int {
    GetOr(s.lastPurchaseWeek, item, -1)
  }

  /** The consistency the engine keeps between its collections: the three
      per-item maps have the same items, each count is the length of the
      item's history, the recorded last week is one of its purchase weeks,
      the week index lists an item in a week exactly as often as the item's
      history holds that week, and no week is listed without items. */
  ghost predicate Valid(s: State) {
    && s.itemFrequency.Keys == s.lastPurchaseWeek.Keys == s.purchaseWeeks.Keys
    && (forall item :: item in s.itemFrequency ==> s.itemFrequency[item] == |s.purchaseWeeks[item]|)
    && (forall item :: item in s.lastPurchaseWeek ==> s.lastPurchaseWeek[item] in s.purchaseWeeks[item])
    && (forall week, item :: multiset(WeekList(s, week))[item] == multiset(History(s, item))[week])
    && (forall week :: week in s.weeklyItems ==> s.weeklyItems[week] != [])
  }

  /** The invariant is about the purchase records only: categories, marks
      and the current week do not affect it. */
  lemma ValidIgnoresTags(s: State, t: State)
    requires Valid(s)
    requires t.itemFrequency == s.itemFrequency && t.weeklyItems == s.weeklyItems
    requires t.lastPurchaseWeek == s.lastPurchaseWeek && t.purchaseWeeks == s.purchaseWeeks
    ensures Valid(t)
  {
    forall week, item ensures multiset(WeekList(t, week))[item] == multiset(History(t, item))[week] {
      assert multiset(WeekList(s, week))[item] == multiset(History(s, item))[week];
    }
  }

  lemma InitialValid()
    ensures Valid(Initial)
  {
  }

  /** Under the invariant, an item's count is the length of its history,
      for items never bought too. */
  lemma FrequencyIsHistoryLength(s: State, item: string)
    requires Valid(s)
    ensures Frequency(s, item) == |History(s, item)|
  {
  }

  /** An item listed under some week has a purchase recorded at that week,
      so it has a last week: the `lastWeek != null` test of the rotation
      always passes. */
  lemma WeeklyItemsAreRecorded(s: State, week: int, item: string)
    requires Valid(s) && item in WeekList(s, week)
    ensures item in s.lastPurchaseWeek && item in s.itemFrequency
    ensures week in History(s, item)
  {
    assert multiset(WeekList(s, week))[item] > 0;
    assert multiset(History(s, item))[week] > 0;
  }

  /** The weeks `getAllWeeks` reports are exactly the weeks some item's
      history holds. */
  lemma WeeksWithPurchases(s: State, week: int)
    requires Valid(s)
    ensures week in s.weeklyItems <==> exists item :: week in History(s, item)
  {
    if week in s.weeklyItems {
      var item := s.weeklyItems[week][0];
      assert multiset(WeekList(s, week))[item] > 0;
      assert week in multiset(History(s, item));
    } else {
      forall item ensures week !in History(s, item) {
        assert multiset(WeekList(s, week))[item] == 0;
      }
    }
  }

  /** The key set of the week index, all weeks at once: the weeks some
      item's history holds. */
  lemma IndexWeeksArePurchaseWeeks(s: State)
    ensures Valid(s) ==> forall week :: week in s.weeklyItems <==> exists item :: week in History(s, item)
  {
    if Valid(s) {
      forall week ensures week in s.weeklyItems <==> exists item :: week in History(s, item) {
        WeeksWithPurchases(s, week);
      }
    }
  }

  /** `addItem`: counts the purchase, lists the item under the week,
      overwrites the last week, appends the week to the history and moves the
      current week forward. */
  function AddItem(s: State, item: string, week: int): State {
    s.(itemFrequency := s.itemFrequency[item := Frequency(s, item) + 1],
       weeklyItems := s.weeklyItems[week := WeekList(s, week) + [item]],
       lastPurchaseWeek := s.lastPurchaseWeek[item := week],
       purchaseWeeks := s.purchaseWeeks[item := History(s, item) + [week]],
       currentWeek := if week > s.currentWeek then week else s.currentWeek)
  }

  /** What one purchase changes, seen through the lookups, and that it
      changes nothing for other items and other weeks. */
  lemma AddItemRecordsPurchase(s: State, item: string, week: int)
    ensures var t := AddItem(s, item, week);
      && Frequency(t, item) == Frequency(s, item) + 1
      && History(t, item) == History(s, item) + [week]
      && WeekList(t, week) == WeekList(s, week) + [item]
      && LastPurchase(t, item) == week
      && t.currentWeek == Max(s.currentWeek, week)
      && (forall x :: x != item ==>
            Frequency(t, x) == Frequency(s, x) && History(t, x) == History(s, x) && LastPurchase(t, x) == LastPurchase(s, x))
      && (forall v :: v != week ==> WeekList(t, v) == WeekList(s, v))
      && t.itemCategories == s.itemCategories && t.timeSensitiveItems == s.timeSensitiveItems
  {
  }

  /** One entry of the week index stays consistent with one history. */
  lemma AddItemIndexEntry(s: State, item: string, week: int, v: int, x: string)
    requires multiset(WeekList(s, v))[x] == multiset(History(s, x))[v]
    ensures var t := AddItem(s, item, week);
      multiset(WeekList(t, v))[x] == multiset(History(t, x))[v]
  {
    var t := AddItem(s, item, week);
    if v == week {
      assert WeekList(t, v) == WeekList(s, v) + [item];
    } else {
      assert WeekList(t, v) == WeekList(s, v);
    }
    if x == item {
      assert History(t, x) == History(s, x) + [week];
    } else {
      assert History(t, x) == History(s, x);
    }
  }

  lemma AddItemPreservesValid(s: State, item: string, week: int)
    requires Valid(s)
    ensures Valid(AddItem(s, item, week))
  {
    var t := AddItem(s, item, week);
    forall v, x ensures multiset(WeekList(t, v))[x] == multiset(History(t, x))[v] {
      AddItemIndexEntry(s, item, week, v, x);
    }
  }

  /** The last week is overwritten, not maximised: a purchase recorded for an
      earlier week moves it back. */
  lemma LastPurchaseCanMoveBack()
    ensures LastPurchase(AddItem(AddItem(Initial, "Milk", 5), "Milk", 3), "Milk") == 3
  {
  }

  /** The guard of `rotateItems` for one listed item: time-sensitive, with a
      recorded last week at least two weeks before `week`. */
  predicate RotationDue(s: State, item: string, week: int) {
    item in s.timeSensitiveItems && item in s.lastPurchaseWeek && s.lastPurchaseWeek[item] <= week - 2
  }

  function RotateStep(s: State, item: string, week: int): State {
    if RotationDue(s, item, week) then AddItem(s, item, week) else s
  }

  /** The loop of `rotateItems` over the items listed two weeks earlier. */
  function RotateAll(s: State, items: seq<string>, week: int): State
    decreases |items|
  {
    if items == [] then s else RotateAll(RotateStep(s, items[0], week), items[1..], week)
  }

  /** `rotateItems`: moves the current week forward, then repurchases at
      `week` each time-sensitive item listed for `week - 2` that has not been
      bought since. */
  function Rotate(s: State, week: int): State {
    var advanced := s.(currentWeek := if week > s.currentWeek then week else s.currentWeek);
    if week - 2 in advanced.weeklyItems then RotateAll(advanced, advanced.weeklyItems[week - 2], week)
    else advanced
  }

  /** Whether a rotation at `week` repurchases `item`. */
  predicate Rotated(s: State, item: string, week: int) {
    item in WeekList(s, week - 2) && RotationDue(s, item, week)
  }

  lemma {:induction false} RotateAllPreservesValid(s: State, items: seq<string>, week: int)
    requires Valid(s)
    ensures Valid(RotateAll(s, items, week))
    decreases |items|
  {
    if items != [] {
      var next := RotateStep(s, items[0], week);
      if RotationDue(s, items[0], week) {
        AddItemPreservesValid(s, items[0], week);
      }
      RotateAllPreservesValid(next, items[1..], week);
    }
  }

  lemma RotatePreservesValid(s: State, week: int)
    requires Valid(s)
    ensures Valid(Rotate(s, week))
  {
    var advanced := s.(currentWeek := if week > s.currentWeek then week else s.currentWeek);
    assert Valid(advanced) by {
      assert forall v :: WeekList(advanced, v) == WeekList(s, v);
      assert forall x :: History(advanced, x) == History(s, x);
    }
    if week - 2 in advanced.weeklyItems {
      RotateAllPreservesValid(advanced, advanced.weeklyItems[week - 2], week);
    }
  }

  /** Each listed item is repurchased at most once, even when listed twice:
      the first repurchase makes its guard false. */
  lemma {:induction false} RotateAllEffect(s: State, items: seq<string>, week: int, x: string)
    ensures var t := RotateAll(s, items, week);
      var added := x in items && RotationDue(s, x, week);
      && History(t, x) == History(s, x) + (if added then [week] else [])
      && Frequency(t, x) == Frequency(s, x) + (if added then 1 else 0)
      && LastPurchase(t, x) == (if added then week else LastPurchase(s, x))
      && (RotationDue(t, x, week) <==> RotationDue(s, x, week) && x !in items)
    decreases |items|
  {
    if items != [] {
      var next := RotateStep(s, items[0], week);
      RotateAllEffect(next, items[1..], week, x);
      assert x in items <==> x == items[0] || x in items[1..];
      if RotationDue(s, items[0], week) {
        AddItemRecordsPurchase(s, items[0], week);
      }
      if x != items[0] {
        assert RotationDue(next, x, week) == RotationDue(s, x, week);
      }
    }
  }

  /** Besides the repurchases, a rotation loop changes only the week
      `week` of the index and, at most, raises the current week to `week`. */
  lemma {:induction false} RotateAllFrame(s: State, items: seq<string>, week: int)
    ensures var t := RotateAll(s, items, week);
      && (forall v :: v != week ==> (v in t.weeklyItems <==> v in s.weeklyItems))
      && (forall v :: v != week && v in s.weeklyItems ==> t.weeklyItems[v] == s.weeklyItems[v])
      && s.currentWeek <= t.currentWeek <= Max(s.currentWeek, week)
      && (s.currentWeek >= week ==> t.currentWeek == s.currentWeek)
      && t.timeSensitiveItems == s.timeSensitiveItems && t.itemCategories == s.itemCategories
    decreases |items|
  {
    if items != [] {
      RotateAllFrame(RotateStep(s, items[0], week), items[1..], week);
    }
  }

  /** With no listed item due, the rotation loop changes nothing. */
  lemma {:induction false} RotateAllNothingDue(s: State, items: seq<string>, week: int)
    requires forall x :: x in items ==> !RotationDue(s, x, week)
    ensures RotateAll(s, items, week) == s
    decreases |items|
  {
    if items != [] {
      assert items[0] in items;
      RotateAllNothingDue(s, items[1..], week);
    }
  }

  /** What `rotateItems(week)` does to every item: exactly the items it
      rotates gain one purchase, at `week`, and have `week` as last week;
      the current week becomes the larger of the two. */
  lemma RotateEffect(s: State, week: int, x: string)
    ensures var t := Rotate(s, week);
      && History(t, x) == History(s, x) + (if Rotated(s, x, week) then [week] else [])
      && Frequency(t, x) == Frequency(s, x) + (if Rotated(s, x, week) then 1 else 0)
      && LastPurchase(t, x) == (if Rotated(s, x, week) then week else LastPurchase(s, x))
      && t.currentWeek == Max(s.currentWeek, week)
  {
    var advanced := s.(currentWeek := if week > s.currentWeek then week else s.currentWeek);
    if week - 2 in advanced.weeklyItems {
      RotateAllEffect(advanced, advanced.weeklyItems[week - 2], week, x);
      RotateAllFrame(advanced, advanced.weeklyItems[week - 2], week);
    }
  }

  /** An immediately repeated rotation for the same week changes nothing. */
  lemma RotateIdempotent(s: State, week: int)
    ensures Rotate(Rotate(s, week), week) == Rotate(s, week)
  {
    var advanced := s.(currentWeek := if week > s.currentWeek then week else s.currentWeek);
    var t := Rotate(s, week);
    if week - 2 in advanced.weeklyItems {
      var items := advanced.weeklyItems[week - 2];
      RotateAllFrame(advanced, items, week);
      forall x | x in items ensures !RotationDue(t, x, week) {
        RotateAllEffect(advanced, items, week, x);
      }
      assert t.(currentWeek := if week > t.currentWeek then week else t.currentWeek) == t;
      RotateAllNothingDue(t, items, week);
    } else {
      assert t == advanced;
    }
  }

  /** `setCurrentWeek`: replaces the current week and nothing else. */
  function SetCurrentWeek(s: State, week: int): State {
    s.(currentWeek := week)
  }

  /** Moving the current week keeps the invariant. */
  lemma SetCurrentWeekPreservesValid(s: State, week: int)
    requires Valid(s)
    ensures Valid(SetCurrentWeek(s, week))
  {
    ValidIgnoresTags(s, SetCurrentWeek(s, week));
  }

  /** The six categories whose items `addCategory` marks as time-sensitive. */
  const PerishableCategories: set<string> := {"Fruits", "Vegetables", "Dairy", "Bakery", "Deli", "Seafood"}

  function MarkTimeSensitive(s: State, item: string): State {
    s.(timeSensitiveItems := s.timeSensitiveItems + {item})
  }

  function UnmarkTimeSensitive(s: State, item: string): State {
    s.(timeSensitiveItems := s.timeSensitiveItems - {item})
  }

  /** `addCategory`: records the category and marks the item when the
      category is perishable. */
  function AddCategory(s: State, item: string, category: string): State {
    var categorized := s.(itemCategories := s.itemCategories[item := category]);
    if category in PerishableCategories then MarkTimeSensitive(categorized, item) else categorized
  }

  /** A category assignment marks the item iff the category is perishable
      and never unmarks anything. */
  lemma AddCategoryMarks(s: State, item: string, category: string)
    ensures var t := AddCategory(s, item, category);
      && t.itemCategories == s.itemCategories[item := category]
      && (item in t.timeSensitiveItems <==> item in s.timeSensitiveItems || category in PerishableCategories)
      && s.timeSensitiveItems <= t.timeSensitiveItems
      && (forall x :: x != item ==> (x in t.timeSensitiveItems <==> x in s.timeSensitiveItems))
  {
  }

  /** `getItemCategory`: the recorded category, `None` for Java's null. */
  function Category(s: State, item: string): Option<string> {
    if item in s.itemCategories then Some(s.itemCategories[item]) else None
  }

  /** The items `getItemsByCategory` reports. */
  ghost function ItemsIn(s: State, category: string): set<string> {
    set x | x in s.itemCategories && s.itemCategories[x] == category
  }

  /** After `addCategory`, the item reports that category and is listed
      under it and under no other. */
  lemma AddCategoryThenLookup(s: State, item: string, category: string)
    ensures var t := AddCategory(s, item, category);
      && Category(t, item) == Some(category)
      && item in ItemsIn(t, category)
      && (forall c :: c != category ==> ItemsIn(t, c) == ItemsIn(s, c) - {item})
      && (forall x :: x != item ==> Category(t, x) == Category(s, x))
  {
  }

  /** Items with at least two recorded purchases. */
  ghost function RepeatedItems(s: State): set<string> {
    Ranking.RepeatedIn(s.purchaseWeeks)
  }

  /** The test of the first phase of `generateSuggestedList` for an item
      whose purchases average `avg` weeks apart: the weeks since its last
      purchase reach the average less half a week, or it is time-sensitive
      and was last bought two or more weeks ago. */
  predicate DueWith(s: State, item: string, avg: Average) {
    var weeksSince := s.currentWeek - GetOr(s.lastPurchaseWeek, item, 0);
    || IsDue(weeksSince, avg)
    || (item in s.timeSensitiveItems && weeksSince >= 2)
  }

  /** The test, given the weeks since the last purchase as the loop computes them. */
  lemma DueWithSince(s: State, item: string, weeksSince: int, avg: Average)
    requires weeksSince == s.currentWeek - GetOr(s.lastPurchaseWeek, item, 0)
    ensures DueWith(s, item, avg) <==> IsDue(weeksSince, avg) || (item in s.timeSensitiveItems && weeksSince >= 2)
  {
  }

  /** The first phase suggests an item with at least two purchases when the
      test holds for the average interval of its history. */
  ghost predicate DueForSuggestion(s: State, item: string) {
    Ranking.Repeated(s.purchaseWeeks, item) && DueWith(s, item, MeanInterval(s.purchaseWeeks[item]))
  }

  /** The decision of the first phase of `generateSuggestedList` for one
      item, as the loop computes it: sort the history, sum its consecutive
      gaps, apply the test to the sum over the number of gaps. */
  predicate SuggestNow(s: State, item: string) {
    var weeks := History(s, item);
    |weeks| >= 2 && DueWith(s, item, Mean(GapSum(Sort(weeks)), |weeks| - 1))
  }

  /** The computed decision is the due test on the average interval. */
  lemma SuggestNowIsDue(s: State, item: string)
    ensures SuggestNow(s, item) <==> item in DueItems(s)
  {
    var weeks := History(s, item);
    if |weeks| >= 2 {
      MeanOfSortedPermutation(weeks, Sort(weeks));
    }
  }

  /** What the first phase has suggested after visiting `visited`, in that
      order. */
  function SuggestedAmong(s: State, visited: seq<string>): seq<string>
    decreases |visited|
  {
    if visited == [] then []
    else
      var last := visited[|visited| - 1];
      SuggestedAmong(s, visited[..|visited| - 1]) + (if SuggestNow(s, last) then [last] else [])
  }

  /** Visiting one more item appends it when the decision holds for it. */
  lemma SuggestedAmongAppend(s: State, visited: seq<string>, item: string)
    ensures SuggestedAmong(s, visited + [item])
         == SuggestedAmong(s, visited) + (if SuggestNow(s, item) then [item] else [])
  {
    var v := visited + [item];
    assert v[..|v| - 1] == visited && v[|v| - 1] == item;
  }

  /** The first phase suggests exactly the visited items it decides for,
      each once if visited once. */
  lemma {:induction false} SuggestedAmongMembers(s: State, visited: seq<string>)
    ensures forall x :: x in SuggestedAmong(s, visited) <==> x in visited && SuggestNow(s, x)
    ensures Distinct(visited) ==> Distinct(SuggestedAmong(s, visited))
    decreases |visited|
  {
    if visited != [] {
      var init := visited[..|visited| - 1];
      var last := visited[|visited| - 1];
      SuggestedAmongMembers(s, init);
      assert visited == init + [last];
      if Distinct(visited) {
        assert Distinct(init) by {
          forall i, j | 0 <= i < j < |init| ensures init[i] != init[j] {
            assert init[i] == visited[i] && init[j] == visited[j];
          }
        }
        assert last !in init by {
          forall k | 0 <= k < |init| ensures init[k] != last {
            assert init[k] == visited[k];
          }
        }
        if SuggestNow(s, last) {
          AppendDistinct(SuggestedAmong(s, init), last);
        }
      }
    }
  }

  /** `t` is `s` with every history reordered, as the in-place sorts leave it. */
  ghost predicate Reordered(s: State, t: State) {
    && t == s.(purchaseWeeks := t.purchaseWeeks)
    && t.purchaseWeeks.Keys == s.purchaseWeeks.Keys
    && forall x :: x in s.purchaseWeeks ==> multiset(t.purchaseWeeks[x]) == multiset(s.purchaseWeeks[x])
  }

  lemma ReorderedHistory(s: State, t: State, x: string)
    requires Reordered(s, t)
    ensures multiset(History(t, x)) == multiset(History(s, x))
    ensures |History(t, x)| == |History(s, x)|
    ensures x in s.purchaseWeeks ==> MeanInterval(t.purchaseWeeks[x]) == MeanInterval(s.purchaseWeeks[x])
  {
    assert |multiset(History(t, x))| == |multiset(History(s, x))|;
    if x in s.purchaseWeeks {
      MeanIntervalPermutation(t.purchaseWeeks[x], s.purchaseWeeks[x]);
    }
  }

  /** Reordering histories keeps the invariant. */
  lemma ReorderedValid(s: State, t: State)
    requires Reordered(s, t) && Valid(s)
    ensures Valid(t)
  {
    forall x | x in t.itemFrequency ensures t.itemFrequency[x] == |t.purchaseWeeks[x]| {
      ReorderedHistory(s, t, x);
    }
    forall x | x in t.lastPurchaseWeek ensures t.lastPurchaseWeek[x] in t.purchaseWeeks[x] {
      ReorderedHistory(s, t, x);
      assert t.lastPurchaseWeek[x] in multiset(s.purchaseWeeks[x]);
    }
    assert t.weeklyItems == s.weeklyItems;
    forall v, x ensures multiset(WeekList(t, v))[x] == multiset(History(t, x))[v] {
      ReorderedHistory(s, t, x);
      assert multiset(WeekList(s, v))[x] == multiset(History(s, x))[v];
    }
  }

  /** Reordering histories keeps every suggestion decision and the set of
      repeated items. */
  lemma ReorderedDecisions(s: State, t: State)
    requires Reordered(s, t)
    ensures RepeatedItems(t) == RepeatedItems(s)
    ensures forall x :: DueForSuggestion(t, x) <==> DueForSuggestion(s, x)
  {
    forall x ensures (x in RepeatedItems(t) <==> x in RepeatedItems(s)) && (DueForSuggestion(t, x) <==> DueForSuggestion(s, x)) {
      ReorderedHistory(s, t, x);
    }
  }

  /** `Collections.sort` on a history of at least two weeks; shorter ones
      are skipped. */
  function SortRepeated(weeks: seq<int>): seq<int> {
    if |weeks| >= 2 then Sort(weeks) else weeks
  }

  /** `getAveragePurchaseInterval` sorts the item's history in place. */
  function SortHistory(s: State, item: string): State {
    if item in s.purchaseWeeks then s.(purchaseWeeks := s.purchaseWeeks[item := SortRepeated(s.purchaseWeeks[item])])
    else s
  }

  /** The histories part way through the first phase of
      `generateSuggestedList`: those not yet visited are as they were. */
  function SortedExcept(histories: map<string, seq<int>>, pending: set<string>): map<string, seq<int>> {
    map x | x in histories :: if x in pending then histories[x] else SortRepeated(histories[x])
  }

  /** `generateSuggestedList` sorts every history of two or more weeks in place. */
  function SortAllHistories(s: State): State {
    s.(purchaseWeeks := SortedExcept(s.purchaseWeeks, {}))
  }

  /** Visiting one more item sorts its history. */
  lemma SortedExceptStep(histories: map<string, seq<int>>, pending: set<string>, item: string)
    requires item in pending && item in histories
    ensures SortedExcept(histories, pending - {item})
         == SortedExcept(histories, pending)[item := SortRepeated(histories[item])]
  {
  }

  /** Both sorts only reorder histories. */
  lemma SortHistoryReorders(s: State, item: string)
    ensures Reordered(s, SortHistory(s, item))
  {
    var t := SortHistory(s, item);
    forall x | x in s.purchaseWeeks ensures multiset(t.purchaseWeeks[x]) == multiset(s.purchaseWeeks[x]) {
      if x == item {
        assert t.purchaseWeeks[x] == SortRepeated(s.purchaseWeeks[x]);
      }
    }
  }

  lemma SortAllHistoriesReorders(s: State)
    ensures Reordered(s, SortAllHistories(s))
  {
    var t := SortAllHistories(s);
    forall x | x in s.purchaseWeeks ensures multiset(t.purchaseWeeks[x]) == multiset(s.purchaseWeeks[x]) {
      assert t.purchaseWeeks[x] == SortRepeated(s.purchaseWeeks[x]);
    }
  }

  /** The items the first phase of `generateSuggestedList` suggests. */
  ghost function DueItems(s: State): set<string> {
    set x | x in s.purchaseWeeks && DueForSuggestion(s, x)
  }

  /** Every item due for suggestion was bought at least twice. */
  lemma DueItemsRepeated(s: State)
    ensures DueItems(s) <= RepeatedItems(s)
  {
  }

  /** Once every history is visited, the first phase has sorted them all,
      kept the invariant and suggested each due item once. */
  lemma FirstPhaseComplete(s: State, histories: map<string, seq<int>>, visited: seq<string>)
    requires Valid(s)
    requires histories == SortedExcept(s.purchaseWeeks, {})
    requires Distinct(visited) && forall x :: x in visited <==> x in s.purchaseWeeks
    ensures s.(purchaseWeeks := histories) == SortAllHistories(s)
    ensures Valid(SortAllHistories(s))
    ensures Distinct(SuggestedAmong(s, visited))
    ensures Elements(SuggestedAmong(s, visited)) == DueItems(s)
    ensures |SuggestedAmong(s, visited)| == |DueItems(s)|
  {
    SortAllHistoriesReorders(s);
    ReorderedValid(s, SortAllHistories(s));
    SuggestedAmongMembers(s, visited);
    forall x {
      SuggestNowIsDue(s, x);
    }
    DistinctCardinality(SuggestedAmong(s, visited));
  }

  /** What `generateSuggestedList` returns for state `s`: no item twice,
      only items bought at least twice; the due items first and all of them;
      then, while the list is shorter than five, the other repeated items in
      decreasing order of frequency, none left out that is more frequent
      than one taken. */
  ghost predicate IsSuggestionList(s: State, list: seq<string>) {
    Ranking.SuggestionShape(DueItems(s), RepeatedItems(s), s.itemFrequency, list)
  }

  /** `loadFromCSV`'s calls: the purchases recorded one after another, in order. */
  function AddAll(s: State, purchases: seq<Purchase>): State
    decreases |purchases|
  {
    if purchases == [] then s
    else
      var last := purchases[|purchases| - 1];
      AddItem(AddAll(s, purchases[..|purchases| - 1]), last.item, last.week)
  }

  /** The weeks of the purchases of `item`, in order. */
  function WeeksOf(purchases: seq<Purchase>, item: string): seq<int>
    decreases |purchases|
  {
    if purchases == [] then []
    else
      var last := purchases[|purchases| - 1];
      WeeksOf(purchases[..|purchases| - 1], item) + (if last.item == item then [last.week] else [])
  }

  /** Importing a list of purchases appends to each item's history the
      weeks of its purchases, in order. */
  lemma {:induction false} AddAllHistory(s: State, purchases: seq<Purchase>, item: string)
    ensures History(AddAll(s, purchases), item) == History(s, item) + WeeksOf(purchases, item)
    decreases |purchases|
  {
    if purchases != [] {
      var init := purchases[..|purchases| - 1];
      var last := purchases[|purchases| - 1];
      AddAllHistory(s, init, item);
      AddItemRecordsPurchase(AddAll(s, init), last.item, last.week);
    }
  }

  lemma {:induction false} AddAllPreservesValid(s: State, purchases: seq<Purchase>)
    requires Valid(s)
    ensures Valid(AddAll(s, purchases))
    decreases |purchases|
  {
    if purchases != [] {
      var init := purchases[..|purchases| - 1];
      var last := purchases[|purchases| - 1];
      AddAllPreservesValid(s, init);
      AddItemPreservesValid(AddAll(s, init), last.item, last.week);
    }
  }

  /** Importing a list of purchases keeps the invariant and appends to each
      item's history the weeks of its purchases, adding their number to its
      count. */
  lemma AddAllEffect(s: State, purchases: seq<Purchase>, item: string)
    requires Valid(s)
    ensures Valid(AddAll(s, purchases))
    ensures History(AddAll(s, purchases), item) == History(s, item) + WeeksOf(purchases, item)
    ensures Frequency(AddAll(s, purchases), item) == Frequency(s, item) + |WeeksOf(purchases, item)|
  {
    AddAllHistory(s, purchases, item);
    AddAllPreservesValid(s, purchases);
    FrequencyIsHistoryLength(s, item);
    FrequencyIsHistoryLength(AddAll(s, purchases), item);
  }
}
