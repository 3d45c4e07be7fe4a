/** The recommendation engine: the builder object that records purchases,
    answers queries about them and proposes a shopping list. Each
    state-changing method is proved to compute the matching operation of
    module Ledger on the state the fields hold, and to keep the state
    consistent; the queries are stated over the same state. */
module Engine {
  import opened Basics
  import opened Weeks
  import Ranking
  import Ledger

  /** One visit of the first phase of `generateSuggestedList`: a history
      of two or more weeks is sorted (Java sorts the stored list in place;
      the sorted copy is returned for the caller to store), the gaps between
      consecutive weeks are summed, and the item is suggested when the weeks
      since its last purchase reach the average interval less half a week,
      or it is time-sensitive and two or more weeks old. */
  method VisitHistory(s: Ledger.State, item: string) returns (sorted: seq<int>, suggest: bool)
    requires item in s.purchaseWeeks
    ensures sorted == Ledger.SortRepeated(s.purchaseWeeks[item])
    ensures suggest == Ledger.SuggestNow(s, item)
  {
    var weeks := s.purchaseWeeks[item];
    sorted := weeks;
    suggest := false;
    if |weeks| >= 2 {
      sorted := Sort(weeks);
      var totalInterval := SumOfGaps(sorted);
      var avgInterval := Mean(totalInterval, |weeks| - 1);
      var lastWeek := GetOr(s.lastPurchaseWeek, item, 0);
      var weeksSinceLastPurchase := s.currentWeek - lastWeek;
      Ledger.DueWithSince(s, item, weeksSinceLastPurchase, avgInterval);
      suggest := IsDue(weeksSinceLastPurchase, avgInterval)
                 || (item in s.timeSensitiveItems && weeksSinceLastPurchase >= 2);
    }
  }

  /** The loop of the first phase of `generateSuggestedList`: visits every
      history in map order, sorting it and collecting the items to suggest.
      The sorted histories are returned for the caller to store; nothing
      reads a history between two visits. */
  method ScanHistories(s: Ledger.State)
    returns (suggested: seq<string>, histories: map<string, seq<int>>, ghost visited: seq<string>)
    ensures histories == Ledger.SortedExcept(s.purchaseWeeks, {})
    ensures Distinct(visited) && forall x :: x in visited <==> x in s.purchaseWeeks
    ensures suggested == Ledger.SuggestedAmong(s, visited)
  {
    suggested := [];
    histories := s.purchaseWeeks;
    var pending := histories.Keys;
    visited := [];
    while pending != {}
      invariant pending <= histories.Keys == s.purchaseWeeks.Keys
      invariant histories == Ledger.SortedExcept(s.purchaseWeeks, pending)
      invariant Distinct(visited) && forall x :: x in visited <==> x in s.purchaseWeeks && x !in pending
      invariant suggested == Ledger.SuggestedAmong(s, visited)
      decreases pending
    {
      var item := Pick(pending);
      Ledger.SortedExceptStep(s.purchaseWeeks, pending, item);
      Ledger.SuggestedAmongAppend(s, visited, item);
      pending := pending - {item};
      AppendDistinct(visited, item);
      visited := visited + [item];
      var sorted, suggest := VisitHistory(s, item);
      histories := histories[item := sorted];
      if suggest {
        suggested := suggested + [item];
      }
    }
  }

  class GroceryListBuilder {
    var itemFrequency: map<string, int>
    var weeklyItems: map<int, seq<string>>
    var lastPurchaseWeek: map<string, int>
    var purchaseWeeks: map<string, seq<int>>
    var itemCategories: map<string, string>
    var timeSensitiveItems: set<string>
    var currentWeek: int

    /** The fields as a value. */
    function Model(): Ledger.State
      reads this
    {
      Ledger.State(itemFrequency, weeklyItems, lastPurchaseWeek, purchaseWeeks,
                   itemCategories, timeSensitiveItems, currentWeek)
    }

    ghost predicate Valid()
      reads this
    {
      Ledger.Valid(Model())
    }

    /** Empty collections, current week 1. */
    constructor()
      ensures Valid()
      ensures Model() == Ledger.Initial
    {
      itemFrequency := map[];
      weeklyItems := map[];
      lastPurchaseWeek := map[];
      purchaseWeeks := map[];
      itemCategories := map[];
      timeSensitiveItems := {};
      currentWeek := 1;
      Ledger.InitialValid();
    }

    /** Records one purchase of `item` in `week`. */
    method AddItem(item: string, week: int)
      requires Valid()
      modifies this
      ensures Valid()
      ensures Model() == Ledger.AddItem(old(Model()), item, week)
    {
      Ledger.AddItemPreservesValid(Model(), item, week);
      RecordPurchase(item, week);
    }

    /** The field updates of `addItem`: count, week list, last week, history,
        current week. They hold for any state; `AddItem` adds that they keep
        the invariant. */
    method RecordPurchase(item: string, week: int)
      modifies this
      ensures Model() == Ledger.AddItem(old(Model()), item, week)
    {
      itemFrequency := itemFrequency[item := GetOr(itemFrequency, item, 0) + 1];
      weeklyItems := weeklyItems[week := GetOr(weeklyItems, week, []) + [item]];
      lastPurchaseWeek := lastPurchaseWeek[item := week];
      purchaseWeeks := purchaseWeeks[item := GetOr(purchaseWeeks, item, []) + [week]];
      if week > currentWeek {
        currentWeek := week;
      }
    }

    /** The ten most frequently bought items (all of them if fewer), most
        frequent first; ties in any order. */
    method GetFrequentItems() returns (frequentItems: seq<string>)
      ensures |frequentItems| == Min(10, |itemFrequency|)
      ensures Distinct(frequentItems)
      ensures forall j :: 0 <= j < |frequentItems| ==> frequentItems[j] in itemFrequency
      ensures forall j, k :: 0 <= j < k < |frequentItems| ==>
                itemFrequency[frequentItems[j]] >= itemFrequency[frequentItems[k]]
      ensures forall x, j :: x in itemFrequency && x !in frequentItems && 0 <= j < |frequentItems| ==>
                itemFrequency[x] <= itemFrequency[frequentItems[j]]
    {
      frequentItems := Ranking.PollTop(itemFrequency, 10);
    }

    /** The first phase of `generateSuggestedList`: suggests every due
        item and leaves each history of two or more weeks sorted. */
    method SuggestDueItems() returns (suggested: seq<string>)
      requires Valid()
      modifies this
      ensures Valid()
      ensures Model() == Ledger.SortAllHistories(old(Model()))
      ensures Distinct(suggested)
      ensures Elements(suggested) == Ledger.DueItems(old(Model()))
      ensures |suggested| == |Ledger.DueItems(old(Model()))|
    {
      var start := Model();
      var histories;
      ghost var visited;
      suggested, histories, visited := ScanHistories(start);
      Ledger.FirstPhaseComplete(start, histories, visited);
      purchaseWeeks := histories;
      assert Model() == start.(purchaseWeeks := histories);
    }

    /** The suggested shopping list. First every item bought at least twice
        that is due (see `Ledger.DueForSuggestion`), in map order; then, if
        fewer than five, items bought at least twice in decreasing order of
        frequency until the list holds five. Sorts the histories it reads. */
    method GenerateSuggestedList() returns (suggestedList: seq<string>)
      requires Valid()
      modifies this
      ensures Valid()
      ensures Model() == Ledger.SortAllHistories(old(Model()))
      ensures Ledger.IsSuggestionList(old(Model()), suggestedList)
    {
      ghost var start := Model();
      var suggested := SuggestDueItems();
      Ledger.SortAllHistoriesReorders(start);
      Ledger.ReorderedDecisions(start, Model());
      Ledger.DueItemsRepeated(start);
      suggestedList := Ranking.PadByFrequency(itemFrequency, purchaseWeeks, suggested);
      Ranking.PaddingShape(itemFrequency, purchaseWeeks, suggested, suggestedList, Ledger.DueItems(start));
    }

    /** Moves the current week forward to `week` and repurchases at `week`
        the time-sensitive items listed for `week - 2` that have not been
        bought since. */
    method RotateItems(week: int)
      requires Valid()
      modifies this
      ensures Valid()
      ensures Model() == Ledger.Rotate(old(Model()), week)
    {
      ghost var start := Model();
      if week > currentWeek {
        currentWeek := week;
      }
      Ledger.ValidIgnoresTags(start, Model());
      if week - 2 in weeklyItems {
        var oldItems := weeklyItems[week - 2];
        ghost var advanced := Model();
        var i := 0;
        while i < |oldItems|
          invariant 0 <= i <= |oldItems|
          invariant Valid()
          invariant Ledger.RotateAll(Model(), oldItems[i..], week) == Ledger.RotateAll(advanced, oldItems, week)
        {
          var item := oldItems[i];
          assert oldItems[i..][1..] == oldItems[i + 1..];
          if item in timeSensitiveItems {
            if item in lastPurchaseWeek && lastPurchaseWeek[item] <= week - 2 {
              AddItem(item, week);
            }
          }
          i := i + 1;
        }
      }
    }

    /** Records the item's category and marks the item time-sensitive when
        the category is perishable. */
    method AddCategory(item: string, category: string)
      requires Valid()
      modifies this
      ensures Valid()
      ensures Model() == Ledger.AddCategory(old(Model()), item, category)
    {
      ghost var start := Model();
      itemCategories := itemCategories[item := category];
      Ledger.ValidIgnoresTags(start, Model());
      if category == "Fruits" || category == "Vegetables" || category == "Dairy"
         || category == "Bakery" || category == "Deli" || category == "Seafood"
      {
        MarkAsTimeSensitive(item);
      }
    }

    function GetItemCategory(item: string): (category: Option<string>)
      reads this
      ensures category.Some? <==> item in itemCategories
      ensures category.Some? ==> itemCategories[item] == category.value
    {
      Ledger.Category(Model(), item)
    }

    /** The items recorded under `category`, each once. */
    method GetItemsByCategory(category: string) returns (items: seq<string>)
      ensures Distinct(items)
      ensures forall x :: x in items <==> x in Ledger.ItemsIn(Model(), category)
    {
      items := [];
      var pending := itemCategories.Keys;
      while pending != {}
        invariant pending <= itemCategories.Keys
        invariant Distinct(items)
        invariant forall x :: x in items <==> x in Ledger.ItemsIn(Model(), category) && x !in pending
        decreases pending
      {
        var item := Pick(pending);
        pending := pending - {item};
        if itemCategories[item] == category {
          AppendDistinct(items, item);
          items := items + [item];
        }
      }
    }

    method MarkAsTimeSensitive(item: string)
      requires Valid()
      modifies this
      ensures Valid()
      ensures Model() == Ledger.MarkTimeSensitive(old(Model()), item)
    {
      ghost var start := Model();
      timeSensitiveItems := timeSensitiveItems + {item};
      Ledger.ValidIgnoresTags(start, Model());
    }

    method UnmarkAsTimeSensitive(item: string)
      requires Valid()
      modifies this
      ensures Valid()
      ensures Model() == Ledger.UnmarkTimeSensitive(old(Model()), item)
    {
      ghost var start := Model();
      timeSensitiveItems := timeSensitiveItems - {item};
      Ledger.ValidIgnoresTags(start, Model());
    }

    function IsTimeSensitive(item: string): (marked: bool)
      reads this
      ensures marked <==> item in Model().timeSensitiveItems
    {
      item in timeSensitiveItems
    }

    /** The items bought in `week`, in purchase order; empty for a week
        without purchases. */
    function GetWeeklyItems(week: int): (items: seq<string>)
      reads this
      ensures week !in weeklyItems ==> items == []
      ensures Valid() ==> forall x :: multiset(items)[x] == multiset(Ledger.History(Model(), x))[week]
    {
      Ledger.WeekList(Model(), week)
    }

    /** Every category some item is recorded under. */
    method GetAllCategories() returns (categories: set<string>)
      ensures forall c :: c in categories <==> exists x :: Ledger.Category(Model(), x) == Some(c)
    {
      categories := {};
      var pending := itemCategories.Keys;
      while pending != {}
        invariant pending <= itemCategories.Keys
        invariant forall c :: c in categories <==> exists x :: x in itemCategories && x !in pending && itemCategories[x] == c
        decreases pending
      {
        var item := Pick(pending);
        pending := pending - {item};
        categories := categories + {itemCategories[item]};
      }
      forall c | c in categories ensures exists x :: Ledger.Category(Model(), x) == Some(c) {
        var x :| x in itemCategories && itemCategories[x] == c;
        assert Ledger.Category(Model(), x) == Some(c);
      }
    }

    /** The weeks of the week index: under the invariant, exactly the weeks
        in which something was bought. */
    function GetAllWeeks(): (weeks: set<int>)
      reads this
      ensures weeks == Model().weeklyItems.Keys
      ensures Valid() ==> forall week :: week in weeks <==> exists item :: week in Ledger.History(Model(), item)
    {
      Ledger.IndexWeeksArePurchaseWeeks(Model());
      weeklyItems.Keys
    }

    function GetCurrentWeek(): int
      reads this
    {
      currentWeek
    }

    method SetCurrentWeek(week: int)
      requires Valid()
      modifies this
      ensures Valid()
      ensures Model() == Ledger.SetCurrentWeek(old(Model()), week)
    {
      ghost var start := Model();
      currentWeek := week;
      Ledger.SetCurrentWeekPreservesValid(start, week);
    }

    /** The average interval between the item's purchases: `Undefined` (Java's
        -1.0) with fewer than two purchases. Sorts the item's history. */
    method GetAveragePurchaseInterval(item: string) returns (average: Average)
      requires Valid()
      modifies this
      ensures Valid()
      ensures Model() == Ledger.SortHistory(old(Model()), item)
      ensures average == MeanInterval(Ledger.History(old(Model()), item))
    {
      if item !in purchaseWeeks || |purchaseWeeks[item]| <= 1 {
        return Undefined;
      }
      ghost var start := Model();
      var weeks := Sort(purchaseWeeks[item]);
      purchaseWeeks := purchaseWeeks[item := weeks];
      var totalInterval := SumOfGaps(weeks);
      MeanOfSortedPermutation(start.purchaseWeeks[item], weeks);
      Ledger.SortHistoryReorders(start, item);
      Ledger.ReorderedValid(start, Model());
      average := Mean(totalInterval, |weeks| - 1);
    }

    function GetLastPurchaseWeek(item: string): (week: int)
      reads this
      ensures item in lastPurchaseWeek ==> week == lastPurchaseWeek[item]
      ensures item !in lastPurchaseWeek ==> week == -1
      ensures Valid() && item in lastPurchaseWeek ==> week in Ledger.History(Model(), item)
    {
      Ledger.LastPurchase(Model(), item)
    }
  }
}
