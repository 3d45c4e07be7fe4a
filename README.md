# Grocery list builder — a verified Dafny model

The grocery list builder records which items a household buys in which
week. It answers queries about the purchases and proposes a shopping list:
items that are due again given their average purchase interval, plus frequent
items. A CSV import feeds it purchases. A second pass over the same file
rates how regularly each item is bought. Items are small objects named by
their name.

This project models three parts of that system in Dafny:

- **The builder** (`Engine.GroceryListBuilder`, a class whose fields are
  six of the builder's seven collections, all but the frequency queue, and
  its current week).
  - Every state-changing method is proved to compute the matching
    operation of module `Ledger`, which states the builder's state as a
    value (`Ledger.State`) and each state change as a function. The
    queries are stated over the same state: `GetFrequentItems` through
    module `Ranking`, the lookups through `Ledger`'s functions;
    `GetCurrentWeek` is a plain field read without a contract.
  - It is also proved to keep the builder's consistency invariant
    (`Ledger.Valid`): an item's count is the length of its history, its
    last week occurs in its history, and the week index lists each item
    once per purchase that week.
  - Lemmas in `Ledger`, `Ranking` and `Weeks` state what the operations
    promise: purchase recording, rotation of time-sensitive items,
    categories, the two phases of the suggested list, the top-ten
    frequency ranking and the average purchase interval.
- **The CSV import** (module `DataLoader`, with module `Csv` for the
  Java string operations it uses and module `Intervals` for the regularity
  score). A file is the sequence of its lines.
  - `loadFromCSV` is proved to record exactly the purchases of the accepted
    lines, in line order, through `addItem`, and to return their number.
  - `identifyTimeSensitiveItems` is proved to count the accepted purchases
    per item and week and to give each item the score of its weeks.
  - `calculateRegularityScore` is proved to compute that score: it is 0
    with fewer than two weeks, otherwise positive, at most the number of
    weeks, and equal to it exactly when the weeks are evenly spaced.
- **Items** (module `Items`, class `Item`): both constructors, the
  getters and setters, `equals` (by name), `hashCode` (Java's
  `String.hashCode` of the name in 32-bit arithmetic) and `toString`.

Java's `HashMap` iteration order and `PriorityQueue` tie order are
unspecified. The model leaves them unspecified too, by choosing an
arbitrary remaining key. Every contract holds for every order.

Two behaviours of the code are worth noting:

- `addItem` overwrites an item's last purchase week with the week given.
  It does not keep the maximum, so the last week can move back when an
  older purchase is recorded later (`Ledger.LastPurchaseCanMoveBack`).
- `rotateItems` returns nothing (it is declared `void`); `Ledger.Rotated`
  states which items it repurchases.

## Model

| member | source | states |
|---|---|---|
| Engine.GroceryListBuilder.constructor | src/GroceryListBuilderImpl.java:24-33 | a new builder has empty collections and current week 1, and satisfies the invariant |
| Engine.GroceryListBuilder.AddItem | src/GroceryListBuilderImpl.java:49-71 | the new state is `Ledger.AddItem` of the old one (count, week list, last week, history, current week), and the invariant is kept |
| Engine.GroceryListBuilder.RecordPurchase | src/GroceryListBuilderImpl.java:51-67 | the five field updates of `addItem` give `Ledger.AddItem` of the old state, whatever that state is |
| Ledger.AddItemRecordsPurchase | src/GroceryListBuilderImpl.java:49-67 | one purchase raises the item's count by one, appends the week to its history and the item to the week's list, sets its last week, raises the current week to the maximum, and changes nothing for other items, other weeks, categories or marks |
| Ledger.AddItemPreservesValid | src/GroceryListBuilderImpl.java:49-67 | recording a purchase keeps counts, histories, last weeks and the week index consistent |
| Ledger.AddItemIndexEntry | src/GroceryListBuilderImpl.java:54-62 | each entry of the week index stays consistent with the item's history after a purchase |
| Ledger.InitialValid | src/GroceryListBuilderImpl.java:24-33 | the empty builder satisfies the invariant |
| Ledger.ValidIgnoresTags | src/GroceryListBuilderImpl.java:183-241 | category, mark and current-week changes cannot break the invariant |
| Ledger.FrequencyIsHistoryLength | src/GroceryListBuilderImpl.java:51-62 | under the invariant an item's count equals the length of its purchase history |
| Ledger.WeeklyItemsAreRecorded | src/GroceryListBuilderImpl.java:54-62 | an item listed under a week has a count, a last week and that week in its history |
| Ledger.WeeksWithPurchases | src/GroceryListBuilderImpl.java:283-285 | the weeks of the index are exactly the weeks in which some item was bought |
| Ledger.LastPurchaseCanMoveBack | src/GroceryListBuilderImpl.java:58 | the last week is overwritten: buying at week 5, then at week 3, leaves last week 3 |
| Engine.GroceryListBuilder.GetFrequentItems | src/GroceryListBuilderImpl.java:87-100 | returns min(10, number of items) distinct items, in non-increasing order of count, none left out that is counted higher than one returned |
| Ranking.Poll | src/GroceryListBuilderImpl.java:95 | polling returns a remaining item whose count is the largest remaining |
| Ranking.PollTop | src/GroceryListBuilderImpl.java:89-97 | the polling loop returns the top `min(limit, size)` items, distinct, in non-increasing count order, and nothing omitted outranks an item taken |
| Ranking.HeadExists | src/GroceryListBuilderImpl.java:95 | a non-empty queue has an element of highest count |
| Engine.GroceryListBuilder.GenerateSuggestedList | src/GroceryListBuilderImpl.java:103-152 | returns a list of the shape `Ledger.IsSuggestionList` (all due items first, then padding by frequency up to five) and leaves every history of two or more weeks sorted |
| Engine.GroceryListBuilder.SuggestDueItems | src/GroceryListBuilderImpl.java:106-138 | the first phase suggests, each once, exactly the items due for suggestion and sorts every history it visits |
| Engine.ScanHistories | src/GroceryListBuilderImpl.java:107-138 | the loop visits every item once, sorts the histories of two or more weeks and collects the items it decides to suggest, in visiting order |
| Engine.VisitHistory | src/GroceryListBuilderImpl.java:108-137 | one visit returns the sorted history and the decision `Ledger.SuggestNow` for the item |
| Ledger.SuggestNowIsDue | src/GroceryListBuilderImpl.java:112-137 | the computed decision (sort, sum the gaps, compare) holds exactly for the due items |
| Ledger.DueWithSince | src/GroceryListBuilderImpl.java:127-135 | the due test as the loop writes it: weeks since the last purchase (0 if none) reach the average less half a week, or the item is time-sensitive and two or more weeks old |
| Ledger.SuggestedAmongAppend | src/GroceryListBuilderImpl.java:134-137 | visiting one more item appends it exactly when it is decided for |
| Ledger.SuggestedAmongMembers | src/GroceryListBuilderImpl.java:107-138 | the first phase suggests exactly the visited items decided for, none twice |
| Ledger.FirstPhaseComplete | src/GroceryListBuilderImpl.java:107-138 | after all items are visited, every history is sorted, the invariant holds and the suggestions are exactly the due items, each once |
| Ledger.DueItemsRepeated | src/GroceryListBuilderImpl.java:112-114 | only items bought at least twice are ever due |
| Ledger.SortedExceptStep | src/GroceryListBuilderImpl.java:117 | visiting an item sorts its history and touches no other |
| Ledger.SortHistoryReorders | src/GroceryListBuilderImpl.java:318 | sorting one history in place only reorders it |
| Ledger.SortAllHistoriesReorders | src/GroceryListBuilderImpl.java:117 | the first phase's in-place sorts only reorder histories |
| Ledger.ReorderedHistory | src/GroceryListBuilderImpl.java:117 | a reordered history keeps its weeks, length and average interval |
| Ledger.ReorderedValid | src/GroceryListBuilderImpl.java:117 | reordering histories keeps the invariant |
| Ledger.ReorderedDecisions | src/GroceryListBuilderImpl.java:103-152 | reordering histories changes neither the repeated items nor any suggestion decision |
| Ranking.PadByFrequency | src/GroceryListBuilderImpl.java:141-149 | padding keeps the suggested prefix; with fewer than five it adds, in non-increasing count order, min(5 − suggested, candidates) distinct items bought at least twice and not yet suggested, none skipped that outranks one added; with five or more it adds nothing |
| Ranking.PadLoop | src/GroceryListBuilderImpl.java:142-148 | the loop keeps the suggested prefix and appends, in non-increasing count order, distinct candidates only, none left behind more frequent than one taken; it stops short of five only once every candidate is listed |
| Ranking.PaddingLength | src/GroceryListBuilderImpl.java:143 | the padding loop stops at five items or when the candidates run out |
| Ranking.PaddedMembers | src/GroceryListBuilderImpl.java:141-149 | the padded list holds only repeated items, and its due items are exactly its first ones |
| Ranking.CandidatesAreTheRest | src/GroceryListBuilderImpl.java:145 | the padding candidates are the repeated items that are not due |
| Ranking.PaddingShape | src/GroceryListBuilderImpl.java:103-152 | the due items followed by the padding have the suggested-list shape |
| Engine.GroceryListBuilder.RotateItems | src/GroceryListBuilderImpl.java:155-175 | the new state is `Ledger.Rotate` of the old one, and the invariant is kept |
| Ledger.RotateAllPreservesValid | src/GroceryListBuilderImpl.java:164-173 | the rotation loop keeps the invariant |
| Ledger.RotatePreservesValid | src/GroceryListBuilderImpl.java:155-175 | rotating keeps the invariant |
| Ledger.RotateAllEffect | src/GroceryListBuilderImpl.java:164-173 | an item listed two weeks back is repurchased once, even when listed twice, exactly when it is time-sensitive and not bought since; afterwards it is no longer due |
| Ledger.RotateAllFrame | src/GroceryListBuilderImpl.java:164-173 | the loop changes only week `week` of the index; the current week never drops and rises at most to `week`; marks and categories are unchanged |
| Ledger.RotateAllNothingDue | src/GroceryListBuilderImpl.java:164-173 | with no listed item due, the loop changes nothing |
| Ledger.RotateEffect | src/GroceryListBuilderImpl.java:155-175 | exactly the rotated items gain one purchase at `week` and take `week` as their last week; the current week becomes the maximum |
| Ledger.RotateIdempotent | src/GroceryListBuilderImpl.java:155-175 | rotating twice for the same week equals rotating once |
| Engine.GroceryListBuilder.AddCategory | src/GroceryListBuilderImpl.java:183-195 | the new state is `Ledger.AddCategory` of the old one, and the invariant is kept |
| Ledger.AddCategoryMarks | src/GroceryListBuilderImpl.java:183-195 | the category is recorded; the item ends up marked iff it was marked or the category is one of the six perishable ones; no other mark changes |
| Ledger.AddCategoryThenLookup | src/GroceryListBuilderImpl.java:183-223 | afterwards the item reports that category and is listed under it and under no other; other items keep their categories |
| Engine.GroceryListBuilder.GetItemCategory | src/GroceryListBuilderImpl.java:203-205 | the recorded category, or none (Java's null) for an item without one |
| Engine.GroceryListBuilder.GetItemsByCategory | src/GroceryListBuilderImpl.java:213-223 | each item recorded under the category, once |
| Engine.GroceryListBuilder.MarkAsTimeSensitive | src/GroceryListBuilderImpl.java:230-232 | the item is added to the marked set, nothing else changes, and the invariant is kept |
| Engine.GroceryListBuilder.UnmarkAsTimeSensitive | src/GroceryListBuilderImpl.java:239-241 | the item is removed from the marked set, nothing else changes, and the invariant is kept |
| Engine.GroceryListBuilder.IsTimeSensitive | src/GroceryListBuilderImpl.java:249-251 | true exactly for marked items |
| Engine.GroceryListBuilder.GetWeeklyItems | src/GroceryListBuilderImpl.java:259-261 | empty for a week without purchases; under the invariant, each item occurs as often as its history holds that week |
| Engine.GroceryListBuilder.GetAllCategories | src/GroceryListBuilderImpl.java:268-276 | exactly the categories some item is recorded under |
| Engine.GroceryListBuilder.GetAllWeeks | src/GroceryListBuilderImpl.java:283-285 | returns the weeks of the week index, which under the invariant are exactly the weeks in which some item was bought |
| Ledger.IndexWeeksArePurchaseWeeks | src/GroceryListBuilderImpl.java:283-285 | under the invariant, the key set of the week index is the set of weeks held by some item's history |
| Engine.GroceryListBuilder.SetCurrentWeek | src/GroceryListBuilderImpl.java:301-303 | the new state is `Ledger.SetCurrentWeek` of the old one (only the current week replaced), and the invariant is kept |
| Ledger.SetCurrentWeekPreservesValid | src/GroceryListBuilderImpl.java:301-303 | moving the current week, to any value, keeps the invariant |
| Engine.GroceryListBuilder.GetAveragePurchaseInterval | src/GroceryListBuilderImpl.java:311-325 | returns the mean interval of the item's history (undefined, Java's -1.0, with fewer than two purchases) and leaves that history sorted |
| Engine.GroceryListBuilder.GetLastPurchaseWeek | src/GroceryListBuilderImpl.java:327-329 | the recorded last week, or -1 for an item never bought; under the invariant it is one of the item's purchase weeks |
| Weeks.Sort | src/GroceryListBuilderImpl.java:117 | `Collections.sort`: a sorted permutation of the history |
| Weeks.SumOfGaps | src/GroceryListBuilderImpl.java:320-323 | the loop's total of consecutive gaps, which equals last minus first |
| Weeks.GapSumTelescopes | src/GroceryListBuilderImpl.java:120-123 | the consecutive gaps add up to the last week minus the first |
| Weeks.MeanInterval | src/GroceryListBuilderImpl.java:311-325 | the average interval is undefined exactly with fewer than two weeks; otherwise it has one gap fewer than weeks and a non-negative total |
| Weeks.MeanOfSortedPermutation | src/GroceryListBuilderImpl.java:117-124 | summing the gaps of any sorted arrangement of a history gives its average interval |
| Weeks.MeanIntervalPermutation | src/GroceryListBuilderImpl.java:311-325 | reordering a history does not change its average interval |
| Weeks.DueMatchesHalfWeekTolerance | src/GroceryListBuilderImpl.java:134 | the integer due test is exactly `weeksSince >= avgInterval - 0.5` on the exact quotient |
| Weeks.ThreePurchasesTwoWeeksApart | src/GroceryListBuilderImpl.java:311-325 | purchases at weeks 1, 3 and 5 average 2.0 weeks apart |
| DataLoader.LoadFromCSV | src/DataLoader.java:25-68 | the builder records the purchases of the accepted lines after the first, in line order, through `addItem`; it returns their number and keeps the invariant |
| DataLoader.ImportPurchase | src/DataLoader.java:55 | one `addItem` call appends one purchase to those imported |
| DataLoader.PurchasesFromDataLines | src/DataLoader.java:37-62 | a purchase is imported iff some line after the first reads as it; there are no more purchases than lines |
| DataLoader.FirstLineIsNeverData | src/DataLoader.java:39-43 | the header is skipped even when it reads as a purchase |
| DataLoader.ParseLine | src/DataLoader.java:46-53 | a line is accepted only if it holds a comma and its week lies in the `int` range; `AcceptedLineShape`, `ParseLineWritten`, `OneFieldRejected` and `TrailingCommaRejected` give the rest of its meaning |
| DataLoader.AcceptedLineShape | src/DataLoader.java:46-53 | an accepted line has a comma and at least two fields; its item is the trimmed first field, without commas or blank ends; its week is an `int` |
| DataLoader.EmptyNameAndNonPositiveWeekAccepted | src/DataLoader.java:48-53 | lines `,0` and ` ,-3` are accepted, with empty names and weeks 0 and -3 |
| DataLoader.ExtraFieldsIgnored | src/DataLoader.java:48-53 | fields after the second do not change what a line reads as |
| DataLoader.OneFieldRejected | src/DataLoader.java:46-48 | a line without a comma is skipped |
| DataLoader.TrailingCommaRejected | src/DataLoader.java:46-48 | a line whose only comma ends it is skipped, because `split` drops the trailing empty field |
| DataLoader.ParseLineWritten | src/DataLoader.java:46-53 | a line written as an item, a comma and a number reads back as that purchase, the item trimmed |
| DataLoader.PresentMembers | src/DataLoader.java:48-57 | the imported purchases are exactly those of the accepted lines, no more than the lines |
| Ledger.AddAllPreservesValid | src/DataLoader.java:37-63 | importing a list of purchases keeps the invariant |
| Ledger.AddAllHistory | src/DataLoader.java:37-63 | importing appends to each item's history the weeks of its purchases, in order |
| Ledger.AddAllEffect | src/DataLoader.java:37-63 | importing keeps the invariant, appends each item's weeks to its history and raises its count by their number |
| DataLoader.IdentifyTimeSensitiveItems | src/DataLoader.java:79-141 | scores exactly the items of the accepted lines, each with the regularity score of the weeks it was bought in |
| DataLoader.CountPurchase | src/DataLoader.java:110-114 | the count of the line's item in the line's week goes up by one |
| DataLoader.WeekCountsCount | src/DataLoader.java:99-114 | the counts hold an entry per purchased item and, within it, per week it was bought in, holding the number of its purchases that week |
| DataLoader.CalculateRegularityScore | src/DataLoader.java:151-208 | returns the regularity score of the map's weeks |
| DataLoader.RegularityScoreBounds | src/DataLoader.java:151-208 | 0 for fewer than two weeks; otherwise positive and at most the number of weeks, reaching it exactly when the sorted weeks are evenly spaced; the sorted weeks run from the smallest to the largest |
| DataLoader.KeysOf | src/DataLoader.java:158 | the map's weeks, each once |
| DataLoader.SumIntervals | src/DataLoader.java:163-177 | the sum of the gaps is the last week minus the first; there is one gap fewer than weeks |
| DataLoader.SumSquaredDiff | src/DataLoader.java:188-201 | the loop adds up the squared differences between each gap and the mean gap |
| Intervals.SortedKeysAscend | src/DataLoader.java:158-160 | sorting the keys, listed in any order, gives the weeks in increasing order |
| Intervals.SortedUnique | src/DataLoader.java:160 | two sorted arrangements of the same weeks are equal |
| Intervals.AscendingOnce | src/DataLoader.java:158-160 | the sorted weeks hold each week of the set once |
| Intervals.AscendingSorted | src/DataLoader.java:158-160 | the sorted weeks are sorted and drawn from the set |
| Intervals.AscendingSpan | src/DataLoader.java:160-165 | the sorted weeks start at the smallest week and end at the largest |
| Intervals.SquaredDeviationsZero | src/DataLoader.java:188-204 | the squared differences add up to zero or more, and to zero exactly when every gap equals the average |
| Intervals.Variance | src/DataLoader.java:204 | the variance is never negative |
| Intervals.EvenlySpacedIffMeanGaps | src/DataLoader.java:185-204 | every gap equals the mean gap exactly when the weeks are evenly spaced |
| Intervals.EvenSpan | src/DataLoader.java:163-177 | evenly spaced weeks span the number of gaps times one gap |
| Intervals.ScoreBounds | src/DataLoader.java:204-207 | the score is positive and at most the number of weeks, and equals it exactly when the weeks are evenly spaced |
| Csv.SplitKeepsLeadingFields | src/DataLoader.java:46 | `split(",")` keeps the line's fields up to its last non-empty one (the whole line without a comma), none holding a comma |
| Csv.SplitTwo | src/DataLoader.java:46 | a comma between two comma-free fields, the second non-empty, splits into exactly those two |
| Csv.JoinFields | src/DataLoader.java:46 | joining a line's fields with commas gives the line back |
| Csv.FieldsJoin | src/DataLoader.java:46 | cutting comma-free fields joined by commas gives them back |
| Csv.FieldsCommaFree | src/DataLoader.java:46 | no field holds a comma |
| Csv.DropTrailingEmptyShape | src/DataLoader.java:46 | `split` removes exactly the run of empty fields at the end |
| Csv.TrimIsInnerPart | src/DataLoader.java:50-53 | `trim` returns the part between the leading and the trailing blanks, and it has no blank end |
| Csv.TrimKeepsCommaFree | src/DataLoader.java:50 | trimming a field without commas leaves it without commas |
| Csv.TrimIdempotent | src/DataLoader.java:50-53 | trimming twice is trimming once |
| Csv.ParseInt | src/DataLoader.java:53 | a value `parseInt` accepts lies in the `int` range |
| Csv.ParseIntToString | src/DataLoader.java:53 | parsing a number written in decimal gives the number back |
| Csv.IntToStringTrimmed | src/DataLoader.java:53 | a number written in decimal has no blank end, so trimming leaves it |
| Csv.NatDigitsValue | src/DataLoader.java:53 | the digits of a natural number have that value |
| Items.Item.constructor | src/Item.java:29-41 | the item has the given name, category and mark, and last week -1 |
| Items.Item.WithName | src/Item.java:49-52 | the item has the given name, category "Uncategorized", no mark and last week -1 |
| Items.Item.SetName | src/Item.java:69-72 | `getName` returns the new name; the other getters are unchanged |
| Items.Item.SetCategory | src/Item.java:89-92 | `getCategory` returns the new category; the other getters are unchanged |
| Items.Item.SetTimeSensitive | src/Item.java:109-112 | `isTimeSensitive` returns the new flag; the other getters are unchanged |
| Items.Item.SetLastPurchasedWeek | src/Item.java:129-132 | `getLastPurchasedWeek` returns the new week; the other getters are unchanged |
| Items.Item.Equals | src/Item.java:142-154 | equal exactly to an item of the same name: never to null or to an object of another class |
| Items.EqualsIsEquivalence | src/Item.java:142-154 | item equality is reflexive, symmetric and transitive |
| Items.Item.HashCode | src/Item.java:163-166 | the hash is in the `int` range and is the polynomial `s[0]*31^(n-1) + ... + s[n-1]` of the name, reduced to 32 bits |
| Items.StringHash | src/Item.java:165 | `String.hashCode` stays in the `int` range |
| Items.StringHashIsPolynomial | src/Item.java:165 | the hash computed with 32-bit wrap-around at every step is the documented polynomial reduced once |
| Items.Wrap | src/Item.java:165 | 32-bit `int` arithmetic lands in the `int` range |
| Items.WrapOffset | src/Item.java:165 | wrapping moves a value by a whole number of `2^32` |
| Items.WrapShift | src/Item.java:165 | wrapping depends only on the value modulo `2^32` |
| Items.EqualItemsHashEqually | src/Item.java:142-166 | equal items have equal hash codes |
| Items.Item.ToString | src/Item.java:175-178 | the string is the item's name |
| Items.EqualsIffSameText | src/Item.java:142-178 | two items are equal exactly when they print the same |

## Left out

- File reading and `System.err`: a file is given as the sequence of its lines. `BufferedReader`, the `IOException` path and the message for an unparsable week are not modelled. A rejected line is simply skipped.
- `double` arithmetic: average intervals, the due test's `avgInterval - 0.5` and the regularity score use exact rationals and reals. Floating-point rounding is not modelled.
- `int` overflow: the model does not wrap week arithmetic, counts, `recordCount`, the interval sums or `weeksSinceLastPurchase` at 32 bits. Only `hashCode`, where wrap-around is the documented behaviour, is modelled in 32-bit arithmetic.
- Iteration order of `HashMap`, `HashSet` and `PriorityQueue` ties: the model chooses an arbitrary remaining key, so no contract depends on the order. The list returned by `getItemsByCategory` and the due items in `generateSuggestedList` are specified as sets in some order.
- `updateFrequentItemsQueue` (src/GroceryListBuilderImpl.java:76-84): the queue is not stored, because it is rebuilt from `itemFrequency` after every purchase. A copy of it is therefore the frequency map, and `Ranking.PollTop` polls that map.
- Aliasing of returned lists: `getWeeklyItems` returns the stored list and `getAllWeeks` the live key set. The model returns values, so a caller's later change to them does not reach the builder.
- In-place `Collections.sort` of a purchase history (src/GroceryListBuilderImpl.java:117, 318): modelled as a sorted copy that is then stored (`Ledger.SortHistory`, `Ledger.SortAllHistories`).
- `Arrays.sort` of a local array of weeks in `calculateRegularityScore` (src/DataLoader.java:158-160): the array is never stored, so it is modelled as a sorted local sequence (`Weeks.Sort` of `DataLoader.KeysOf`), which `Intervals.SortedKeysAscend` proves equal to `Intervals.Ascending` of the weeks.
- `null`: item names, categories and map values are never null in the model. `getItemCategory`'s null is `None`, and `getLastPurchaseWeek`'s default is -1.
- `Integer.parseInt` accepts non-ASCII decimal digits as well. The model accepts only `0`-`9`.
- `String.hashCode` works on UTF-16 code units, while the model works on Unicode scalar values. They agree on the Basic Multilingual Plane.
- `String.trim` removes code points up to U+0020. The model does the same, but on scalar values.
- Items.Item.Equals: Java compares run-time classes with `getClass()`. The model has no subclasses of `Item`, so this is `obj is Item`.
- Engine.GroceryListBuilder.GetCurrentWeek and the `Item` getters: these are plain field reads with no contract of their own. The setters' contracts state what they return.
- The interface `GroceryListBuilder` and the Swing GUI are not part of this model.

