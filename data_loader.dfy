/** The CSV import of purchase data. The file is given as its sequence of
    lines; the first line is a header. Each later line is split on commas,
    and with at least two fields the trimmed first field is the item and the
    trimmed second must parse as the week; other lines are skipped. */
module DataLoader {
  import opened Basics
  import opened Csv
  import opened Weeks
  import opened Intervals
  import Ledger
  import Engine

  /** The purchase a data line stands for, if it is accepted: the line is
      split on commas, needs two fields, and its trimmed second field must
      parse as an `int` (the `NumberFormatException` is `None`). Empty item
      names and weeks below one are accepted like any other. */
  function ParseLine(line: string): (r: Option<Ledger.Purchase>)
    ensures r.Some? ==> ',' in line && MinInt <= r.value.week <= MaxInt
  {
    var parts := Split(line);
    if |parts| < 2 then None
    else
      match ParseInt(Trim(parts[1]))
      case None => None
      case Some(week) => Some(Ledger.Purchase(Trim(parts[0]), week))
  }

  /** What each line of a file stands for: nothing for the header line,
      which is skipped without being read, and the line's purchase, if it
      is accepted, for every later line. */
  function Parsed(lines: seq<string>): (r: seq<Option<Ledger.Purchase>>)
    ensures |r| == |lines|
  {
    seq(|lines|, i requires 0 <= i < |lines| => if i == 0 then None else ParseLine(lines[i]))
  }

  /** The values of the present entries, in order. */
  function Present<T>(entries: seq<Option<T>>): seq<T>
    decreases |entries|
  {
    if entries == [] then []
    else
      Present(entries[..|entries| - 1])
      + match entries[|entries| - 1] case Some(x) => [x] case None => []
  }

  /** Each value comes from one present entry, and each present entry gives one. */
  lemma {:induction false} PresentMembers<T>(entries: seq<Option<T>>)
    ensures forall x :: x in Present(entries) <==> Some(x) in entries
    ensures |Present(entries)| <= |entries|
    decreases |entries|
  {
    if entries != [] {
      var init := entries[..|entries| - 1];
      PresentMembers(init);
      assert entries == init + [entries[|entries| - 1]];
    }
  }

  /** The purchases a file yields, in line order: the first line is never
      read as data. */
  function Purchases(lines: seq<string>): seq<Ledger.Purchase> {
    Present(Parsed(lines))
  }

  /** A purchase is imported exactly when some line after the first stands
      for it; there are no more purchases than lines. */
  lemma PurchasesFromDataLines(lines: seq<string>)
    ensures forall p :: p in Purchases(lines) <==> exists i :: 1 <= i < |lines| && ParseLine(lines[i]) == Some(p)
    ensures |Purchases(lines)| <= |lines|
  {
    var parsed := Parsed(lines);
    PresentMembers(parsed);
    forall p ensures Some(p) in parsed <==> exists i :: 1 <= i < |lines| && ParseLine(lines[i]) == Some(p) {
      if Some(p) in parsed {
        var i :| 0 <= i < |parsed| && parsed[i] == Some(p);
        assert 1 <= i < |lines| && ParseLine(lines[i]) == Some(p);
      }
      if exists i :: 1 <= i < |lines| && ParseLine(lines[i]) == Some(p) {
        var i :| 1 <= i < |lines| && ParseLine(lines[i]) == Some(p);
        assert parsed[i] == Some(p);
      }
    }
  }

  /** Reading one more line, which stands for `record`. */
  lemma PurchasesStep(lines: seq<string>, i: nat, record: Option<Ledger.Purchase>)
    requires i < |lines|
    requires record == if i == 0 then None else ParseLine(lines[i])
    ensures Present(Parsed(lines)[..i + 1])
         == Present(Parsed(lines)[..i]) + if record.Some? then [record.value] else []
  {
    var parsed := Parsed(lines);
    assert parsed[..i + 1][..i] == parsed[..i];
    assert parsed[..i + 1][i] == parsed[i] == record;
  }

  /** Recording one more purchase. */
  lemma AddAllStep(s: Ledger.State, purchases: seq<Ledger.Purchase>, p: Ledger.Purchase)
    ensures Ledger.AddAll(s, purchases + [p]) == Ledger.AddItem(Ledger.AddAll(s, purchases), p.item, p.week)
  {
    assert (purchases + [p])[..|purchases|] == purchases;
  }

  /** A line written as an item without commas, a comma and a week reads
      back as that purchase of the trimmed item. */
  lemma ParseLineWritten(name: string, week: int)
    requires ',' !in name
    requires MinInt <= week <= MaxInt
    ensures ParseLine(name + [','] + IntToString(week)) == Some(Ledger.Purchase(Trim(name), week))
  {
    var digits := IntToString(week);
    assert ',' !in digits by {
      if week < 0 {
        assert digits[1..] == NatDigits(-week);
      }
    }
    SplitTwo(name, digits);
    IntToStringTrimmed(week);
    ParseIntToString(week);
  }

  /** Fields after the second are ignored. */
  lemma ExtraFieldsIgnored(item: string, week: string, rest: string)
    requires ',' !in item && ',' !in week && week != []
    ensures ParseLine(item + [','] + week + [','] + rest) == ParseLine(item + [','] + week)
  {
    var line := item + [','] + week + [','] + rest;
    FieldsAfter(week, rest);
    assert line == item + [','] + (week + [','] + rest);
    FieldsAfter(item, week + [','] + rest);
    var fields := Fields(line);
    assert fields[0] == item && fields[1] == week;
    DropTrailingEmptyShape(fields);
    assert line[|item|] == ',';
    var parts := Split(line);
    assert |parts| >= 2;
    SplitTwo(item, week);
  }

  /** A line without a comma has one field and is skipped. */
  lemma OneFieldRejected(line: string)
    requires ',' !in line
    ensures ParseLine(line) == None
  {
    assert Split(line) == [line];
  }

  /** So is a line whose only comma ends it: the empty field after the
      comma is dropped. */
  lemma TrailingCommaRejected(line: string)
    requires ',' !in line
    ensures ParseLine(line + [',']) == None
  {
    var withComma := line + [','];
    FieldsAfter(line, []);
    assert line + [','] + [] == withComma;
    assert withComma[|line|] == ',';
    assert Fields(withComma) == [line, []];
    DropTrailingEmptyShape(Fields(withComma));
    assert |Split(withComma)| <= 1;
  }

  /** An accepted line has a comma; its item is its first field trimmed,
      so it holds no comma and has no blank at either end; its week is an
      `int`. */
  lemma AcceptedLineShape(line: string)
    requires ParseLine(line).Some?
    ensures var p := ParseLine(line).value;
      && ',' in line && |Split(line)| >= 2
      && p.item == Trim(Fields(line)[0]) && ',' !in p.item
      && (p.item == [] || (!IsBlank(p.item[0]) && !IsBlank(p.item[|p.item| - 1])))
      && MinInt <= p.week <= MaxInt
  {
    var parts := Split(line);
    SplitKeepsLeadingFields(line);
    TrimIsInnerPart(parts[0]);
    TrimKeepsCommaFree(parts[0]);
  }

  /** Neither an empty item name nor a week below one is rejected. */
  lemma EmptyNameAndNonPositiveWeekAccepted()
    ensures ParseLine(",0") == Some(Ledger.Purchase("", 0))
    ensures ParseLine(" ,-3") == Some(Ledger.Purchase("", -3))
  {
    ParseLineWritten("", 0);
    assert "" + [','] + IntToString(0) == ",0";
    ParseLineWritten(" ", -3);
    assert IntToString(-3) == "-3";
    assert " " + [','] + IntToString(-3) == " ,-3";
    assert Trim(" ") == "";
  }

  /** The header is skipped even when it reads as a purchase: a file of a
      header and one written purchase imports that purchase alone. */
  lemma FirstLineIsNeverData(header: string, name: string, week: int)
    requires ',' !in name
    requires MinInt <= week <= MaxInt
    ensures Purchases([header, name + [','] + IntToString(week)]) == [Ledger.Purchase(Trim(name), week)]
  {
    var lines := [header, name + [','] + IntToString(week)];
    ParseLineWritten(name, week);
    PurchasesStep(lines, 0, None);
    PurchasesStep(lines, 1, Some(Ledger.Purchase(Trim(name), week)));
    assert Parsed(lines)[..2] == Parsed(lines);
    assert Parsed(lines)[..0] == [];
  }

  /** The `addItem` call of one accepted line, recorded as one more
      purchase after those already imported into the builder. */
  method ImportPurchase(builder: Engine.GroceryListBuilder, ghost start: Ledger.State,
                        ghost imported: seq<Ledger.Purchase>, p: Ledger.Purchase)
    requires builder.Valid() && builder.Model() == Ledger.AddAll(start, imported)
    modifies builder
    ensures builder.Valid() && builder.Model() == Ledger.AddAll(start, imported + [p])
  {
    AddAllStep(start, imported, p);
    builder.AddItem(p.item, p.week);
  }

  /** `loadFromCSV`: records every accepted purchase through `addItem`, in
      line order, and returns how many there were. */
  method LoadFromCSV(lines: seq<string>, builder: Engine.GroceryListBuilder) returns (recordCount: int)
    requires builder.Valid()
    modifies builder
    ensures builder.Valid()
    ensures builder.Model() == Ledger.AddAll(old(builder.Model()), Purchases(lines))
    ensures recordCount == |Purchases(lines)|
  {
    ghost var parsed := Parsed(lines);
    ghost var start := builder.Model();
    ghost var imported: seq<Ledger.Purchase> := [];
    recordCount := 0;
    var isHeader := true;
    var i := 0;
    while i < |lines|
      invariant 0 <= i <= |lines|
      invariant isHeader <==> i == 0
      invariant imported == Present(parsed[..i])
      invariant builder.Valid() && builder.Model() == Ledger.AddAll(start, imported)
      invariant recordCount == |imported|
    {
      var line := lines[i];
      var record := None;
      if isHeader {
        isHeader := false;
      } else {
        record := ParseLine(line);
      }
      PurchasesStep(lines, i, record);
      if record.Some? {
        ImportPurchase(builder, start, imported, record.value);
        imported := imported + [record.value];
        recordCount := recordCount + 1;
      }
      i := i + 1;
    }
    assert parsed[..i] == parsed;
  }

  /** The per-item week counts of `identifyTimeSensitiveItems`: for each
      item, how many accepted lines name each week. */
  function WeekCounts(purchases: seq<Ledger.Purchase>): map<string, map<int, int>>
    decreases |purchases|
  {
    if purchases == [] then map[]
    else
      var counts := WeekCounts(purchases[..|purchases| - 1]);
      var p := purchases[|purchases| - 1];
      var weekFreq := GetOr(counts, p.item, map[]);
      counts[p.item := weekFreq[p.week := GetOr(weekFreq, p.week, 0) + 1]]
  }

  /** The counts hold one entry per purchased item, one per week it was
      bought in, and the number of its purchases in that week: the weeks
      `loadFromCSV` appends to the item's history, counted. */
  lemma {:induction false} WeekCountsCount(purchases: seq<Ledger.Purchase>, item: string, week: int)
    ensures var counts := WeekCounts(purchases);
      var weeks := Ledger.WeeksOf(purchases, item);
      && (item in counts <==> weeks != [])
      && (item in counts ==> (week in counts[item] <==> week in weeks))
      && (item in counts && week in counts[item] ==> counts[item][week] == multiset(weeks)[week])
    decreases |purchases|
  {
    if purchases != [] {
      WeekCountsCount(purchases[..|purchases| - 1], item, week);
    }
  }

  /** The score `calculateRegularityScore` gives a set of purchase weeks:
      0 with fewer than two weeks; otherwise the number of weeks over one
      plus the variance of the gaps between consecutive weeks. */
  ghost function RegularityScore(weeks: set<int>): real {
    if |weeks| <= 1 then 0.0
    else
      AscendingOnce(weeks);
      Score(Ascending(weeks))
  }

  /** No score without two weeks; otherwise a positive score of at most
      the number of weeks, reached exactly when the weeks, taken in order
      from the first to the last, are evenly spaced. */
  lemma RegularityScoreBounds(weeks: set<int>)
    ensures |weeks| <= 1 ==> RegularityScore(weeks) == 0.0
    ensures |weeks| >= 2 ==>
              && 0.0 < RegularityScore(weeks) <= |weeks| as real
              && (RegularityScore(weeks) == |weeks| as real <==> EvenlySpaced(Ascending(weeks)))
              && Ascending(weeks)[0] == SetMin(weeks) && Ascending(weeks)[|weeks| - 1] == SetMax(weeks)
  {
    if |weeks| >= 2 {
      AscendingSpan(weeks);
      ScoreBounds(Ascending(weeks));
    }
  }

  /** `keySet().toArray`: the keys, each once, in some order. */
  method KeysOf(weekFrequency: map<int, int>) returns (keys: seq<int>)
    ensures Distinct(keys) && Elements(keys) == weekFrequency.Keys && |keys| == |weekFrequency.Keys|
  {
    keys := [];
    var pending := weekFrequency.Keys;
    while pending != {}
      invariant pending <= weekFrequency.Keys
      invariant Distinct(keys)
      invariant forall w :: w in keys <==> w in weekFrequency && w !in pending
      invariant |keys| + |pending| == |weekFrequency.Keys|
      decreases pending
    {
      var week := Pick(pending);
      AppendDistinct(keys, week);
      keys := keys + [week];
      pending := pending - {week};
    }
    assert Elements(keys) == weekFrequency.Keys by {
      forall w ensures w in Elements(keys) <==> w in weekFrequency.Keys {
      }
    }
  }

  /** The first loop of `calculateRegularityScore`: the sum and the
      number of the gaps between consecutive weeks. */
  method SumIntervals(weeks: seq<int>) returns (sumIntervals: int, countIntervals: int)
    requires |weeks| >= 1
    ensures sumIntervals == weeks[|weeks| - 1] - weeks[0]
    ensures countIntervals == |weeks| - 1
  {
    sumIntervals := 0;
    countIntervals := 0;
    var prevWeek := weeks[0];
    for i := 1 to |weeks|
      invariant prevWeek == weeks[i - 1]
      invariant sumIntervals == weeks[i - 1] - weeks[0]
      invariant countIntervals == i - 1
    {
      var interval := weeks[i] - prevWeek;
      sumIntervals := sumIntervals + interval;
      countIntervals := countIntervals + 1;
      prevWeek := weeks[i];
    }
  }

  /** The second loop of `calculateRegularityScore`: the squared
      differences between each gap and the mean gap, added up. */
  method SumSquaredDiff(weeks: seq<int>, avgInterval: real) returns (sumSquaredDiff: real)
    requires |weeks| >= 1
    ensures sumSquaredDiff == SquaredDeviations(weeks, avgInterval)
  {
    sumSquaredDiff := 0.0;
    var prevWeek := weeks[0];
    for i := 1 to |weeks|
      invariant prevWeek == weeks[i - 1]
      invariant sumSquaredDiff == SquaredDeviations(weeks[..i], avgInterval)
    {
      var interval := weeks[i] - prevWeek;
      var diff := interval as real - avgInterval;
      assert weeks[..i + 1][..i] == weeks[..i];
      sumSquaredDiff := sumSquaredDiff + diff * diff;
      prevWeek := weeks[i];
    }
    assert weeks[..|weeks|] == weeks;
  }

  /** `calculateRegularityScore`: sorts the distinct weeks, takes the mean
      of the gaps between consecutive ones and their variance, and scales
      the number of weeks down by the variance. */
  method CalculateRegularityScore(weekFrequency: map<int, int>) returns (score: real)
    ensures score == RegularityScore(weekFrequency.Keys)
  {
    if |weekFrequency| <= 1 {
      return 0.0;
    }
    var keys := KeysOf(weekFrequency);
    var weeks := Sort(keys);
    SortedKeysAscend(keys, weeks, weekFrequency.Keys);
    var sumIntervals, countIntervals := SumIntervals(weeks);
    if countIntervals == 0 {
      // The `countIntervals == 0` fallback never runs: there are at least two weeks.
      assert false;
    }
    var avgInterval := sumIntervals as real / countIntervals as real;
    assert avgInterval == MeanGap(weeks);
    var sumSquaredDiff := SumSquaredDiff(weeks, avgInterval);
    SquaredDeviationsZero(weeks, avgInterval);
    Divided(sumSquaredDiff, countIntervals as real);
    var variance := sumSquaredDiff / countIntervals as real;
    assert variance == Variance(weeks);
    assert |weeks| == |weekFrequency|;
    score := Damped(|weekFrequency|, variance);
  }

  /** The count update of `identifyTimeSensitiveItems` for one accepted
      line: one more purchase of its item in its week. */
  method CountPurchase(counts: map<string, map<int, int>>, ghost counted: seq<Ledger.Purchase>, p: Ledger.Purchase)
    returns (updated: map<string, map<int, int>>)
    requires counts == WeekCounts(counted)
    ensures updated == WeekCounts(counted + [p])
  {
    assert (counted + [p])[..|counted|] == counted;
    var weekFreq := GetOr(counts, p.item, map[]);
    updated := counts[p.item := weekFreq[p.week := GetOr(weekFreq, p.week, 0) + 1]];
  }

  /** `identifyTimeSensitiveItems`: counts the accepted purchases per item
      and week, then rates each item's weeks. */
  method IdentifyTimeSensitiveItems(lines: seq<string>) returns (timeSensitiveScores: map<string, real>)
    ensures timeSensitiveScores.Keys == WeekCounts(Purchases(lines)).Keys
    ensures forall item :: item in timeSensitiveScores ==>
              timeSensitiveScores[item] == RegularityScore(WeekCounts(Purchases(lines))[item].Keys)
  {
    ghost var parsed := Parsed(lines);
    ghost var counted: seq<Ledger.Purchase> := [];
    var itemWeekFrequency: map<string, map<int, int>> := map[];
    var isHeader := true;
    var i := 0;
    while i < |lines|
      invariant 0 <= i <= |lines|
      invariant isHeader <==> i == 0
      invariant counted == Present(parsed[..i])
      invariant itemWeekFrequency == WeekCounts(counted)
    {
      var line := lines[i];
      var record := None;
      if isHeader {
        isHeader := false;
      } else {
        record := ParseLine(line);
      }
      PurchasesStep(lines, i, record);
      if record.Some? {
        itemWeekFrequency := CountPurchase(itemWeekFrequency, counted, record.value);
        counted := counted + [record.value];
      }
      i := i + 1;
    }
    assert parsed[..i] == parsed;
    timeSensitiveScores := map[];
    var pending := itemWeekFrequency.Keys;
    while pending != {}
      invariant pending <= itemWeekFrequency.Keys
      invariant timeSensitiveScores.Keys == itemWeekFrequency.Keys - pending
      invariant forall item :: item in timeSensitiveScores ==>
                  timeSensitiveScores[item] == RegularityScore(itemWeekFrequency[item].Keys)
      decreases pending
    {
      var item := Pick(pending);
      var regularityScore := CalculateRegularityScore(itemWeekFrequency[item]);
      timeSensitiveScores := timeSensitiveScores[item := regularityScore];
      pending := pending - {item};
    }
  }
}
