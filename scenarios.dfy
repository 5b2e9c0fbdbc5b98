/** A three-record example: two women aged 25 and 65 spending 50 and 30 and a
    man aged 33 spending 20, all from Massachusetts, viewed under "All", under
    "21-30" and under "0-10". */
module Scenarios {
  import opened Seqs
  import opened AgeGroups
  import opened Records
  import opened Aggregation
  import opened Stacking
  import opened Selection

  /** The sample as read: the three Massachusetts rows and one row from another state. */
  const SampleRaws: seq<RawRecord> := [
    RawRecord(Massachusetts, "F", 25, 50),
    RawRecord("Texas", "M", 40, 70),
    RawRecord(Massachusetts, "F", 65, 30),
    RawRecord(Massachusetts, "M", 33, 20)]

  /** The sample as stored: the Massachusetts rows with their brackets. */
  const Sample: seq<Rec> := [
    Rec(Massachusetts, "F", 25, "21-30", 50),
    Rec(Massachusetts, "F", 65, "61-70", 30),
    Rec(Massachusetts, "M", 33, "31-40", 20)]

  /** The sample with every bracket relabelled "Total". */
  const SampleTotal: seq<Rec> := [
    Rec(Massachusetts, "F", 25, "Total", 50),
    Rec(Massachusetts, "F", 65, "Total", 30),
    Rec(Massachusetts, "M", 33, "Total", 20)]

  /** The rows of the "All" view. */
  const SampleAllRows: seq<Row> :=
    [Row("F", map[TotalKey := Tally(80, 2)], 80, 2), Row("M", map[TotalKey := Tally(20, 1)], 20, 1)]

  /** Filtering a three-element sequence, written out. */
  lemma FilterOfThree<T>(p: T -> bool, a: T, b: T, c: T)
    ensures Filter(p, [a, b, c]) == (if p(a) then [a] else []) + (if p(b) then [b] else []) + (if p(c) then [c] else [])
  {
    FilterSnoc(p, [], a);
    assert [] + [a] == [a];
    FilterSnoc(p, [a], b);
    assert [a] + [b] == [a, b];
    FilterSnoc(p, [a, b], c);
    assert [a, b] + [c] == [a, b, c];
  }

  /** Over a single key, a row holds that key's tally as its only cell and as its totals. */
  lemma SingleKeyRow(data: seq<Rec>, g: string, k: string)
    ensures var c := CellOf(data, g, k);
      ExpectedRow(data, g, [k]) == Row(g, map[k := c], c.amount, c.count)
  {
    var c := CellOf(data, g, k);
    assert [k][..0] == [];
    assert CellFn(data, g)(k) == c;
    assert CellsOver(CellFn(data, g), [k]) == map[][k := c];
    assert TallyOver(CellFn(data, g), [k]) == Plus(TallyOver(CellFn(data, g), []), c);
  }

  /** The raw rows prepared: the brackets are those of the ages 25, 40, 65 and 33. */
  lemma SamplePrepared()
    ensures PrepareAll(SampleRaws) ==
              [Sample[0], Prepare(SampleRaws[1]), Sample[1], Sample[2]]
  {
    assert GetAgeGroup(25) == "21-30" && GetAgeGroup(65) == "61-70" && GetAgeGroup(33) == "31-40";
  }

  /** Loading the raw rows stores exactly the sample: the Texas row is dropped. */
  lemma SampleIsLoaded()
    ensures LoadRecords(SampleRaws) == Sample
  {
    SampleFiltered();
  }

  /** The Massachusetts filter over the prepared rows keeps the first, third and fourth. */
  lemma SampleFiltered()
    ensures Filter(IsMassachusetts, PrepareAll(SampleRaws)) == Sample
  {
    var texas := Prepare(SampleRaws[1]);
    SamplePrepared();
    FilterOfFour(IsMassachusetts, Sample[0], texas, Sample[1], Sample[2]);
    assert !IsMassachusetts(texas);
    assert IsMassachusetts(Sample[0]) && IsMassachusetts(Sample[1]) && IsMassachusetts(Sample[2]);
    assert [Sample[0]] + [Sample[1]] + [Sample[2]] == Sample;
  }

  /** Filtering a four-element sequence, written out. */
  lemma FilterOfFour<T>(p: T -> bool, a: T, b: T, c: T, d: T)
    ensures Filter(p, [a, b, c, d]) ==
              (if p(a) then [a] else []) + (if p(b) then [b] else []) + (if p(c) then [c] else []) + (if p(d) then [d] else [])
  {
    FilterOfThree(p, a, b, c);
    FilterSnoc(p, [a, b, c], d);
    assert [a, b, c] + [d] == [a, b, c, d];
  }

  /** Under "All" the sample is relabelled and the keys are ["Total"]. */
  lemma SampleAllSubset()
    ensures SelectData(Sample, All) == Selected(SampleTotal, [TotalKey])
  {
  }

  /** Under "All" the women's row holds 80 over 2 records and the man's 20 over 1. */
  lemma SampleAllCell(g: string, amount: int, count: nat)
    requires (g == "F" && amount == 80 && count == 2) || (g == "M" && amount == 20 && count == 1)
    ensures ExpectedRow(SampleTotal, g, [TotalKey]) == Row(g, map[TotalKey := Tally(amount, count)], amount, count)
  {
    var s := SampleTotal;
    FilterOfThree(MatchP(g, TotalKey), s[0], s[1], s[2]);
    assert [s[0], s[1], s[2]] == s;
    if g == "F" {
      assert Matching(s, g, TotalKey) == [s[0], s[1]];
      assert [s[0], s[1]][..1] == [s[0]];
      assert [s[0]][..0] == [];
      assert SumAmount([s[0]]) == 50;
      assert SumAmount([s[0], s[1]]) == 80;
    } else {
      assert Matching(s, g, TotalKey) == [s[2]];
      assert [s[2]][..0] == [];
      assert SumAmount([s[2]]) == 20;
    }
    assert CellOf(s, g, TotalKey) == Tally(amount, count);
    SingleKeyRow(s, g, TotalKey);
  }

  /** The "All" view: genders F then M, with Total cells and totals 80/2 and 20/1. */
  lemma SampleAll()
    ensures var p := Aggregated(SelectData(Sample, All).subset, SelectData(Sample, All).keys);
      && p.genders == ["F", "M"]
      && p.rows == SampleAllRows
  {
    SampleAllSubset();
    assert GenderColumn(SampleTotal) == ["F", "F", "M"];
    assert Distinct(["F", "F", "M"]) == ["F", "M"];
    SampleAllCell("F", 80, 2);
    SampleAllCell("M", 20, 1);
  }

  /** The "21-30" view: only the 25-year-old woman remains, so M is not on the axis. */
  lemma SampleBracket()
    ensures var p := Aggregated(SelectData(Sample, "21-30").subset, SelectData(Sample, "21-30").keys);
      && SelectData(Sample, "21-30").subset == [Sample[0]]
      && p.genders == ["F"]
      && p.rows == [Row("F", map["21-30" := Tally(50, 1)], 50, 1)]
  {
    FilterOfThree(GroupP("21-30"), Sample[0], Sample[1], Sample[2]);
    assert [Sample[0], Sample[1], Sample[2]] == Sample;
    var sub := [Sample[0]];
    assert GenderColumn(sub) == ["F"];
    assert Distinct(["F"]) == ["F"];
    assert Matching(sub, "F", "21-30") == [sub[0]] by {
      assert sub[..0] == [];
    }
    assert SumAmount([sub[0]]) == 50 by {
      assert [sub[0]][..0] == [];
    }
    assert CellOf(sub, "F", "21-30") == Tally(50, 1);
    SingleKeyRow(sub, "F", "21-30");
  }

  /** The "All" view stacks to one interval per bar: [0, 80] for F and [0, 20] for M. */
  lemma SampleAllStack(series: seq<Series>)
    requires IsStackLayout(series, SampleAllRows, [TotalKey])
    ensures series[0].points[0].low == 0 && series[0].points[0].high == 80
    ensures series[0].points[1].low == 0 && series[0].points[1].high == 20
  {
    SampleAll();
    SampleAllSubset();
    AggregatedIsDense(SampleTotal, [TotalKey]);
    StackLayoutAt(series, SampleAllRows, [TotalKey], 0, 0);
    StackLayoutAt(series, SampleAllRows, [TotalKey], 0, 1);
  }

  /** A bracket nobody in the sample falls in selects nothing, so the render reports no data. */
  lemma SampleNoData()
    ensures SelectData(Sample, "0-10").subset == []
  {
    FilterOfThree(GroupP("0-10"), Sample[0], Sample[1], Sample[2]);
    assert [Sample[0], Sample[1], Sample[2]] == Sample;
  }
}
