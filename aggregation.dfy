/** The aggregation engine: group records by gender and then by bracket key
    (d3.rollup), and materialise one dense row per gender over the requested
    keys, zero-filling keys without records, with the row totals. */
module Aggregation {
  import opened Seqs
  import opened Records

  /** Summed purchase amount and number of records of one cell. */
  datatype Tally = Tally(amount: int, count: nat)

  function Plus(a: Tally, b: Tally): Tally
  {
    Tally(a.amount + b.amount, a.count + b.count)
  }

  const Zero: Tally := Tally(0, 0)

  /** The zero tally is the identity of `Plus`. */
  lemma PlusZero(x: Tally)
    ensures Plus(x, Zero) == x && Plus(Zero, x) == x
  {
  }

  /** One entry of the rollup's outer map: a gender and its key -> tally map. */
  datatype Group = Group(gender: string, series: map<string, Tally>)

  /** One aggregated row: a cell per stack key and the row totals. */
  datatype Row = Row(gender: string, cells: map<string, Tally>, totalPurchase: int, totalCount: nat)

  /** What the aggregation hands to the chart: rows, the stack keys and the gender axis. */
  datatype Processed = Processed(rows: seq<Row>, stackKeys: seq<string>, genders: seq<string>)

  /** The gender of every record, in record order. */
  function GenderColumn(data: seq<Rec>): seq<string>
  {
    seq(|data|, i requires 0 <= i < |data| => data[i].gender)
  }

  /** The outer key order of the rollup: genders by first appearance. */
  function Genders(data: seq<Rec>): seq<string>
  {
    Distinct(GenderColumn(data))
  }

  function MatchP(g: string, k: string): Rec -> bool
  {
    (r: Rec) => r.gender == g && r.ageGroup == k
  }

  function GenderP(g: string): Rec -> bool
  {
    (r: Rec) => r.gender == g
  }

  /** The records of gender `g` whose grouping field is `k`. */
  function Matching(data: seq<Rec>, g: string, k: string): seq<Rec>
  {
    Filter(MatchP(g, k), data)
  }

  /** The records of gender `g`. */
  function OfGender(data: seq<Rec>, g: string): seq<Rec>
  {
    Filter(GenderP(g), data)
  }

  function SumAmount(rs: seq<Rec>): int
  {
    if |rs| == 0 then 0 else SumAmount(rs[..|rs| - 1]) + rs[|rs| - 1].purchaseAmount
  }

  /** The rollup's reducer: amount sum and record count of a group. */
  function Summary(rs: seq<Rec>): Tally
  {
    Tally(SumAmount(rs), |rs|)
  }

  /** The tally the rollup holds for gender `g` and key `k`; Zero when no record matches. */
  function CellOf(data: seq<Rec>, g: string, k: string): Tally
  {
    Summary(Matching(data, g, k))
  }

  /** The inner keys the rollup creates for gender `g`: the grouping values present. */
  function GroupKeys(data: seq<Rec>, g: string): set<string>
  {
    set r | r in data && r.gender == g :: r.ageGroup
  }

  /** The inner map the rollup builds for gender `g`: every present key with its tally. */
  function SeriesOf(data: seq<Rec>, g: string): map<string, Tally>
  {
    map k | k in GroupKeys(data, g) :: CellOf(data, g, k)
  }

  /** d3.rollup(data, reducer, gender, ageGroup): genders in first-appearance
      order, each with its inner map. */
  function Rollup(data: seq<Rec>): (groups: seq<Group>)
    ensures |groups| == |Genders(data)|
    ensures forall i :: 0 <= i < |groups| ==> groups[i].gender == Genders(data)[i]
    ensures forall i, k :: 0 <= i < |groups| ==>
              (k in groups[i].series <==> exists r :: r in data && r.gender == groups[i].gender && r.ageGroup == k)
    ensures forall i, k :: 0 <= i < |groups| && k in groups[i].series ==>
              groups[i].series[k] == Summary(Matching(data, groups[i].gender, k))
  {
    var gs := Genders(data);
    seq(|gs|, i requires 0 <= i < |gs| => Group(gs[i], SeriesOf(data, gs[i])))
  }

  /** A lookup in an inner map with the zero tally as fallback. */
  function Lookup(series: map<string, Tally>, k: string): Tally
  {
    if k in series then series[k] else Zero
  }

  function LookupFn(series: map<string, Tally>): string -> Tally
  {
    (k: string) => Lookup(series, k)
  }

  function CellFn(data: seq<Rec>, g: string): string -> Tally
  {
    (k: string) => CellOf(data, g, k)
  }

  /** Sum of the per-key tallies over the keys, in key order (a repeated key counts again). */
  function TallyOver<K>(f: K -> Tally, keys: seq<K>): Tally
  {
    if |keys| == 0 then Zero
    else Plus(TallyOver(f, keys[..|keys| - 1]), f(keys[|keys| - 1]))
  }

  /** The cells after storing the tally of each key in turn. */
  function CellsOver<K>(f: K -> Tally, keys: seq<K>): map<K, Tally>
  {
    if |keys| == 0 then map[]
    else CellsOver(f, keys[..|keys| - 1])[keys[|keys| - 1] := f(keys[|keys| - 1])]
  }

  /** The totals of gender `g` over the keys. */
  function KeysTotal(data: seq<Rec>, g: string, keys: seq<string>): Tally
  {
    TallyOver(CellFn(data, g), keys)
  }

  /** Reference row of gender `g` over the keys, defined from the records. */
  function ExpectedRow(data: seq<Rec>, g: string, keys: seq<string>): Row
  {
    var t := KeysTotal(data, g, keys);
    Row(g, CellsOver(CellFn(data, g), keys), t.amount, t.count)
  }

  /** Reference result of aggregating `data` over `keys`. */
  function Aggregated(data: seq<Rec>, keys: seq<string>): Processed
  {
    var gs := Genders(data);
    Processed(seq(|gs|, i requires 0 <= i < |gs| => ExpectedRow(data, gs[i], keys)), keys, gs)
  }

  /** A key the rollup did not create for `g` has the zero tally. */
  lemma CellOfAbsent(data: seq<Rec>, g: string, k: string)
    requires k !in GroupKeys(data, g)
    ensures CellOf(data, g, k) == Zero
  {
    forall r | r in data
      ensures !MatchP(g, k)(r)
    {
      if r.gender == g {
        assert r.ageGroup in GroupKeys(data, g);
      }
    }
    FilterEmpty(MatchP(g, k), data);
  }

  /** Looking a key up in the rollup's inner map, zero as fallback, gives its tally. */
  lemma RollupLookup(data: seq<Rec>, g: string, k: string)
    ensures Lookup(SeriesOf(data, g), k) == CellOf(data, g, k)
  {
    if k !in GroupKeys(data, g) {
      CellOfAbsent(data, g, k);
    }
  }

  /** One more key: the cells and totals of the next prefix of the keys. */
  lemma PrefixStep<K>(f: K -> Tally, keys: seq<K>, j: nat)
    requires j < |keys|
    ensures CellsOver(f, keys[..j + 1]) == CellsOver(f, keys[..j])[keys[j] := f(keys[j])]
    ensures TallyOver(f, keys[..j + 1]) == Plus(TallyOver(f, keys[..j]), f(keys[j]))
  {
    assert keys[..j + 1][..j] == keys[..j];
  }

  /** One row of the aggregation: walk the keys in order, store each key's tally
      from the inner map (the zero tally when it has none) and accumulate the totals. */
  method BuildRow(gender: string, seriesMap: map<string, Tally>, keys: seq<string>) returns (row: Row)
    ensures row.gender == gender
    ensures row.cells == CellsOver(LookupFn(seriesMap), keys)
    ensures row.totalPurchase == TallyOver(LookupFn(seriesMap), keys).amount
    ensures row.totalCount == TallyOver(LookupFn(seriesMap), keys).count
  {
    var cells: map<string, Tally> := map[];
    var totalAmount: int, totalCount: nat := 0, 0;
    var j := 0;
    while j < |keys|
      invariant 0 <= j <= |keys|
      invariant cells == CellsOver(LookupFn(seriesMap), keys[..j])
      invariant totalAmount == TallyOver(LookupFn(seriesMap), keys[..j]).amount
      invariant totalCount == TallyOver(LookupFn(seriesMap), keys[..j]).count
    {
      var key := keys[j];
      var result := if key in seriesMap then seriesMap[key] else Zero;
      PrefixStep(LookupFn(seriesMap), keys, j);
      cells := cells[key := result];
      totalAmount := totalAmount + result.amount;
      totalCount := totalCount + result.count;
      j := j + 1;
    }
    assert keys[..j] == keys;
    row := Row(gender, cells, totalAmount, totalCount);
  }

  /** Two per-key functions that agree on the keys give the same cells and totals. */
  lemma {:induction false} OverPointwise<K>(f1: K -> Tally, f2: K -> Tally, keys: seq<K>)
    requires forall m :: 0 <= m < |keys| ==> f1(keys[m]) == f2(keys[m])
    ensures TallyOver(f1, keys) == TallyOver(f2, keys)
    ensures CellsOver(f1, keys) == CellsOver(f2, keys)
  {
    if |keys| > 0 {
      OverPointwise(f1, f2, keys[..|keys| - 1]);
    }
  }

  /** The row built from the rollup's inner map is the reference row. */
  lemma BuiltRowIsExpected(data: seq<Rec>, g: string, keys: seq<string>)
    ensures TallyOver(LookupFn(SeriesOf(data, g)), keys) == KeysTotal(data, g, keys)
    ensures CellsOver(LookupFn(SeriesOf(data, g)), keys) == ExpectedRow(data, g, keys).cells
  {
    forall m | 0 <= m < |keys|
      ensures LookupFn(SeriesOf(data, g))(keys[m]) == CellFn(data, g)(keys[m])
    {
      RollupLookup(data, g, keys[m]);
    }
    OverPointwise(LookupFn(SeriesOf(data, g)), CellFn(data, g), keys);
  }

  /** The aggregation: rollup, then one row per rollup entry, in the rollup's
      order, and the gender axis read off the rows. */
  method AggregateData(data: seq<Rec>, keys: seq<string>) returns (result: Processed)
    ensures result == Aggregated(data, keys)
  {
    var aggregatedMap := Rollup(data);
    var arrayData: seq<Row> := [];
    var i := 0;
    while i < |aggregatedMap|
      invariant 0 <= i <= |aggregatedMap|
      invariant |arrayData| == i
      invariant forall m :: 0 <= m < i ==> arrayData[m] == ExpectedRow(data, Genders(data)[m], keys)
    {
      var row := BuildRow(aggregatedMap[i].gender, aggregatedMap[i].series, keys);
      BuiltRowIsExpected(data, aggregatedMap[i].gender, keys);
      arrayData := arrayData + [row];
      i := i + 1;
    }
    var genders := seq(|arrayData|, m requires 0 <= m < |arrayData| => arrayData[m].gender);
    result := Processed(arrayData, keys, genders);
  }

  // ---- properties of the reference aggregation ----

  /** One row per distinct gender, each gender once, ordered by the position of
      its first record; the gender axis lists the row genders in row order;
      the stack keys are the requested keys unchanged. */
  lemma {:induction false} AggregatedShape(data: seq<Rec>, keys: seq<string>)
    ensures var p := Aggregated(data, keys);
      && p.stackKeys == keys
      && |p.rows| == |p.genders|
      && (forall i :: 0 <= i < |p.rows| ==> p.rows[i].gender == p.genders[i])
      && (forall g :: g in p.genders <==> exists r :: r in data && r.gender == g)
      && NoDuplicates(p.genders)
      && (forall i, j :: 0 <= i < j < |p.genders| ==>
            FirstIndex(GenderColumn(data), p.genders[i]) < FirstIndex(GenderColumn(data), p.genders[j]))
  {
    var gc := GenderColumn(data);
    DistinctFirstAppearance(gc);
    forall g
      ensures g in Genders(data) <==> exists r :: r in data && r.gender == g
    {
      if g in Genders(data) {
        var i :| 0 <= i < |gc| && gc[i] == g;
        assert data[i] in data;
      }
      if r :| r in data && r.gender == g {
        var i :| 0 <= i < |data| && data[i] == r;
        assert gc[i] == g;
      }
    }
  }

  /** No records, no rows: the aggregation is empty exactly when the data is. */
  lemma AggregatedEmpty(data: seq<Rec>, keys: seq<string>)
    ensures |Aggregated(data, keys).rows| == 0 <==> |data| == 0
  {
    if |data| > 0 {
      assert GenderColumn(data)[0] in GenderColumn(data);
    }
  }

  /** Density: every row has a cell for exactly the requested keys, holding that
      key's tally for the row's gender, and the zero tally when no record of
      that gender has the key. */
  lemma AggregatedDense(data: seq<Rec>, keys: seq<string>, i: nat, k: string)
    requires i < |Aggregated(data, keys).rows|
    ensures var row := Aggregated(data, keys).rows[i];
      && (k in row.cells <==> k in keys)
      && (k in keys ==> row.cells[k] == Summary(Matching(data, row.gender, k)))
      && (k in keys && (forall r :: r in data && r.gender == row.gender ==> r.ageGroup != k) ==>
            row.cells[k] == Zero)
  {
    var row := Aggregated(data, keys).rows[i];
    CellsOverDense(CellFn(data, row.gender), keys, k);
    if forall r :: r in data && r.gender == row.gender ==> r.ageGroup != k {
      CellOfAbsent(data, row.gender, k);
    }
  }

  /** Storing the keys in turn leaves exactly one cell per key, holding its tally. */
  lemma {:induction false} CellsOverDense<K>(f: K -> Tally, keys: seq<K>, k: K)
    ensures k in CellsOver(f, keys) <==> k in keys
    ensures k in keys ==> CellsOver(f, keys)[k] == f(k)
  {
    if |keys| > 0 {
      InInitOrLast(keys, k);
      CellsOverDense(f, keys[..|keys| - 1], k);
    }
  }

  /** TotalPurchase and TotalCount of a row are the sums of its own cells over the keys. */
  lemma RowTotalsAreCellSums(data: seq<Rec>, g: string, keys: seq<string>)
    ensures var row := ExpectedRow(data, g, keys);
      && (forall m :: 0 <= m < |keys| ==> keys[m] in row.cells)
      && row.totalPurchase == TallyOver(LookupFn(row.cells), keys).amount
      && row.totalCount == TallyOver(LookupFn(row.cells), keys).count
  {
    var cells := ExpectedRow(data, g, keys).cells;
    forall m | 0 <= m < |keys|
      ensures keys[m] in cells && LookupFn(cells)(keys[m]) == CellFn(data, g)(keys[m])
    {
      CellsOverDense(CellFn(data, g), keys, keys[m]);
    }
    OverPointwise(LookupFn(cells), CellFn(data, g), keys);
  }

  lemma SumAmountSnoc(rs: seq<Rec>, x: Rec)
    ensures SumAmount(rs + [x]) == SumAmount(rs) + x.purchaseAmount
  {
    assert (rs + [x])[..|rs|] == rs;
  }

  /** The contribution of one record to the tally of gender `g` and key `k`. */
  function Contribution(d: Rec, g: string, k: string): Tally
  {
    if d.gender == g && d.ageGroup == k then Tally(d.purchaseAmount, 1) else Zero
  }

  /** Filtering one more record on the right adds its amount and one to the summary exactly when it passes. */
  lemma SummarySnoc(p: Rec -> bool, s: seq<Rec>, d: Rec)
    ensures Summary(Filter(p, s + [d])) == Plus(Summary(Filter(p, s)), if p(d) then Tally(d.purchaseAmount, 1) else Zero)
  {
    var before, after := Filter(p, s), Filter(p, s + [d]);
    FilterSnoc(p, s, d);
    if p(d) {
      assert after == before + [d];
      SumAmountSnoc(before, d);
      assert Summary(after) == Plus(Summary(before), Tally(d.purchaseAmount, 1));
    } else {
      assert after == before;
      assert Summary(after) == Plus(Summary(before), Zero);
    }
  }

  /** Adding a record on the right changes a tally only when the record matches it. */
  lemma CellSnoc(data: seq<Rec>, d: Rec, g: string, k: string)
    ensures CellOf(data + [d], g, k) == Plus(CellOf(data, g, k), Contribution(d, g, k))
  {
    SummarySnoc(MatchP(g, k), data, d);
    assert MatchP(g, k)(d) == (d.gender == g && d.ageGroup == k);
  }

  lemma OfGenderSnoc(data: seq<Rec>, d: Rec, g: string)
    ensures Summary(OfGender(data + [d], g)) ==
              Plus(Summary(OfGender(data, g)), if d.gender == g then Tally(d.purchaseAmount, 1) else Zero)
  {
    SummarySnoc(GenderP(g), data, d);
    assert GenderP(g)(d) == (d.gender == g);
  }

  /** Over distinct keys, raising one key's tally by `t` raises the total by `t` when that key is present. */
  lemma {:induction false} TallyOverBump<K>(f1: K -> Tally, f2: K -> Tally, keys: seq<K>, a: K, t: Tally)
    requires NoDuplicates(keys)
    requires forall m :: 0 <= m < |keys| ==> f2(keys[m]) == Plus(f1(keys[m]), if keys[m] == a then t else Zero)
    ensures TallyOver(f2, keys) == Plus(TallyOver(f1, keys), if a in keys then t else Zero)
  {
    if |keys| == 0 {
      assert a !in keys;
      assert TallyOver(f1, keys) == Zero && TallyOver(f2, keys) == Zero;
      PlusZero(Zero);
    } else {
      var init, last := keys[..|keys| - 1], keys[|keys| - 1];
      NoDuplicatesInit(keys);
      forall m | 0 <= m < |init|
        ensures f2(init[m]) == Plus(f1(init[m]), if init[m] == a then t else Zero)
      {
        assert init[m] == keys[m];
      }
      TallyOverBump(f1, f2, init, a, t);
      InInitOrLast(keys, a);
      var p1, p2 := TallyOver(f1, init), TallyOver(f2, init);
      var u := if a in keys then t else Zero;
      assert TallyOver(f1, keys) == Plus(p1, f1(last));
      assert TallyOver(f2, keys) == Plus(p2, f2(last));
      if last == a {
        // the bump falls on the last key and on no earlier one
        assert p2 == Plus(p1, Zero) && f2(last) == Plus(f1(last), t) && u == t;
      } else if a in init {
        // the bump falls on an earlier key
        assert p2 == Plus(p1, t) && f2(last) == Plus(f1(last), Zero) && u == t;
      } else {
        assert p2 == Plus(p1, Zero) && f2(last) == Plus(f1(last), Zero) && u == Zero;
      }
      assert TallyOver(f2, keys).amount == TallyOver(f1, keys).amount + u.amount;
      assert TallyOver(f2, keys).count == TallyOver(f1, keys).count + u.count;
    }
  }

  /** A new record of gender `g` adds its amount and one to the totals exactly when its key is requested. */
  lemma KeysTotalSnoc(data: seq<Rec>, d: Rec, g: string, keys: seq<string>)
    requires NoDuplicates(keys)
    ensures KeysTotal(data + [d], g, keys) ==
              Plus(KeysTotal(data, g, keys), if d.gender == g && d.ageGroup in keys then Tally(d.purchaseAmount, 1) else Zero)
  {
    var t := if d.gender == g then Tally(d.purchaseAmount, 1) else Zero;
    forall m | 0 <= m < |keys|
      ensures CellFn(data + [d], g)(keys[m]) == Plus(CellFn(data, g)(keys[m]), if keys[m] == d.ageGroup then t else Zero)
    {
      CellSnoc(data, d, g, keys[m]);
    }
    TallyOverBump(CellFn(data, g), CellFn(data + [d], g), keys, d.ageGroup, t);
  }

  /** A record whose key is not requested, or whose gender is another, leaves the row unchanged. */
  lemma RowIgnoresOutsideKeys(data: seq<Rec>, d: Rec, g: string, keys: seq<string>)
    requires d.gender != g || d.ageGroup !in keys
    ensures ExpectedRow(data + [d], g, keys) == ExpectedRow(data, g, keys)
  {
    forall m | 0 <= m < |keys|
      ensures CellFn(data + [d], g)(keys[m]) == CellFn(data, g)(keys[m])
    {
      CellSnoc(data, d, g, keys[m]);
    }
    OverPointwise(CellFn(data + [d], g), CellFn(data, g), keys);
  }

  /** A gender none of whose records has a requested key still gets a row, all of whose
      cells and both totals are zero. */
  lemma OutsideKeysRowIsZero(data: seq<Rec>, g: string, keys: seq<string>)
    requires forall r :: r in data && r.gender == g ==> r.ageGroup !in keys
    ensures var row := ExpectedRow(data, g, keys);
      && (forall m :: 0 <= m < |keys| ==> keys[m] in row.cells && row.cells[keys[m]] == Zero)
      && row.totalPurchase == 0 && row.totalCount == 0
  {
    forall m | 0 <= m < |keys|
      ensures CellFn(data, g)(keys[m]) == Zero
      ensures keys[m] in ExpectedRow(data, g, keys).cells && ExpectedRow(data, g, keys).cells[keys[m]] == Zero
    {
      assert keys[m] !in GroupKeys(data, g);
      CellOfAbsent(data, g, keys[m]);
      CellsOverDense(CellFn(data, g), keys, keys[m]);
    }
    TallyOverZeros(CellFn(data, g), keys);
  }

  lemma {:induction false} TallyOverZeros<K>(f: K -> Tally, keys: seq<K>)
    requires forall m :: 0 <= m < |keys| ==> f(keys[m]) == Zero
    ensures TallyOver(f, keys) == Zero
  {
    if |keys| > 0 {
      TallyOverZeros(f, keys[..|keys| - 1]);
    }
  }

  /** Over distinct keys that cover every bracket of gender `g`, the key totals are
      the gender's whole amount sum and record count. */
  lemma {:induction false} PartitionTotals(data: seq<Rec>, g: string, keys: seq<string>)
    requires NoDuplicates(keys)
    requires forall r :: r in data && r.gender == g ==> r.ageGroup in keys
    ensures KeysTotal(data, g, keys) == Summary(OfGender(data, g))
  {
    if |data| == 0 {
      TallyOverZeros(CellFn(data, g), keys);
    } else {
      var init, d := data[..|data| - 1], data[|data| - 1];
      assert data == init + [d];
      PartitionTotals(init, g, keys);
      KeysTotalSnoc(init, d, g, keys);
      OfGenderSnoc(init, d, g);
    }
  }
}
