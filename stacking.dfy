/** The stack layout of the chart (d3.stack with the default order and
    offset): one series per stack key, one interval per row, each row's
    intervals laid end to end from 0 in key order. */
module Stacking {
  import opened Records
  import opened Aggregation

  /** One stacked segment: [low, high] and the row it belongs to. */
  datatype Interval = Interval(low: int, high: int, data: Row)

  /** The segments of one stack key, one per row in row order. */
  datatype Series = Series(key: string, points: seq<Interval>)

  /** The value accessor `d[key].amount` finds a cell for every key in every row. */
  predicate Dense(rows: seq<Row>, keys: seq<string>)
  {
    forall j, m :: 0 <= j < |rows| && 0 <= m < |keys| ==> keys[m] in rows[j].cells
  }

  /** The running offset of a row after its first `m` keys: the sum of their cell amounts. */
  function Offset(row: Row, keys: seq<string>, m: nat): int
    requires m <= |keys|
  {
    TallyOver(LookupFn(row.cells), keys[..m]).amount
  }

  /** The stacked-bar layout: a series per key in key order, and in series `m`
      an interval per row spanning that row's offsets before and after key `m`. */
  ghost predicate IsStackLayout(series: seq<Series>, rows: seq<Row>, keys: seq<string>)
  {
    && |series| == |keys|
    && forall m :: 0 <= m < |keys| ==>
         && series[m].key == keys[m]
         && |series[m].points| == |rows|
         && forall j :: 0 <= j < |rows| ==>
              series[m].points[j] == Interval(Offset(rows[j], keys, m), Offset(rows[j], keys, m + 1), rows[j])
  }

  /** One more key moves a row's offset up by that key's cell amount. */
  lemma OffsetStep(row: Row, keys: seq<string>, m: nat)
    requires m < |keys| && keys[m] in row.cells
    ensures Offset(row, keys, m + 1) == Offset(row, keys, m) + row.cells[keys[m]].amount
  {
    PrefixStep(LookupFn(row.cells), keys, m);
  }

  /** d3.stack: for each key, an interval per row whose low is the previous key's
      high for that row (0 for the first key) and whose high adds the cell amount. */
  method Stack(rows: seq<Row>, keys: seq<string>) returns (series: seq<Series>)
    requires Dense(rows, keys)
    ensures IsStackLayout(series, rows, keys)
  {
    series := [];
    var i := 0;
    while i < |keys|
      invariant 0 <= i <= |keys|
      invariant |series| == i
      invariant forall m :: 0 <= m < i ==>
                  && series[m].key == keys[m]
                  && |series[m].points| == |rows|
                  && forall j :: 0 <= j < |rows| ==>
                       series[m].points[j] == Interval(Offset(rows[j], keys, m), Offset(rows[j], keys, m + 1), rows[j])
    {
      var key := keys[i];
      var points: seq<Interval> := [];
      var j := 0;
      while j < |rows|
        invariant 0 <= j <= |rows|
        invariant |points| == j
        invariant forall n :: 0 <= n < j ==>
                    points[n] == Interval(Offset(rows[n], keys, i), Offset(rows[n], keys, i + 1), rows[n])
      {
        var low := if i == 0 then 0 else series[i - 1].points[j].high;
        OffsetStep(rows[j], keys, i);
        points := points + [Interval(low, low + rows[j].cells[key].amount, rows[j])];
        j := j + 1;
      }
      series := series + [Series(key, points)];
      i := i + 1;
    }
  }

  /** What the layout promises at interval `m` of row `j`: the first interval starts
      at 0, its height is the key's cell amount, the next interval starts where it
      ends, its top, the value its label shows, is the running sum up to key `m`,
      and it belongs to row `j`. */
  lemma StackLayoutAt(series: seq<Series>, rows: seq<Row>, keys: seq<string>, m: nat, j: nat)
    requires IsStackLayout(series, rows, keys) && Dense(rows, keys)
    requires m < |keys| && j < |rows|
    ensures m == 0 ==> series[m].points[j].low == 0
    ensures series[m].points[j].high - series[m].points[j].low == rows[j].cells[keys[m]].amount
    ensures m + 1 < |keys| ==> series[m + 1].points[j].low == series[m].points[j].high
    ensures series[m].points[j].high == TallyOver(LookupFn(rows[j].cells), keys[..m + 1]).amount
    ensures series[m].points[j].data == rows[j]
  {
    OffsetStep(rows[j], keys, m);
  }

  /** Aggregated rows have every requested key, so they can be stacked. */
  lemma AggregatedIsDense(data: seq<Rec>, keys: seq<string>)
    ensures Dense(Aggregated(data, keys).rows, keys)
  {
    var rows := Aggregated(data, keys).rows;
    forall j, m | 0 <= j < |rows| && 0 <= m < |keys|
      ensures keys[m] in rows[j].cells
    {
      CellsOverDense(CellFn(data, rows[j].gender), keys, keys[m]);
    }
  }

  /** Over aggregated rows, the last interval of every bar ends at the row's TotalPurchase. */
  lemma StackTopIsTotal(series: seq<Series>, data: seq<Rec>, keys: seq<string>, j: nat)
    requires IsStackLayout(series, Aggregated(data, keys).rows, keys)
    requires 0 < |keys| && j < |Aggregated(data, keys).rows|
    ensures series[|keys| - 1].points[j].high == Aggregated(data, keys).rows[j].totalPurchase
  {
    var rows := Aggregated(data, keys).rows;
    assert keys[..|keys|] == keys;
    RowTotalsAreCellSums(data, rows[j].gender, keys);
  }

  /** The top of the value axis before headroom: the largest TotalPurchase of the rows. */
  function MaxTotalPurchase(rows: seq<Row>): (top: int)
    requires |rows| > 0
    ensures forall j :: 0 <= j < |rows| ==> rows[j].totalPurchase <= top
    ensures exists j :: 0 <= j < |rows| && rows[j].totalPurchase == top
  {
    if |rows| == 1 then rows[0].totalPurchase
    else
      var rest := MaxTotalPurchase(rows[1..]);
      assert forall j :: 1 <= j < |rows| ==> rows[j] == rows[1..][j - 1];
      if rows[0].totalPurchase >= rest then rows[0].totalPurchase else rest
  }
}
