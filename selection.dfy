/** The filter controller and one render pass: from the stored records and the
    radio-button selection to either a "no data" outcome or the aggregated rows
    with their stack layout. */
module Selection {
  import opened Seqs
  import opened AgeGroups
  import opened Records
  import opened Aggregation
  import opened Stacking

  /** The selection that shows every bracket as one segment. */
  const All: string := "All"

  /** The synthetic key every record is given under "All". */
  const TotalKey: string := "Total"

  /** The working subset and the stack keys of a selection. */
  datatype Selected = Selected(subset: seq<Rec>, keys: seq<string>)

  /** A fresh copy of the record whose bracket reads "Total". */
  function WithTotal(r: Rec): Rec
  {
    r.(ageGroup := TotalKey)
  }

  function SetTotal(records: seq<Rec>): seq<Rec>
  {
    seq(|records|, i requires 0 <= i < |records| => WithTotal(records[i]))
  }

  function GroupP(selection: string): Rec -> bool
  {
    (r: Rec) => r.ageGroup == selection
  }

  /** Under "All" every record is kept in order with only its bracket changed to
      "Total" and the keys are ["Total"]; under any other selection exactly the
      records of that bracket are kept and the keys are [selection]. */
  function SelectData(records: seq<Rec>, selection: string): (chosen: Selected)
    ensures selection == All ==>
              && |chosen.subset| == |records|
              && forall i :: 0 <= i < |records| ==>
                   && chosen.subset[i].ageGroup == TotalKey
                   && chosen.subset[i].location == records[i].location
                   && chosen.subset[i].gender == records[i].gender
                   && chosen.subset[i].age == records[i].age
                   && chosen.subset[i].purchaseAmount == records[i].purchaseAmount
    ensures selection != All ==> forall r :: r in chosen.subset ==> r in records && r.ageGroup == selection
    ensures selection != All ==> forall r :: r in records && r.ageGroup == selection ==> r in chosen.subset
    ensures |chosen.subset| <= |records|
    ensures chosen.keys == [if selection == All then TotalKey else selection]
  {
    if selection == All then Selected(SetTotal(records), [TotalKey])
    else
      var subset := Filter(GroupP(selection), records);
      forall r | r in subset || r in records
        ensures r in subset <==> r in records && r.ageGroup == selection
      {
        FilterMembership(GroupP(selection), records, r);
      }
      Selected(subset, [selection])
  }

  /** Selection respects concatenation, so the subset keeps the records' order. */
  lemma SelectAppend(a: seq<Rec>, b: seq<Rec>, selection: string)
    ensures SelectData(a + b, selection).subset == SelectData(a, selection).subset + SelectData(b, selection).subset
  {
    if selection == All {
      assert SetTotal(a + b) == SetTotal(a) + SetTotal(b);
    } else {
      FilterAppend(GroupP(selection), a, b);
    }
  }

  /** A single record is kept once, unchanged, exactly when it is of the selected
      bracket; with SelectAppend this fixes the subset's order and multiplicity. */
  lemma SelectSingle(r: Rec, selection: string)
    requires selection != All
    ensures SelectData([r], selection).subset == if r.ageGroup == selection then [r] else []
  {
    FilterSnoc(GroupP(selection), [], r);
    assert [] + [r] == [r];
  }

  /** Outside "All", each record of the selected bracket is kept exactly as often as it
      occurs among the records, and no other record is kept. */
  lemma {:induction false} SelectMultiplicity(records: seq<Rec>, selection: string, r: Rec)
    requires selection != All
    ensures multiset(SelectData(records, selection).subset)[r] ==
              if r.ageGroup == selection then multiset(records)[r] else 0
  {
    if |records| > 0 {
      var init, d := records[..|records| - 1], records[|records| - 1];
      assert records == init + [d];
      SelectMultiplicity(init, selection, r);
      SelectAppend(init, [d], selection);
      SelectSingle(d, selection);
    }
  }

  /** What one selection event produces. */
  datatype Outcome = NoData(selection: string) | Chart(processed: Processed, stacked: seq<Series>)

  /** Relabelling every record "Total" keeps each gender's amount sum and count. */
  lemma {:induction false} SetTotalKeepsGenderSums(records: seq<Rec>, g: string)
    ensures Summary(OfGender(SetTotal(records), g)) == Summary(OfGender(records, g))
  {
    if |records| > 0 {
      var init, d := records[..|records| - 1], records[|records| - 1];
      assert records == init + [d];
      assert SetTotal(records) == SetTotal(init) + [WithTotal(d)];
      SetTotalKeepsGenderSums(init, g);
      OfGenderSnoc(init, d, g);
      OfGenderSnoc(SetTotal(init), WithTotal(d), g);
    }
  }

  /** Relabelling keeps the gender column, hence the gender axis. */
  lemma SetTotalKeepsGenders(records: seq<Rec>)
    ensures Genders(SetTotal(records)) == Genders(records)
  {
    assert GenderColumn(SetTotal(records)) == GenderColumn(records);
  }

  /** Under "All" the gender axis is that of the records, and each gender's
      TotalPurchase and TotalCount are its full amount sum and record count. */
  lemma AllTotals(records: seq<Rec>)
    ensures var p := Aggregated(SetTotal(records), [TotalKey]);
      && p.genders == Genders(records)
      && forall i :: 0 <= i < |p.rows| ==>
           && p.rows[i].totalPurchase == SumAmount(OfGender(records, p.genders[i]))
           && p.rows[i].totalCount == |OfGender(records, p.genders[i])|
  {
    var sub := SetTotal(records);
    var p := Aggregated(sub, [TotalKey]);
    SetTotalKeepsGenders(records);
    forall i | 0 <= i < |p.rows|
      ensures p.rows[i].totalPurchase == SumAmount(OfGender(records, p.genders[i]))
      ensures p.rows[i].totalCount == |OfGender(records, p.genders[i])|
    {
      var g := p.genders[i];
      forall r | r in sub && r.gender == g
        ensures r.ageGroup in [TotalKey]
      {
      }
      PartitionTotals(sub, g, [TotalKey]);
      SetTotalKeepsGenderSums(records, g);
    }
  }

  /** The "All" collapse: for stored records, whose brackets are all among the eight
      labels, the "All" view gives each gender the same totals as aggregating over
      the eight brackets and summing that row's cells. */
  lemma AllCollapse(records: seq<Rec>)
    requires forall r :: r in records ==> r.ageGroup in AgeGroupLabels
    ensures var a := Aggregated(SelectData(records, All).subset, SelectData(records, All).keys);
      var b := Aggregated(records, AgeGroupLabels);
      && a.genders == b.genders
      && |a.rows| == |b.rows|
      && forall i :: 0 <= i < |a.rows| ==>
           && a.rows[i].totalPurchase == TallyOver(LookupFn(b.rows[i].cells), AgeGroupLabels).amount
           && a.rows[i].totalCount == TallyOver(LookupFn(b.rows[i].cells), AgeGroupLabels).count
  {
    var a := Aggregated(SetTotal(records), [TotalKey]);
    var b := Aggregated(records, AgeGroupLabels);
    AllTotals(records);
    LabelsDistinct();
    forall i | 0 <= i < |a.rows|
      ensures a.rows[i].totalPurchase == TallyOver(LookupFn(b.rows[i].cells), AgeGroupLabels).amount
      ensures a.rows[i].totalCount == TallyOver(LookupFn(b.rows[i].cells), AgeGroupLabels).count
    {
      var g := a.genders[i];
      PartitionTotals(records, g, AgeGroupLabels);
      RowTotalsAreCellSums(records, g, AgeGroupLabels);
    }
  }

  /** One selection event: select, aggregate, and either stack the rows for the
      chart or report that the selection has no data. */
  method FilterAndRender(records: seq<Rec>, selection: string) returns (outcome: Outcome)
    ensures outcome.NoData? <==> |SelectData(records, selection).subset| == 0
    ensures outcome.NoData? ==> outcome.selection == selection
    ensures outcome.Chart? ==>
              && outcome.processed == Aggregated(SelectData(records, selection).subset, SelectData(records, selection).keys)
              && IsStackLayout(outcome.stacked, outcome.processed.rows, outcome.processed.stackKeys)
    ensures outcome.Chart? && selection == All ==>
              forall i :: 0 <= i < |outcome.processed.rows| ==>
                && outcome.processed.rows[i].totalPurchase == SumAmount(OfGender(records, outcome.processed.genders[i]))
                && outcome.processed.rows[i].totalCount == |OfGender(records, outcome.processed.genders[i])|
  {
    var chosen := SelectData(records, selection);
    var processedData := AggregateData(chosen.subset, chosen.keys);
    AggregatedEmpty(chosen.subset, chosen.keys);
    if |processedData.rows| > 0 {
      AggregatedIsDense(chosen.subset, chosen.keys);
      var stacked := Stack(processedData.rows, processedData.stackKeys);
      outcome := Chart(processedData, stacked);
      if selection == All {
        AllTotals(records);
      }
    } else {
      outcome := NoData(selection);
    }
  }
}
