/** Customer transaction records and the preparation step that runs once at
    load time: derive each record's age bracket, then keep only the
    Massachusetts records. */
module Records {
  import opened Seqs
  import opened AgeGroups

  /** A row of the dataset after numeric parsing: location, gender, age and amount. */
  datatype RawRecord = RawRecord(location: string, gender: string, age: int, purchaseAmount: int)

  /** A stored record: a raw record plus its derived age bracket. */
  datatype Rec = Rec(location: string, gender: string, age: int, ageGroup: string, purchaseAmount: int)

  const Massachusetts: string := "Massachusetts"

  /** The per-row mapping: copy the fields and cache the age bracket. */
  function Prepare(raw: RawRecord): (r: Rec)
    ensures r.location == raw.location && r.gender == raw.gender
    ensures r.age == raw.age && r.purchaseAmount == raw.purchaseAmount
    ensures WellFormed(r) && r.ageGroup in AgeGroupLabels
  {
    Rec(raw.location, raw.gender, raw.age, GetAgeGroup(raw.age), raw.purchaseAmount)
  }

  function IsMassachusetts(r: Rec): bool
  {
    r.location == Massachusetts
  }

  /** Every record is prepared, in input order. */
  function PrepareAll(raws: seq<RawRecord>): seq<Rec>
  {
    seq(|raws|, i requires 0 <= i < |raws| => Prepare(raws[i]))
  }

  /** A record as the loader produces it: its bracket is the one its age falls in. */
  ghost predicate WellFormed(r: Rec)
  {
    r.ageGroup == GetAgeGroup(r.age)
  }

  /** The stored dataset: the prepared Massachusetts records, in input order. */
  function LoadRecords(raws: seq<RawRecord>): (stored: seq<Rec>)
    ensures forall r :: r in stored ==>
              r.location == Massachusetts && WellFormed(r) && r.ageGroup in AgeGroupLabels
    ensures forall raw :: raw in raws && raw.location == Massachusetts ==> Prepare(raw) in stored
    ensures forall r :: r in stored ==> exists raw :: raw in raws && r == Prepare(raw)
  {
    var prepared := PrepareAll(raws);
    forall r | r in Filter(IsMassachusetts, prepared)
      ensures r.location == Massachusetts && WellFormed(r) && r.ageGroup in AgeGroupLabels
    {
      FilterMembership(IsMassachusetts, prepared, r);
    }
    forall raw | raw in raws && raw.location == Massachusetts
      ensures Prepare(raw) in Filter(IsMassachusetts, prepared)
    {
      var i :| 0 <= i < |raws| && raws[i] == raw;
      assert prepared[i] == Prepare(raw);
      FilterMembership(IsMassachusetts, prepared, Prepare(raw));
    }
    forall r | r in Filter(IsMassachusetts, prepared)
      ensures exists raw :: raw in raws && r == Prepare(raw)
    {
      FilterMembership(IsMassachusetts, prepared, r);
      var i :| 0 <= i < |prepared| && prepared[i] == r;
      assert raws[i] in raws;
    }
    Filter(IsMassachusetts, prepared)
  }

  /** Loading respects concatenation: records keep their relative input order. */
  lemma LoadRecordsAppend(a: seq<RawRecord>, b: seq<RawRecord>)
    ensures LoadRecords(a + b) == LoadRecords(a) + LoadRecords(b)
  {
    assert PrepareAll(a + b) == PrepareAll(a) + PrepareAll(b);
    FilterAppend(IsMassachusetts, PrepareAll(a), PrepareAll(b));
  }

  /** A single row is stored, prepared, exactly when it is from Massachusetts. */
  lemma LoadRecordsSingle(raw: RawRecord)
    ensures LoadRecords([raw]) == if raw.location == Massachusetts then [Prepare(raw)] else []
  {
    assert PrepareAll([raw]) == [] + [Prepare(raw)];
    FilterSnoc(IsMassachusetts, [], Prepare(raw));
  }
}
