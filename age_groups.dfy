/** The fixed age partition used to segment the bars: eight brackets with
    inclusive upper bounds 10, 20, ..., 70 and an open top bracket. */
module AgeGroups {

  /** The eight bracket labels, lowest first. */
  const AgeGroupLabels: seq<string> :=
    ["0-10", "11-20", "21-30", "31-40", "41-50", "51-60", "61-70", "71+"]

  /** The bracket of an age. Every age up to 10, negative ones included, falls in "0-10". */
  function GetAgeGroup(age: int): (group: string)
    ensures group in AgeGroupLabels
  {
    if age <= 10 then "0-10"
    else if age <= 20 then "11-20"
    else if age <= 30 then "21-30"
    else if age <= 40 then "31-40"
    else if age <= 50 then "41-50"
    else if age <= 60 then "51-60"
    else if age <= 70 then "61-70"
    else "71+"
  }

  /** Reference definition of the bracket position: tens of `age - 1`, clamped to 0..7. */
  function BracketIndex(age: int): (i: nat)
    ensures i < |AgeGroupLabels|
    ensures i == 0 || 10 * i < age
    ensures i == 7 || age <= 10 * (i + 1)
  {
    if age <= 10 then 0 else if age > 70 then 7 else (age - 1) / 10
  }

  /** The labels are pairwise different, so a label identifies its bracket. */
  lemma LabelsDistinct()
    ensures forall i, j :: 0 <= i < j < |AgeGroupLabels| ==> AgeGroupLabels[i] != AgeGroupLabels[j]
  {
  }

  /** The if-chain agrees with the arithmetic reference definition, and a label
      is produced exactly for the ages between its bracket's bounds, both inclusive. */
  lemma GetAgeGroupBounds(age: int, i: nat)
    requires i < |AgeGroupLabels|
    ensures GetAgeGroup(age) == AgeGroupLabels[BracketIndex(age)]
    ensures GetAgeGroup(age) == AgeGroupLabels[i] <==>
              (i == 0 || 10 * i < age) && (i == 7 || age <= 10 * (i + 1))
  {
    LabelsDistinct();
    var b := BracketIndex(age);
    assert GetAgeGroup(age) == AgeGroupLabels[b] by {
      if age <= 10 {
      } else if age <= 20 {
        assert b == 1;
      } else if age <= 30 {
        assert b == 2;
      } else if age <= 40 {
        assert b == 3;
      } else if age <= 50 {
        assert b == 4;
      } else if age <= 60 {
        assert b == 5;
      } else if age <= 70 {
        assert b == 6;
      }
    }
  }

  /** Older customers never land in a lower bracket. */
  lemma BracketMonotone(a: int, b: int)
    requires a <= b
    ensures BracketIndex(a) <= BracketIndex(b)
  {
  }

  /** The bracket edges: 10 and 11, 70 and 71, and a negative age. */
  lemma BracketEdges()
    ensures GetAgeGroup(10) == "0-10" && GetAgeGroup(11) == "11-20"
    ensures GetAgeGroup(70) == "61-70" && GetAgeGroup(71) == "71+"
    ensures GetAgeGroup(-5) == "0-10"
  {
  }
}
