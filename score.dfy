/** `ScoreComponent`: the running total of the values of captured specimens. */
module Score {
  import Specimens

  /** The sum of a sequence of values, first to last. */
  function Sum(s: seq<int>): int {
    if s == [] then 0 else s[0] + Sum(s[1..])
  }

  /** Adding one more value at the end adds it to the sum. */
  lemma {:induction false} SumAppend(s: seq<int>, x: int)
    ensures Sum(s + [x]) == Sum(s) + x
  {
    if s != [] {
      assert (s + [x])[1..] == s[1..] + [x];
      SumAppend(s[1..], x);
    }
  }

  /** The sum of positive values is at least the number of values. */
  lemma {:induction false} SumOfPositives(s: seq<int>)
    requires forall i :: 0 <= i < |s| ==> s[i] >= 1
    ensures Sum(s) >= |s|
  {
    if s != [] {
      SumOfPositives(s[1..]);
    }
  }

  class ScoreComponent {
    /** Set by every bump; the UI clears it. */
    var updated: bool
    var value: int
    /** The values of the specimens bumped so far, in order. */
    ghost var bumps: seq<int>

    ghost predicate Valid()
      reads this
    {
      value == Sum(bumps)
    }

    constructor()
      ensures Valid() && !updated && value == 0 && bumps == []
    {
      updated := false;
      value := 0;
      bumps := [];
    }

    /** `bump(specimen)`: adds the specimen's value; the specimen itself is not touched. */
    method Bump(specimen: Specimens.SpecimenComponent)
      requires Valid()
      modifies this
      ensures Valid() && updated
      ensures value == old(value) + specimen.value
      ensures bumps == old(bumps) + [specimen.value]
    {
      updated := true;
      value := value + specimen.value;
      SumAppend(bumps, specimen.value);
      bumps := bumps + [specimen.value];
    }
  }
}
