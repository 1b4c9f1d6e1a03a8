/** The mean of a sample, and the deviations from it. */
module Means {
  import opened Sums

  function Mean(values: seq<real>): real
    requires values != []
  {
    Sum(values) / |values| as real
  }

  /** Each value less the mean of them all. */
  function Deviations(values: seq<real>): (d: seq<real>)
    requires values != []
    ensures |d| == |values|
  {
    seq(|values|, i requires 0 <= i < |values| => values[i] - Mean(values))
  }

  /** All values are the same. */
  ghost predicate Constant(values: seq<real>) {
    forall i, j :: 0 <= i < j < |values| ==> values[i] == values[j]
  }

  lemma MeanOfConstant(values: seq<real>)
    requires values != [] && Constant(values)
    ensures Mean(values) == values[0]
  {
    hide Sum;
    SumConstant(values, values[0]);
    TimesOver(values[0], |values| as real);
  }

  lemma TimesOver(v: real, n: real)
    requires n > 0.0
    ensures Times(v, n) / n == v
  {
  }

  /** Deviations vanish exactly for a constant series. */
  lemma DeviationsVanish(values: seq<real>)
    requires |values| >= 2
    ensures (forall i :: 0 <= i < |values| ==> Deviations(values)[i] == 0.0) <==> Constant(values)
  {
    hide Mean;
    if forall i :: 0 <= i < |values| ==> Deviations(values)[i] == 0.0 {
      forall i | 0 <= i < |values| ensures values[i] == Mean(values) {
        assert Deviations(values)[i] == 0.0;
      }
    }
    if Constant(values) {
      MeanOfConstant(values);
    }
  }
}
