/** Looping over a dictionary in ascending key order. */
module Dictionaries {
  import opened Sums
  import opened Ordering

  /** The exact sum of a dictionary's values, taken in ascending key order. */
  method SumValues(m: map<Id, real>) returns (total: real)
    ensures total == MapSum(m)
  {
    hide MapSum;
    total := 0.0;
    var rest := m;
    EmptySum();
    while rest != map[]
      invariant total + MapSum(rest) == MapSum(m)
      decreases |rest|
    {
      var sec := Least(rest.Keys);
      MapSumRemove(rest, sec);
      total := total + rest[sec];
      rest := rest - {sec};
    }
  }

  lemma EmptySum()
    ensures MapSum<Id>(map[]) == 0.0
  {
  }
}
