/** The world's random source (`System.Random`), modelled as a nondeterministic
    choice constrained to the range each call documents. */
module Rand {

  /** `Random.Next(minValue, maxValue)`: a value in [minValue, maxValue), or
      `minValue` itself when the two bounds are equal. The library throws when
      `minValue > maxValue`; callers either require against that or model the
      exception explicitly. */
  method Next(minValue: int, maxValue: int) returns (v: int)
    requires minValue <= maxValue
    ensures minValue < maxValue ==> minValue <= v < maxValue
    ensures minValue == maxValue ==> v == minValue
  {
    if minValue == maxValue {
      v := minValue;
    } else {
      v :| minValue <= v < maxValue;
    }
  }

  /** `Random.Next(maxValue)`: a value in [0, maxValue), or 0 when `maxValue` is 0. */
  method NextBelow(maxValue: int) returns (v: int)
    requires maxValue >= 0
    ensures maxValue > 0 ==> 0 <= v < maxValue
    ensures maxValue == 0 ==> v == 0
  {
    v := Next(0, maxValue);
  }

  /** `order` lists 0..n-1, each exactly once. */
  predicate IsPermutation(order: seq<int>, n: nat) {
    |order| == n &&
    (forall i :: 0 <= i < n ==> 0 <= order[i] < n) &&
    (forall i, j :: 0 <= i < j < n ==> order[i] != order[j])
  }

  /** `list.OrderBy(p => rand.Next())`: some reordering of the n list positions. */
  method Shuffle(n: nat) returns (order: seq<int>)
    ensures IsPermutation(order, n)
  {
    var identity := seq(n, i => i);
    assert IsPermutation(identity, n);
    order :| IsPermutation(order, n);
  }
}
