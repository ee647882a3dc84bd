/**
  Ratings of songs: immutable values, 0 for "not rated yet" and 1 to 5 once rated.
*/
module Rates {

  const NoRate: int := 0
  const MinRate: int := 1
  const MaxRate: int := 5

  /** The stored value of a rating; building one outside 0..5 is a precondition violation. */
  type RateValue = v: int | 0 <= v <= 5

  /** A rating. It has no mutators: a new rating replaces an old one. */
  datatype Rate = Rate(value: RateValue)

  /** The default rating: not rated yet. */
  function Unrated(): (r: Rate)
    ensures r.value == NoRate
    ensures forall v :: MinRate <= v <= MaxRate ==> r != OfValue(v)
  {
    Rate(NoRate)
  }

  /** A rating with the given value, stored unchanged (no clamping). */
  function OfValue(v: int): (r: Rate)
    requires MinRate <= v <= MaxRate
    ensures r.value == v
    ensures NoRate < r.value
  {
    Rate(v)
  }

  /** The sign of `Integer.compare` on the stored values: -1, 0 or 1. */
  function Compare(a: Rate, b: Rate): (c: int)
    ensures c == -1 || c == 0 || c == 1
    ensures c < 0 <==> a.value < b.value
    ensures c == 0 <==> a.value == b.value
    ensures c > 0 <==> a.value > b.value
  {
    if a.value < b.value then -1 else if a.value == b.value then 0 else 1
  }

  /** Two ratings are equal exactly when their values are. */
  predicate EqualsRate(a: Rate, b: Rate)
    ensures EqualsRate(a, b) <==> a == b
  {
    Compare(a, b) == 0
  }

  /** `Compare` is a total order on ratings: antisymmetric, transitive and total. */
  lemma CompareIsTotalOrder(a: Rate, b: Rate, c: Rate)
    ensures Compare(a, b) == -Compare(b, a)
    ensures Compare(a, b) <= 0 && Compare(b, c) <= 0 ==> Compare(a, c) <= 0
    ensures Compare(a, b) <= 0 && Compare(b, a) <= 0 ==> a == b
    ensures Compare(a, b) <= 0 || Compare(b, a) <= 0
  {
  }
}
