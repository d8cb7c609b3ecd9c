/** Random draws supplied from outside.

    Every call to p5's `random()` is modelled by a real number `u` in [0, 1),
    passed in as a parameter. p5 computes `random(lo, hi)` as `lo + u * (hi - lo)`,
    `random(n)` as `u * n` and `random(list)` as `list[floor(u * |list|)]`. */
module Randomness {

  /** A value `random()` can return. */
  predicate IsUnit(u: real) {
    0.0 <= u < 1.0
  }

  predicate AllUnit(us: seq<real>) {
    forall k :: 0 <= k < |us| ==> IsUnit(us[k])
  }

  /** `random(n)` for a positive `n`: a value in [0, n). */
  function Scale(u: real, n: real): (r: real)
    requires IsUnit(u) && n > 0.0
    ensures 0.0 <= r < n
  {
    assert (1.0 - u) * n > 0.0;
    u * n
  }

  /** `random(lo, hi)`: a value in [lo, hi). */
  function RandomBetween(u: real, lo: real, hi: real): (r: real)
    requires IsUnit(u) && lo < hi
    ensures lo <= r < hi
  {
    lo + Scale(u, hi - lo)
  }

  /** `floor(random(lo, hi))`: an integer in the half-open range [lo, hi). */
  function FloorRandom(u: real, lo: int, hi: int): (r: int)
    requires IsUnit(u) && lo < hi
    ensures lo <= r < hi
  {
    var x := RandomBetween(u, lo as real, hi as real);
    assert x.Floor as real <= x;
    x.Floor
  }

  lemma AllUnitSuffix(us: seq<real>, k: int)
    requires AllUnit(us) && 0 <= k <= |us|
    ensures AllUnit(us[k..])
  {
    forall m | 0 <= m < |us[k..]|
      ensures IsUnit(us[k..][m])
    {
      assert us[k..][m] == us[k + m];
    }
  }
}
