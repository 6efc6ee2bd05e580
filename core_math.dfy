/** Helpers of djvCore/Math that the file group relies on. Math::wrap itself is
    not part of this model; Wrap below is the definition it is taken to have. */
module CoreMath {

  /** Math::wrap(v, lo, hi): `v` brought into [lo, hi] by adding or subtracting
      multiples of the range width; `lo` when the range is empty or a single value. */
  function Wrap(v: int, lo: int, hi: int): (r: int)
    ensures hi > lo ==> lo <= r <= hi
    ensures hi <= lo ==> r == lo
  {
    if hi > lo then lo + (v - lo) % (hi - lo + 1) else lo
  }

  /** A value already in range is left alone. */
  lemma WrapInRange(v: int, lo: int, hi: int)
    requires lo <= v <= hi
    ensures Wrap(v, lo, hi) == v
  {
    if hi > lo {
      var n := hi - lo + 1;
      assert 0 <= v - lo < n;
      assert (v - lo) % n == v - lo;
    }
  }

  /** Stepping one past the top wraps to the bottom, and one below the bottom to the top. */
  lemma WrapEnds(lo: int, hi: int)
    requires lo <= hi
    ensures Wrap(hi + 1, lo, hi) == lo
    ensures Wrap(lo - 1, lo, hi) == hi
  {
    if hi > lo {
      assert (hi + 1 - lo) % (hi - lo + 1) == 0;
      assert (lo - 1 - lo) % (hi - lo + 1) == hi - lo;
    }
  }

  function Max(a: int, b: int): (r: int)
    ensures r >= a && r >= b && (r == a || r == b)
  {
    if a >= b then a else b
  }
}
