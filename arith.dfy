/** Facts about integer division and remainder that the timers and the
    wheel's index arithmetic rely on. */
module Arith {

  /** Division with remainder is unique. */
  lemma DivisionUnique(x: int, m: int, q: int, r: int)
    requires m > 0 && 0 <= r < m && x == q * m + r
    ensures x / m == q && x % m == r
  {
    var q', r' := x / m, x % m;
    assert (q - q') * m == r' - r;
    if q > q' {
      MultipleAtLeast(q - q', m);
    } else if q < q' {
      MultipleAtLeast(q' - q, m);
    }
  }

  lemma MultipleAtLeast(k: int, m: int)
    requires k >= 1 && m > 0
    ensures k * m >= m
  {
  }

  /** A remainder by a multiple of `small` has the same remainder by `small`. */
  lemma RemainderOfRemainder(x: int, big: int, small: int, factor: int)
    requires small > 0 && factor > 0 && big == factor * small
    ensures (x % big) % small == x % small
    ensures (x % big) / small < factor
  {
    var inBig := x % big;
    var q := x / big;
    var hi := inBig / small;
    var lo := inBig % small;
    assert x == q * big + inBig;
    assert inBig == hi * small + lo;
    assert x == (q * factor + hi) * small + lo by {
      assert q * big == (q * factor) * small;
    }
    DivisionUnique(x, small, q * factor + hi, lo);
  }
}
