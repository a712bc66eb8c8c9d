/** `Math.floor` and `Math.ceil` applied to `Math.random() * n`, the draw both game selectors make.
    The random number is a parameter `u` with `0 <= u < 1`, the range `Math.random` guarantees. */
module JsMath {

  function Floor(x: real): int
  {
    x.Floor
  }

  function Ceil(x: real): int
  {
    if x == x.Floor as real then x.Floor else x.Floor + 1
  }

  /** `Math.ceil(Math.random() * n)`. */
  function CeilDraw(u: real, n: nat): int
  {
    Ceil(u * (n as real))
  }

  /** `Math.floor(Math.random() * n)`. */
  function FloorDraw(u: real, n: nat): int
  {
    Floor(u * (n as real))
  }

  lemma ScaledBelow(u: real, n: nat)
    requires 0.0 <= u < 1.0 && n > 0
    ensures 0.0 <= u * (n as real) < n as real
  {
    assert u * (n as real) < 1.0 * n as real;
  }

  /** `Math.floor(u * n)` is an index of a list of length `n > 0`. */
  lemma {:induction false} FloorScaledInRange(u: real, n: nat)
    requires 0.0 <= u < 1.0 && n > 0
    ensures 0 <= FloorDraw(u, n) < n
  {
    ScaledBelow(u, n);
  }

  /** `Math.ceil(u * n)` is a 1-based position in a list of length `n > 0`, except when `u` is 0. */
  lemma {:induction false} CeilScaledInRange(u: real, n: nat)
    requires 0.0 < u < 1.0 && n > 0
    ensures 1 <= CeilDraw(u, n) <= n
  {
    var x := u * (n as real);
    ScaledBelow(u, n);
    assert 0.0 < x < n as real;
    assert x.Floor as real <= x;
    assert x.Floor < n;
  }

  /** `Math.ceil(u * n)` is 0 when the draw is 0 or the list is empty. */
  lemma CeilScaledZero(u: real, n: nat)
    requires u == 0.0 || n == 0
    ensures CeilDraw(u, n) == 0
  {
    assert u * (n as real) == 0.0;
  }
}
