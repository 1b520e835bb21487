/** Remainders with a variable modulus, as ring indices need them. */
module Modular {

  lemma MultipleSize(d: int, m: int)
    requires m > 0
    ensures d >= 1 ==> d * m >= m
    ensures d <= -1 ==> d * m <= -m
  {
  }

  lemma ModIs(x: int, q: int, r: int, m: int)
    requires m > 0 && 0 <= r < m && x == q * m + r
    ensures x % m == r
  {
    var d := q - x / m;
    assert x == x / m * m + x % m;
    assert d * m == x % m - r;
    MultipleSize(d, m);
  }

  /** Adding to a remainder, then reducing again. */
  lemma ModAdd(x: int, y: int, m: int)
    requires m > 0
    ensures (x % m + y) % m == (x + y) % m
  {
    var q, r := (x + y) / m, (x + y) % m;
    assert x == x / m * m + x % m && x + y == q * m + r;
    assert x % m + y == (q - x / m) * m + r by {
      assert (q - x / m) * m == q * m - x / m * m;
    }
    ModIs(x % m + y, q - x / m, r, m);
  }

  /** Reducing modulo a multiple first changes nothing. */
  lemma ModOfMultiple(x: int, big: int, m: int)
    requires m > 0 && big > 0 && big % m == 0
    ensures x % big % m == x % m
  {
    var k, q := big / m, x / big;
    assert big == k * m && x == q * big + x % big;
    var r, p := x % big % m, x % big / m;
    assert x % big == p * m + r;
    assert x == (q * k + p) * m + r by {
      assert (q * k + p) * m == q * (k * m) + p * m;
    }
    ModIs(x, q * k + p, r, m);
  }

  /** Distinct offsets below the modulus give distinct remainders. */
  lemma ModDistinct(x: int, i: int, j: int, m: int)
    requires m > 0 && 0 <= i < m && 0 <= j < m && (x + i) % m == (x + j) % m
    ensures i == j
  {
    var a, b := (x + i) / m, (x + j) / m;
    assert x + i == a * m + (x + i) % m && x + j == b * m + (x + j) % m;
    var d := a - b;
    assert i - j == d * m by {
      assert d * m == a * m - b * m;
    }
    MultipleSize(d, m);
  }
}
