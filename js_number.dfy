/** ECMAScript number operators whose meaning differs from Dafny's for
    negative operands: `%` truncates toward zero, `Math.sign`, `Math.abs`,
    `Math.min`/`Math.max`. Numbers that only take integral values in the
    components are modelled as `int`; pixel coordinates as `real`. */
module JsNumber {

  function Abs(x: int): (r: nat)
    ensures r == x || r == -x
  {
    if x < 0 then -x else x
  }

  function AbsReal(x: real): (r: real)
    ensures r >= 0.0 && (r == x || r == -x)
  {
    if x < 0.0 then -x else x
  }

  function MinReal(a: real, b: real): (r: real)
    ensures r <= a && r <= b && (r == a || r == b)
  {
    if a <= b then a else b
  }

  function MaxReal(a: real, b: real): (r: real)
    ensures r >= a && r >= b && (r == a || r == b)
  {
    if a >= b then a else b
  }

  /** `a % b` for a positive divisor (every divisor in the components is a
      non-empty list's length): the remainder has the sign of the dividend. */
  function Rem(a: int, b: int): (r: int)
    requires b > 0
    ensures -b < r < b
    ensures a >= 0 ==> r >= 0
    ensures a <= 0 ==> r <= 0
  {
    if a >= 0 then a % b else -((-a) % b)
  }

  /** `Math.sign` on an integral number. */
  function Sign(x: int): (r: int)
    ensures r == 0 <==> x == 0
    ensures r == 1 <==> x > 0
    ensures r == -1 <==> x < 0
  {
    if x > 0 then 1 else if x < 0 then -1 else 0
  }

  /** `Math.min(Math.max(x, lo), hi)`: when the bounds cross, `hi` wins. */
  function Clamp(x: int, lo: int, hi: int): (r: int)
    ensures r <= hi
    ensures lo <= hi ==> lo <= r
    ensures lo <= x <= hi ==> r == x
    ensures x < lo && lo <= hi ==> r == lo
    ensures x > hi ==> r == hi
  {
    var low := if x >= lo then x else lo;
    if low <= hi then low else hi
  }

  lemma MulAtLeast(m: int, k: int)
    requires m > 0 && k >= 1
    ensures m * k >= m
  {
    assert m * k == m * (k - 1) + m;
  }

  /** Euclidean division is unique: the quotient and remainder Dafny's `/` and
      `%` compute are the only ones with a remainder in [0, m). */
  lemma ModUnique(x: int, m: int, q: int, r: int)
    requires m > 0 && 0 <= r < m && x == m * q + r
    ensures x % m == r && x / m == q
  {
    var q', r' := x / m, x % m;
    assert x == m * q' + r';
    assert m * (q - q') == r' - r by {
      assert m * (q - q') == m * q - m * q';
    }
    if q > q' {
      MulAtLeast(m, q - q');
    } else if q < q' {
      MulAtLeast(m, q' - q);
    }
  }

  /** How the truncating remainder relates to Dafny's Euclidean one: they agree
      on non-negative dividends, and differ by exactly `b` on a negative dividend
      that `b` does not divide. */
  lemma RemVersusMod(a: int, b: int)
    requires b > 0
    ensures a >= 0 ==> Rem(a, b) == a % b
    ensures a < 0 && a % b == 0 ==> Rem(a, b) == 0
    ensures a < 0 && a % b != 0 ==> Rem(a, b) == a % b - b
  {
    if a < 0 {
      var q, r := (-a) / b, (-a) % b;
      if r == 0 {
        ModUnique(a, b, -q, 0);
      } else {
        ModUnique(a, b, -q - 1, b - r);
      }
    }
  }

  /** Two multiples of `m` differ by a multiple of `m`. */
  lemma ModSubtract(a: int, b: int, m: int)
    requires m > 0 && a % m == 0 && b % m == 0
    ensures (a - b) % m == 0
  {
    var p, q := a / m, b / m;
    assert a == m * p && b == m * q;
    assert a - b == m * (p - q);
    ModUnique(a - b, m, p - q, 0);
  }

  /** The only multiple of `m` strictly between `-m` and `m` is 0. */
  lemma SmallMultiple(y: int, m: int)
    requires m > 0 && y % m == 0 && -m < y < m
    ensures y == 0
  {
    var q := y / m;
    assert y == m * q;
    if q > 0 {
      MulAtLeast(m, q);
    } else if q < 0 {
      MulAtLeast(m, -q);
    }
  }
}
