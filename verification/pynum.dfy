/**
 * Python's numeric built-ins that the conversion scripts rely on, stated over
 * Dafny's exact `int` and `real`:
 *  - `int(x)` on a float truncates toward zero;
 *  - `a // b` floors and `a % b` takes the sign of `b`;
 *  - `round(x, 2)` gives the nearest hundredth.
 */
module PyNum {

  /** `int(x)`: the integer between 0 and `x` that is less than one away from `x`. */
  function Trunc(x: real): (r: int)
    ensures 0.0 <= x ==> 0 <= r && r as real <= x < r as real + 1.0
    ensures x < 0.0 ==> r <= 0 && r as real - 1.0 < x <= r as real
  {
    if x >= 0.0 then x.Floor else -((-x).Floor)
  }

  /** Python's `a // b`: the floor of the exact quotient. */
  function FloorDiv(a: int, b: int): (q: int)
    requires b != 0
    ensures 0 < b ==> q * b <= a < q * b + b
    ensures b < 0 ==> q * b + b < a <= q * b
  {
    if b > 0 then a / b else (-a) / (-b)
  }

  /** Python's `a % b`: what is left after `a // b`, carrying the sign of `b`. */
  function Mod(a: int, b: int): (r: int)
    requires b != 0
    ensures 0 < b ==> 0 <= r < b
    ensures b < 0 ==> b < r <= 0
  {
    a - FloorDiv(a, b) * b
  }

  /** `a % b == 0` in Python exactly when `|b|` divides `a`, whatever the signs. */
  lemma ModZeroIffDivides(a: int, b: int)
    requires b != 0
    ensures Mod(a, b) == 0 <==> a % Abs(b) == 0
  {
    if b > 0 {
      assert FloorDiv(a, b) == a / b;
      assert a == (a / b) * b + a % b;
    } else {
      var m := -b;
      var q := (-a) / m;
      assert FloorDiv(a, b) == q;
      assert -a == q * m + (-a) % m;
      assert Mod(a, b) == -((-a) % m);
      NegatedMultiple(a, m);
    }
  }

  /** A multiple of `m`, negated, is still a multiple of `m`. */
  lemma NegatedMultiple(x: int, m: int)
    requires m > 0
    ensures x % m == 0 <==> (-x) % m == 0
  {
    if x % m == 0 {
      var k := x / m;
      assert x == k * m;
      assert -x == (-k) * m;
      DivisibleByWitness(-x, m, -k);
    }
    if (-x) % m == 0 {
      var k := (-x) / m;
      assert -x == k * m;
      assert x == (-k) * m;
      DivisibleByWitness(x, m, -k);
    }
  }

  lemma DivisibleByWitness(x: int, m: int, k: int)
    requires m > 0 && x == k * m
    ensures x % m == 0
  {
    var q, r := x / m, x % m;
    assert (k - q) * m == r by {
      assert x == q * m + r;
      assert k * m - q * m == (k - q) * m;
    }
    SmallMultipleIsZero(k - q, m);
  }

  /** The only multiple of `m` in `[0, m)` is zero. */
  lemma SmallMultipleIsZero(d: int, m: int)
    requires m > 0 && 0 <= d * m < m
    ensures d * m == 0
  {
    if d >= 1 {
      MultipleAtLeast(d, m);
    } else if d <= -1 {
      MultipleAtLeast(-d, m);
    }
  }

  lemma {:induction false} MultipleAtLeast(d: int, m: int)
    requires d >= 1 && m > 0
    ensures d * m >= m
    decreases d
  {
    if d > 1 {
      MultipleAtLeast(d - 1, m);
      assert d * m == (d - 1) * m + m;
    }
  }

  /** Euclidean division is determined by any quotient and remainder that fit. */
  lemma DivUnique(a: int, b: int, q: int, r: int)
    requires b > 0 && a == q * b + r && 0 <= r < b
    ensures a / b == q && a % b == r
  {
    var d, m := a / b, a % b;
    assert (q - d) * b == m - r by {
      assert q * b + r == d * b + m;
      assert q * b - d * b == (q - d) * b;
    }
    if q - d >= 1 {
      MultipleAtLeast(q - d, b);
    } else if q - d <= -1 {
      MultipleAtLeast(d - q, b);
    }
  }

  function Abs(n: int): (m: nat)
    ensures m == n || m == -n
  {
    if n < 0 then -n else n
  }

  /** A real with at most two decimal digits. */
  predicate IsHundredths(x: real) {
    (x * 100.0).Floor as real == x * 100.0
  }

  /**
   * `round(x, 2)`: a nearest multiple of 0.01, so at most half a hundredth
   * away on either side. Python breaks an exact tie to the even neighbour
   * (on the binary value of the float); this model breaks it upward, which
   * is the last clause and the only one Python does not share.
   */
  function Round2(x: real): (r: real)
    ensures IsHundredths(r)
    ensures -0.005 <= r - x <= 0.005
    ensures r - x != -0.005
  {
    var n := (x * 100.0 + 0.5).Floor;
    assert (n as real / 100.0) * 100.0 == n as real;
    n as real / 100.0
  }
}
