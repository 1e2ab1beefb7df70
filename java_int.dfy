/**
 * Java's fixed-width integer arithmetic, written out over Dafny's unbounded integers:
 * two's-complement wrap-around of `int`, division and remainder that round toward zero,
 * and the saturating `double` to `int` conversion of `Double.intValue()`.
 */
module JavaInt {

  const MIN: int := -0x8000_0000
  const MAX: int := 0x7FFF_FFFF
  const MODULUS: int := 0x1_0000_0000

  /** The value fits a Java `int`. */
  predicate InRange(x: int)
  {
    MIN <= x <= MAX
  }

  /** What a Java `int` holds after an operation whose exact result is `x`. */
  function Wrap(x: int): (r: int)
    ensures InRange(r)
    ensures (x - r) % MODULUS == 0
    ensures InRange(x) ==> r == x
  {
    (x - MIN) % MODULUS + MIN
  }

  /** Java's `a / b` for a positive divisor: the quotient rounded toward zero. */
  function Div(a: int, b: int): int
    requires b > 0
  {
    if a >= 0 then a / b else -((-a) / b)
  }

  /** Div rounds toward zero: the remainder it leaves has the sign of `a` and is smaller than `b`. */
  lemma DivTruncates(a: int, b: int)
    requires b > 0
    ensures a >= 0 ==> 0 <= a - b * Div(a, b) < b
    ensures a < 0 ==> -b < a - b * Div(a, b) <= 0
  {
    if a >= 0 {
      assert a == b * (a / b) + a % b;
    } else {
      assert -a == b * ((-a) / b) + (-a) % b;
    }
  }

  /** Java's `a % b` for a positive divisor: the remainder takes the sign of `a`. */
  function Rem(a: int, b: int): int
    requires b > 0
  {
    if a >= 0 then a % b else -((-a) % b)
  }

  /**
   * Rem is the remainder of Div, lies strictly between -b and b, has the sign of `a`, and is
   * zero exactly when `b` divides `a`.
   */
  lemma RemOfDiv(a: int, b: int)
    requires b > 0
    ensures -b < Rem(a, b) < b
    ensures a >= 0 ==> Rem(a, b) >= 0
    ensures a <= 0 ==> Rem(a, b) <= 0
    ensures a == b * Div(a, b) + Rem(a, b)
    ensures Rem(a, b) == 0 <==> a % b == 0
  {
    if a < 0 {
      NegationKeepsDivisibility(a, b);
      assert -a == b * ((-a) / b) + (-a) % b;
    } else {
      assert a == b * (a / b) + a % b;
    }
  }

  /** A multiple of `k` that lies in [0, k) is zero. */
  lemma SmallMultiple(k: int, t: int)
    requires k > 0 && 0 <= k * t < k
    ensures t == 0
  {
  }

  /** `y` is a multiple of `k` exactly when `y % k` is zero. */
  lemma MultipleMod(y: int, k: int, q: int)
    requires k > 0 && y == k * q
    ensures y % k == 0
  {
    var r := y % k;
    var p := y / k;
    assert y == k * p + r;
    assert k * (q - p) == r;
    SmallMultiple(k, q - p);
  }

  /** Divisibility does not depend on the sign. */
  lemma NegationKeepsDivisibility(x: int, k: int)
    requires k > 0
    ensures (-x) % k == 0 <==> x % k == 0
  {
    if x % k == 0 {
      assert x == k * (x / k) + x % k;
      MultipleMod(-x, k, -(x / k));
    }
    if (-x) % k == 0 {
      assert -x == k * ((-x) / k) + (-x) % k;
      MultipleMod(x, k, -((-x) / k));
    }
  }

  /** Java's `-m` on an `int` wraps only for MIN, to MIN itself; divisibility is unaffected either way. */
  lemma WrapNegation(m: int, k: int)
    requires InRange(m) && k > 0
    ensures Wrap(-m) % k == 0 <==> m % k == 0
  {
    if m == MIN {
      assert Wrap(-m) == MIN;
    } else {
      assert Wrap(-m) == -m;
    }
    NegationKeepsDivisibility(m, k);
  }

  /**
   * Java's `Double.intValue()` on a finite value: rounds toward zero and saturates at the
   * bounds of `int`.
   */
  function DoubleToInt(x: real): (r: int)
    ensures InRange(r)
    ensures MIN as real < x < MAX as real + 1.0 ==> (r as real) - 1.0 < x < (r as real) + 1.0
    ensures x >= 0.0 ==> 0 <= r && (r as real) <= x
    ensures x <= 0.0 ==> r <= 0 && x <= (r as real)
    ensures x >= MAX as real ==> r == MAX
    ensures x <= MIN as real ==> r == MIN
  {
    if x >= MAX as real then MAX
    else if x <= MIN as real then MIN
    else if x >= 0.0 then x.Floor
    else -((-x).Floor)
  }
}
