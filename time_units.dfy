/**
 * Swift's integer `/` and `%`. Both truncate toward zero, whereas Dafny's
 * are Euclidean; the two agree only on non-negative operands. `Int(x)` of a
 * whole number of seconds is the number itself, so the views' `Int(t) / 3600`
 * and `Int(t) % 60` become `Quot(t, 3600)` and `Rem(t, 60)`.
 */
module TimeUnits {
  const SecondsPerMinute := 60
  const SecondsPerHour := 3600
  const SecondsPerDay := 86400

  /** Quotient truncated toward zero: the remainder it leaves has the sign of `a` and is smaller than `b`. */
  function Quot(a: int, b: int): (q: int)
    requires b > 0
    ensures 0 <= a ==> 0 <= a - q * b < b
    ensures a <= 0 ==> -b < a - q * b <= 0
  {
    if a >= 0 then a / b else -((-a) / b)
  }

  /** Remainder of truncating division: `a == Quot(a, b) * b + r`, with `r` carrying the sign of `a`. */
  function Rem(a: int, b: int): (r: int)
    requires b > 0
    ensures a == Quot(a, b) * b + r
    ensures 0 <= a ==> 0 <= r < b
    ensures a <= 0 ==> -b < r <= 0
  {
    a - Quot(a, b) * b
  }

  /** `x * b` grows with `x` by whole steps of `b`. */
  lemma MulStep(x: int, b: int)
    requires b > 0
    ensures x >= 1 ==> x * b >= b
    ensures x <= -1 ==> x * b <= -b
    decreases if x >= 0 then x else -x
  {
    if x >= 1 {
      calc { x * b; == (x - 1) * b + b; }
      if x > 1 { MulStep(x - 1, b); }
    } else if x <= -1 {
      calc { x * b; == (x + 1) * b - b; }
      if x < -1 { MulStep(x + 1, b); }
    }
  }

  /** Truncating division is determined by its bounds: any `q` leaving a remainder of the sign of `a` below `b` is the quotient. */
  lemma {:induction false} QuotUnique(a: int, b: int, q: int)
    requires b > 0
    requires 0 <= a ==> 0 <= a - q * b < b
    requires a <= 0 ==> -b < a - q * b <= 0
    ensures Quot(a, b) == q
  {
    var q0 := Quot(a, b);
    assert (q - q0) * b == (a - q0 * b) - (a - q * b);
    MulStep(q - q0, b);
  }

  /** Truncating by 60 twice is truncating by 3600, for every sign of `t`. */
  lemma MinutesThenHours(t: int)
    ensures Quot(Quot(t, 60), 60) == Quot(t, 3600)
  {
    var q1 := Quot(t, 60);
    var q2 := Quot(q1, 60);
    assert t == q1 * 60 + Rem(t, 60);
    assert q1 == q2 * 60 + Rem(q1, 60);
    if t >= 0 {
      assert q1 >= 0;
    } else {
      assert q1 <= 0;
    }
    QuotUnique(t, 3600, q2);
  }

  /** Dropping whole hours first does not change the seconds left over a whole minute. */
  lemma HoursThenMinutes(t: int)
    ensures Rem(Rem(t, 3600), 60) == Rem(t, 60)
  {
    var r := Rem(t, 3600);
    var q := Quot(r, 60);
    assert t == Quot(t, 3600) * 3600 + r;
    assert r == q * 60 + Rem(r, 60);
    QuotUnique(t, 60, Quot(t, 3600) * 60 + q);
  }

  /** A truncated remainder is zero exactly when the Euclidean one is: divisibility does not depend on the rounding. */
  lemma RemZeroIffDivides(a: int, b: int)
    requires b > 0
    ensures Rem(a, b) == 0 <==> a % b == 0
  {
    if Rem(a, b) == 0 {
      ExactMultiple(a, b, Quot(a, b));
    }
    if a % b == 0 {
      assert a == (a / b) * b;
      QuotUnique(a, b, a / b);
    }
  }

  /** An exact multiple `q * b` leaves Euclidean remainder zero and quotient `q`. */
  lemma ExactMultiple(a: int, b: int, q: int)
    requires b > 0 && a == q * b
    ensures a % b == 0 && a / b == q
  {
    var q0, r0 := a / b, a % b;
    assert a == q0 * b + r0 && 0 <= r0 < b;
    assert (q - q0) * b == r0;
    MulStep(q - q0, b);
  }
}
