/** Scaling by powers of ten. Every unit multiplier of the normaliser is a
    power of ten, so "value * multiplier" and "value / multiplier" are both
    scalings of a value by 10^e for an integer e. */
module Decimal {

  /** x * 10^e, by repeated multiplication (e > 0) or division (e < 0) by ten. */
  function TimesPow10(x: real, e: int): (r: real)
    ensures x >= 0.0 ==> r >= 0.0
    ensures x > 0.0 ==> r > 0.0
    decreases if e < 0 then -e else e
  {
    if e == 0 then x
    else if e > 0 then TimesPow10(x, e - 1) * 10.0
    else TimesPow10(x, e + 1) / 10.0
  }

  /** One more power of ten is one more factor ten, for any exponent. */
  lemma TimesPow10Step(x: real, e: int)
    ensures TimesPow10(x, e + 1) == TimesPow10(x, e) * 10.0
  {
  }

  /** Scaling by 10^a and then by 10^b is scaling by 10^(a+b). */
  lemma {:induction false} TimesPow10Add(x: real, a: int, b: int)
    ensures TimesPow10(TimesPow10(x, a), b) == TimesPow10(x, a + b)
    decreases if b < 0 then -b else b
  {
    if b > 0 {
      TimesPow10Add(x, a, b - 1);
      TimesPow10Step(x, a + b - 1);
    } else if b < 0 {
      TimesPow10Add(x, a, b + 1);
      TimesPow10Step(x, a + b);
    }
  }

  /** Scaling down and back up again is the identity. */
  lemma TimesPow10Inverse(x: real, e: int)
    ensures TimesPow10(TimesPow10(x, -e), e) == x
  {
    TimesPow10Add(x, -e, e);
  }

  /** Scaling is multiplication by the scaled unit. */
  lemma {:induction false} TimesPow10Linear(x: real, e: int)
    ensures TimesPow10(x, e) == x * TimesPow10(1.0, e)
    decreases if e < 0 then -e else e
  {
    if e > 0 {
      TimesPow10Linear(x, e - 1);
    } else if e < 0 {
      TimesPow10Linear(x, e + 1);
    }
  }

  /** Scaling distributes over addition. */
  lemma {:induction false} TimesPow10Sum(x: real, y: real, e: int)
    ensures TimesPow10(x + y, e) == TimesPow10(x, e) + TimesPow10(y, e)
    decreases if e < 0 then -e else e
  {
    if e > 0 {
      TimesPow10Sum(x, y, e - 1);
    } else if e < 0 {
      TimesPow10Sum(x, y, e + 1);
    }
  }

  /** An integer part plus a fraction scaled down by n places, scaled back
      up by n places. */
  lemma TimesPow10ShiftFraction(x: real, whole: real, fraction: real, n: int)
    requires x == whole + TimesPow10(fraction, -n)
    ensures TimesPow10(x, n) == TimesPow10(whole, n) + fraction
  {
    TimesPow10Sum(whole, TimesPow10(fraction, -n), n);
    TimesPow10Inverse(fraction, n);
  }

  /** Scaling preserves order. */
  lemma {:induction false} TimesPow10Monotone(x: real, y: real, e: int)
    requires x < y
    ensures TimesPow10(x, e) < TimesPow10(y, e)
    decreases if e < 0 then -e else e
  {
    if e > 0 {
      TimesPow10Monotone(x, y, e - 1);
    } else if e < 0 {
      TimesPow10Monotone(x, y, e + 1);
    }
  }

  /** Scaling a positive value by a negative power of ten makes it smaller. */
  lemma {:induction false} TimesPow10Shrinks(x: real, e: int)
    requires x > 0.0 && e < 0
    ensures TimesPow10(x, e) < x
    decreases -e
  {
    if e < -1 {
      TimesPow10Shrinks(x, e + 1);
    }
  }

  /** The scalings by the powers of ten the unit tables use, as products
      with literal factors. */
  lemma TimesPow10Table(x: real)
    ensures TimesPow10(x, 12) == x * 1e12
    ensures TimesPow10(x, 9) == x * 1e9
    ensures TimesPow10(x, 6) == x * 1e6
    ensures TimesPow10(x, 3) == x * 1e3
    ensures TimesPow10(x, 0) == x
    ensures TimesPow10(x, -3) == x * 1e-3
    ensures TimesPow10(x, -6) == x * 1e-6
  {
    TimesPow10Linear(x, 12);
    TimesPow10Linear(x, 9);
    TimesPow10Linear(x, 6);
    TimesPow10Linear(x, 3);
    TimesPow10Linear(x, -3);
    TimesPow10Linear(x, -6);
  }
}
