/**
 * The few pieces of Unity's Mathf and of C#'s arithmetic that the palette code
 * relies on, over exact reals: Repeat, Clamp01, Clamp, Lerp, PingPong, and the
 * truncating remainder `%` of C# on ints and on floats.
 */
module UnityMath {

  /** Mathf.PI, the float literal Unity defines. */
  const PI: real := 3.14159274

  /** Mathf.Sin and Mathf.Cos are not modelled; they are passed in as functions that
      are only known to stay within [-1, 1]. */
  ghost predicate Bounded(f: real -> real) {
    forall x :: -1.0 <= f(x) <= 1.0
  }

  function Abs(x: real): (r: real)
    ensures r >= 0.0 && (r == x || r == -x)
  {
    if x < 0.0 then -x else x
  }

  function Min(a: real, b: real): (r: real)
    ensures r <= a && r <= b && (r == a || r == b)
  {
    if a <= b then a else b
  }

  /** Mathf.Clamp: values below `min` become `min`, values above `max` become `max`. */
  function Clamp(value: real, min: real, max: real): (r: real)
    requires min <= max
    ensures min <= r <= max
    ensures min <= value <= max ==> r == value
    ensures value < min ==> r == min
    ensures value > max ==> r == max
  {
    if value < min then min else if value > max then max else value
  }

  /** Mathf.Clamp01. */
  function Clamp01(value: real): (r: real)
    ensures 0.0 <= r <= 1.0
    ensures 0.0 <= value <= 1.0 ==> r == value
    ensures value <= 0.0 ==> r == 0.0
    ensures value >= 1.0 ==> r == 1.0
  {
    Clamp(value, 0.0, 1.0)
  }

  /** Mathf.Lerp (and Vector3.Lerp per component): the parameter is clamped to [0, 1]. */
  function Lerp(a: real, b: real, t: real): (r: real)
    ensures t <= 0.0 ==> r == a
    ensures t >= 1.0 ==> r == b
  {
    a + (b - a) * Clamp01(t)
  }

  /** Mathf.Repeat: `t` wrapped into [0, length). Unity clamps the result once more into
      [0, length], which changes nothing over exact reals. */
  function Repeat(t: real, length: real): (r: real)
    requires length > 0.0
    ensures 0.0 <= r < length
  {
    FloorBetween(t, length);
    t - (t / length).Floor as real * length
  }

  /** The whole number of lengths below `t` is at most `t`, and one more is above it. */
  lemma FloorBetween(t: real, length: real)
    requires length > 0.0
    ensures (t / length).Floor as real * length <= t < (t / length).Floor as real * length + length
  {
    var q := t / length;
    var f := q.Floor as real;
    assert f <= q < f + 1.0;
    MulMonotone(f, q, length);
    MulStrict(q, f + 1.0, length);
    assert q * length == t;
    assert (f + 1.0) * length == f * length + length;
  }

  /** Over its first length, wrapping changes nothing. */
  lemma RepeatRising(t: real, length: real)
    requires length > 0.0
    ensures 0.0 <= t < length ==> Repeat(t, length) == t
  {
    if 0.0 <= t < length {
      var q := t / length;
      assert q * length == t;
      if q >= 1.0 {
        MulMonotone(1.0, q, length);
      } else if q < 0.0 {
        MulStrict(q, 0.0, length);
      }
      assert 0.0 <= q < 1.0;
      assert q.Floor == 0;
    }
  }

  /** Mathf.PingPong: a triangle wave that rises from 0 to `length` and falls back. */
  function PingPong(t: real, length: real): (r: real)
    requires length > 0.0
    ensures 0.0 <= r <= length
    ensures 0.0 <= t <= length ==> r == t
  {
    RepeatRising(t, length * 2.0);
    length - Abs(Repeat(t, length * 2.0) - length)
  }

  /** C#'s `%` on ints: the remainder takes the sign of the dividend. */
  function IRem(a: int, m: int): (r: int)
    requires m > 0
    ensures a >= 0 ==> 0 <= r < m
    ensures a < 0 ==> -m < r <= 0
  {
    if a >= 0 then a % m else -((-a) % m)
  }

  /** C#'s `%` on floats (fmod): the remainder takes the sign of the dividend. */
  function FRem(x: real, m: real): (r: real)
    requires m > 0.0
    ensures x >= 0.0 ==> 0.0 <= r < m
    ensures x < 0.0 ==> -m < r <= 0.0
  {
    if x >= 0.0 then Repeat(x, m) else -Repeat(-x, m)
  }

  /** A positive multiple of a positive int is at least the int. */
  lemma MulAtLeast(m: int, d: int)
    requires m > 0 && d >= 1
    ensures m * d >= m
  {
    assert m * d == m + m * (d - 1);
  }

  /** The remainder is the only r in [0, m) that leaves a whole multiple of m. */
  lemma RemUnique(a: int, m: int, q: int, r: int)
    requires m > 0 && 0 <= r < m && a == m * q + r
    ensures a % m == r
  {
    var q', r' := a / m, a % m;
    assert a == m * q' + r';
    assert m * (q - q') == r' - r;
    if q > q' {
      MulAtLeast(m, q - q');
    } else if q < q' {
      assert m * (q' - q) == r - r';
      MulAtLeast(m, q' - q);
    }
  }

  /** Adding k whole periods of m to a non-negative dividend keeps its C# remainder. */
  lemma RemPeriodic(u: int, m: int, k: nat)
    requires u >= 0 && m > 0
    ensures IRem(u + m * k, m) == IRem(u, m)
  {
    var q, r := u / m, u % m;
    assert u + m * k == m * (q + k) + r;
    RemUnique(u + m * k, m, q + k, r);
  }

  /** The product of two non-negative reals is non-negative. */
  lemma MulNonNegative(a: real, c: real)
    requires a >= 0.0 && c >= 0.0
    ensures a * c >= 0.0
  {
  }

  /** Multiplying both sides by a non-negative factor keeps the order. */
  lemma MulMonotone(a: real, b: real, c: real)
    requires c >= 0.0 && a <= b
    ensures a * c <= b * c
  {
    assert b * c - a * c == (b - a) * c;
  }

  /** Multiplying both sides by a positive factor keeps a strict order. */
  lemma MulStrict(a: real, b: real, c: real)
    requires c > 0.0 && a < b
    ensures a * c < b * c
  {
    assert b * c - a * c == (b - a) * c;
  }

  /** A weighted mean a + (b - a) * k with weight k in [0, 1] grows with both ends. */
  lemma MixMonotone(a: real, a': real, b: real, b': real, k: real)
    requires a <= a' && b <= b' && 0.0 <= k <= 1.0
    ensures a + (b - a) * k <= a' + (b' - a') * k
  {
    var da, db := a' - a, b' - b;
    MulNonNegative(da, 1.0 - k);
    MulNonNegative(db, k);
    assert (b' - a') * k - (b - a) * k == (db - da) * k;
    assert (db - da) * k == db * k - da * k;
    assert da * (1.0 - k) == da - da * k;
  }

  /** Mathf.Lerp grows with both of its end points. */
  lemma LerpMonotone(a: real, a': real, b: real, b': real, t: real)
    requires a <= a' && b <= b'
    ensures Lerp(a, b, t) <= Lerp(a', b', t)
  {
    MixMonotone(a, a', b, b', Clamp01(t));
  }

  /** Mathf.Lerp between two values in [0, 1] stays in [0, 1]. */
  lemma LerpInUnit(a: real, b: real, t: real)
    requires 0.0 <= a <= 1.0 && 0.0 <= b <= 1.0
    ensures 0.0 <= Lerp(a, b, t) <= 1.0
  {
    LerpMonotone(0.0, a, 0.0, b, t);
    LerpMonotone(a, 1.0, b, 1.0, t);
  }

  /** Clamp01 keeps the order of its arguments. */
  lemma Clamp01Monotone(a: real, b: real)
    requires a <= b
    ensures Clamp01(a) <= Clamp01(b)
  {
  }

  // The hue circle: Repeat with length 1, the only length the hue code wraps with.

  /** Repeat(t, 1) is the only point of [0, 1) a whole number of turns away from t. */
  lemma WrapUnique(t: real, k: int, r: real)
    requires 0.0 <= r < 1.0 && t == r + k as real
    ensures Repeat(t, 1.0) == r
  {
    assert t.Floor == k;
  }

  /** Wrapping lands in [0, 1), moves the value by a whole number of turns, and leaves
      a value already in [0, 1) alone. */
  lemma WrapRange(t: real)
    ensures 0.0 <= Repeat(t, 1.0) < 1.0
    ensures Repeat(t, 1.0) == t - t.Floor as real
    ensures 0.0 <= t < 1.0 ==> Repeat(t, 1.0) == t
  {
    if 0.0 <= t < 1.0 {
      WrapUnique(t, 0, t);
    }
  }

  /** Whole turns do not matter. */
  lemma WrapShift(t: real, k: int)
    ensures Repeat(t + k as real, 1.0) == Repeat(t, 1.0)
  {
    WrapRange(t);
    WrapUnique(t + k as real, t.Floor + k, Repeat(t, 1.0));
  }

  /** Wrapping twice is wrapping once. */
  lemma WrapIdempotent(t: real)
    ensures Repeat(Repeat(t, 1.0), 1.0) == Repeat(t, 1.0)
  {
    WrapRange(t);
    WrapRange(Repeat(t, 1.0));
  }

  /** Adding to a wrapped value and wrapping again is the same as adding first. */
  lemma WrapAdd(t: real, d: real)
    ensures Repeat(Repeat(t, 1.0) + d, 1.0) == Repeat(t + d, 1.0)
  {
    WrapRange(t);
    WrapShift(Repeat(t, 1.0) + d, t.Floor);
  }

  /** Two points less than a turn apart (and not equal) never wrap to the same hue. */
  lemma {:induction false} WrapDistinct(t: real, d: real)
    requires 0.0 < d < 1.0
    ensures Repeat(t + d, 1.0) != Repeat(t, 1.0)
  {
    WrapRange(t);
    WrapRange(t + d);
    var k := (t + d).Floor - t.Floor;
    assert Repeat(t + d, 1.0) - Repeat(t, 1.0) == d - k as real;
    if k <= 0 {
      assert d - k as real > 0.0;
    } else {
      assert d - k as real < 0.0;
    }
  }

  /** The int and the float remainder by 60 agree on whole numbers. */
  lemma {:induction false} IRemIsFRem(a: int)
    ensures IRem(a, 60) as real == FRem(a as real, 60.0)
  {
    var b := if a >= 0 then a else -a;
    assert (b as real / 60.0).Floor == b / 60;
  }

  // Index arithmetic. The palette code multiplies a float by a loop index (C#'s int * float).

  /** `i * shift`, written as i repeated additions of `shift`: the palette index is a small
      natural number, and this form keeps the arithmetic about the palette linear. */
  function Steps(i: nat, shift: real): real
    decreases i
  {
    if i == 0 then 0.0 else Steps(i - 1, shift) + shift
  }

  /** Repeated addition is the product the source writes. */
  lemma {:induction false} StepsIsProduct(i: nat, shift: real)
    ensures Steps(i, shift) == i as real * shift
    ensures Steps(i, shift) == shift * i as real
  {
    if i > 0 {
      StepsIsProduct(i - 1, shift);
      assert (i - 1) as real * shift + shift == i as real * shift;
    }
  }

  /** More steps of a non-negative shift go further, strictly so for a positive one; of a
      non-positive shift, less far. */
  lemma {:induction false} StepsMonotone(i: nat, j: nat, shift: real)
    requires i <= j
    ensures shift >= 0.0 ==> Steps(i, shift) <= Steps(j, shift)
    ensures shift > 0.0 && i < j ==> Steps(i, shift) < Steps(j, shift)
    ensures shift <= 0.0 ==> Steps(j, shift) <= Steps(i, shift)
    decreases j
  {
    if i < j {
      StepsMonotone(i, j - 1, shift);
    }
  }

  /** `n * x` for an index n of either sign. */
  function Times(n: int, x: real): real {
    if n >= 0 then Steps(n, x) else -Steps(-n, x)
  }

  /** Times is the product the source writes. */
  lemma TimesIsProduct(n: int, x: real)
    ensures Times(n, x) == n as real * x
  {
    if n >= 0 {
      StepsIsProduct(n, x);
    } else {
      StepsIsProduct(-n, x);
      assert (-n) as real * x == -(n as real * x);
    }
  }
}
