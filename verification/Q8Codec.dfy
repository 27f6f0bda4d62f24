/**
 The Q8_0 group codec of benchmarks/cases/q8_kv.cpp and kernels/attention/attention_q8_kv.cpp: 32 values
 become 32 signed codes and one half-precision scale.
 */
module Q8Codec {
  import opened Options
  import opened Reals

  datatype Half = Half(bits: nat)

  /** Conversions between real scales and stored halves; nothing is assumed about them. */
  datatype HalfFormat = HalfFormat(encode: real -> Half, decode: Half -> Float)

  const ZERO := Half(0)

  function CopySign(magnitude: real, sign: real): real {
    if sign < 0.0 then -Abs(magnitude) else Abs(magnitude)
  }

  function Clamp(x: real, lo: real, hi: real): real
    requires lo <= hi
  {
    if x < lo then lo else if x > hi then hi else x
  }

  /** The nearest integer to value * inverse, halves away from zero, before clamping. */
  function Rounded(value: real, inverse: real): real {
    CopySign((Abs(Times(value, inverse)) + 0.5).Floor as real, value)
  }

  function EncodeQ8(value: real, inverse: real): (code: int)
    ensures -127 <= code <= 127
  {
    Clamp(Rounded(value, inverse), -127.0, 127.0).Floor
  }

  function Amax(values: seq<real>): (m: real)
    ensures m >= 0.0
    ensures forall i | 0 <= i < |values| :: Abs(values[i]) <= m
  {
    if values == [] then 0.0
    else
      var rest := Amax(values[..|values| - 1]);
      var last := Abs(values[|values| - 1]);
      if rest < last then last else rest
  }

  function Scale(values: seq<real>): (s: real)
    ensures s >= 0.0
  {
    Amax(values) / 127.0
  }

  function Inverse(scale: real): real {
    if scale > 0.0 then 1.0 / scale else 0.0
  }

  function Codes(values: seq<real>): (codes: seq<int>)
    ensures |codes| == |values|
  {
    seq(|values|, i requires 0 <= i < |values| => EncodeQ8(values[i], Inverse(Scale(values))))
  }

  /** code * scale; by section 7.2 of IEEE 754 zero times infinity is NaN. */
  function Product(code: int, scale: Float): Float {
    match scale
    case Finite(s) => Finite(Times(code as real, s))
    case NaN => NaN
    case PlusInfinity => if code == 0 then NaN else if code > 0 then PlusInfinity else MinusInfinity
    case MinusInfinity => if code == 0 then NaN else if code > 0 then MinusInfinity else PlusInfinity
  }

  function Decoded(codes: seq<int>, scale: Float): (values: seq<Float>)
    ensures |values| == |codes|
  {
    seq(|codes|, i requires 0 <= i < |codes| => Product(codes[i], scale))
  }

  /** What a scale is stored and read back as. */
  function ReadScale(f: HalfFormat, scale: real): Float {
    f.decode(f.encode(scale))
  }

  // ---------- the largest magnitude ----------

  /** m is the largest magnitude of a group. */
  ghost predicate Largest(values: seq<real>, m: real) {
    && (forall i | 0 <= i < |values| :: -m <= values[i] <= m)
    && exists i :: 0 <= i < |values| && (values[i] == m || values[i] == -m)
  }

  lemma {:induction false} AmaxAttained(values: seq<real>) returns (i: nat)
    requires values != []
    ensures i < |values| && (values[i] == Amax(values) || values[i] == -Amax(values))
  {
    i := |values| - 1;
    if |values| > 1 && Amax(values[..i]) >= Abs(values[i]) {
      i := AmaxAttained(values[..i]);
    }
  }

  /** Every group has exactly one, and its 127th is the scale. */
  lemma LargestIs(values: seq<real>, m: real)
    requires values != []
    ensures Largest(values, m) <==> m == Amax(values)
    ensures Largest(values, m) ==> Scale(values) == m / 127.0 && m >= 0.0
  {
    var i := AmaxAttained(values);
    hide Amax;
    var top := Amax(values);
    assert forall k | 0 <= k < |values| :: Abs(values[k]) <= top;
    if Largest(values, m) {
      var k :| 0 <= k < |values| && (values[k] == m || values[k] == -m);
    }
  }

  // ---------- rounding error ----------

  /** A quotient no larger than 127 rounds to within one half, with no need to clamp. */
  lemma RoundsClosely(value: real, inverse: real)
    requires inverse >= 0.0 && Abs(Times(value, inverse)) <= 127.0
    ensures EncodeQ8(value, inverse) as real == Rounded(value, inverse)
    ensures Abs(EncodeQ8(value, inverse) as real - Times(value, inverse)) <= 0.5
  {
    ProductSign(value, inverse);
    hide Times;
    var q := Abs(Times(value, inverse));
    var n := (q + 0.5).Floor;
    assert n as real <= q + 0.5 < n as real + 1.0;
    assert 0 <= n <= 127;
    assert Rounded(value, inverse) == if value < 0.0 then -(n as real) else n as real;
    IntegerFloor(n);
    IntegerFloor(-n);
  }

  lemma ProductSign(value: real, inverse: real)
    requires inverse >= 0.0
    ensures value < 0.0 ==> Times(value, inverse) <= 0.0
    ensures value >= 0.0 ==> Times(value, inverse) >= 0.0
  {
  }

  lemma IntegerFloor(n: int)
    ensures (n as real).Floor == n
  {
  }

  /** The quotient of a value by a scale that covers it. */
  lemma Quotient(value: real, s: real)
    requires s > 0.0 && Abs(value) <= 127.0 * s
    ensures Inverse(s) >= 0.0
    ensures Times(Times(value, Inverse(s)), s) == value && Abs(Times(value, Inverse(s))) <= 127.0
  {
    Reciprocal(s);
    Cancel(value, Inverse(s), s);
    hide Times, Inverse;
    Bounded(value, Times(value, Inverse(s)), s);
  }

  lemma Reciprocal(s: real)
    requires s > 0.0
    ensures Inverse(s) > 0.0 && Times(Inverse(s), s) == 1.0
  {
  }

  lemma Cancel(a: real, b: real, c: real)
    requires Times(b, c) == 1.0
    ensures Times(Times(a, b), c) == a
  {
    assert a * b * c == a * (b * c);
  }

  lemma Bounded(value: real, x: real, s: real)
    requires s > 0.0 && Times(x, s) == value && Abs(value) <= 127.0 * s
    ensures Abs(x) <= 127.0
  {
    if x > 127.0 {
      NonNegative(x - 127.0, s);
    } else if x < -127.0 {
      NonNegative(-127.0 - x, s);
    }
  }

  lemma NonNegative(x: real, d: real)
    requires x >= 0.0 && d >= 0.0
    ensures x * d >= 0.0
    ensures x > 0.0 && d > 0.0 ==> x * d > 0.0
  {
  }

  lemma ScaledError(code: real, x: real, s: real)
    requires s > 0.0 && Abs(code - x) <= 0.5
    ensures Abs(Times(code, s) - Times(x, s)) <= s / 2.0
  {
    NonNegative(0.5 - (code - x), s);
    NonNegative(0.5 + (code - x), s);
  }

  lemma RescaledError(code: real, s: real, stored: real)
    requires -127.0 <= code <= 127.0
    ensures Abs(Times(code, stored) - Times(code, s)) <= 127.0 * Abs(stored - s)
  {
    if stored >= s {
      NonNegative(127.0 - code, stored - s);
      NonNegative(127.0 + code, stored - s);
    } else {
      NonNegative(127.0 - code, s - stored);
      NonNegative(127.0 + code, s - stored);
    }
  }

  /** What a stored group returns, element by element, when its scale is stored as a real. */
  ghost predicate CloseTo(value: real, decoded: real, scale: real, stored: real) {
    Abs(decoded - value) <= scale / 2.0 + 127.0 * Abs(stored - scale)
  }

  /** The sign of an element's code: elements below half a scale step have code 0. */
  function CodeSign(value: real, scale: real): int {
    if value == 0.0 || 2.0 * Abs(value) < scale then 0 else if value > 0.0 then 1 else -1
  }

  /** In general: within the bound of a finite scale; otherwise what the sign of the code makes of the special value. */
  ghost predicate Returned(value: real, decoded: Float, scale: real, stored: Float) {
    match stored
    case Finite(s) => decoded.Finite? && CloseTo(value, decoded.value, scale, s)
    case _ => decoded == Product(CodeSign(value, scale), stored)
  }

  lemma ElementRoundTrip(value: real, s: real, stored: real)
    requires s > 0.0 && Abs(value) <= 127.0 * s
    ensures EncodeQ8(value, Inverse(s)) as real == Rounded(value, Inverse(s))
    ensures CloseTo(value, Times(EncodeQ8(value, Inverse(s)) as real, stored), s, stored)
  {
    Quotient(value, s);
    RoundsClosely(value, Inverse(s));
    hide Times, Inverse, Rounded;
    var code := EncodeQ8(value, Inverse(s)) as real;
    ScaledError(code, Times(value, Inverse(s)), s);
    RescaledError(code, s, stored);
  }

  lemma ZeroCode(inverse: real, stored: Float)
    ensures EncodeQ8(0.0, inverse) == 0 && Rounded(0.0, inverse) == 0.0
    ensures stored.Finite? ==> Product(0, stored) == Finite(0.0)
  {
    assert Times(0.0, inverse) == 0.0;
    assert (0.0 + 0.5).Floor == 0;
    IntegerFloor(0);
    if stored.Finite? {
      TimesZero(stored.value);
    }
  }

  /** The code of an element has the sign of the element, or is zero below half a scale step. */
  lemma CodeHasSign(value: real, s: real)
    requires s > 0.0 && Abs(value) <= 127.0 * s
    ensures var code, sign := EncodeQ8(value, Inverse(s)), CodeSign(value, s);
      (code > 0 <==> sign > 0) && (code < 0 <==> sign < 0)
  {
    Quotient(value, s);
    RoundsClosely(value, Inverse(s));
    ProductSign(value, Inverse(s));
    HalfStep(value, Times(value, Inverse(s)), s);
    hide Times, Inverse, EncodeQ8;
    var q := Abs(Times(value, Inverse(s)));
    assert (q + 0.5).Floor == 0 <==> q < 0.5;
  }

  lemma HalfStep(value: real, x: real, s: real)
    requires s > 0.0 && Times(x, s) == value
    ensures Abs(x) < 0.5 <==> 2.0 * Abs(value) < s
  {
    assert Abs(value) == Times(Abs(x), s) && Times(0.5, s) == s / 2.0;
    TimesAdd(0.5, Abs(x), s);
    TimesAdd(Abs(x), 0.5, s);
    if Abs(x) < 0.5 {
      TimesNonNegative(0.5 - Abs(x), s);
    } else {
      TimesNonNegative(Abs(x) - 0.5, s);
    }
  }

  lemma ScaleCovers(values: seq<real>, lane: nat)
    requires lane < |values|
    ensures Abs(values[lane]) <= 127.0 * Scale(values)
    ensures Scale(values) <= 0.0 ==> values[lane] == 0.0
  {
  }

  /** The code of an element is value * 127 / m, rounded to the nearest integer, halves away from zero. */
  ghost predicate CodeIs(code: int, value: real, m: real) {
    var lower, upper, x := Times((2 * code - 1) as real, m), Times((2 * code + 1) as real, m), 254.0 * value;
    if m == 0.0 then code == 0
    else if value >= 0.0 then lower <= x < upper
    else lower < x <= upper
  }

  lemma CodesNearest(values: seq<real>, m: real, lane: nat)
    requires Largest(values, m) && lane < |values|
    ensures CodeIs(Codes(values)[lane], values[lane], m)
    ensures m > 0.0 && values[lane] == m ==> Codes(values)[lane] == 127
    ensures m > 0.0 && values[lane] == -m ==> Codes(values)[lane] == -127
  {
    LargestIs(values, m);
    ScaleCovers(values, lane);
    var s := Scale(values);
    hide Scale, Inverse, EncodeQ8, Times;
    if s > 0.0 {
      CodeNearest(values[lane], s);
      hide Codes;
      ByScale(Codes(values)[lane], values[lane], s, m);
    } else {
      ZeroCode(Inverse(s), NaN);
    }
  }

  /** In terms of the scale. */
  lemma CodeNearest(value: real, s: real)
    requires s > 0.0 && Abs(value) <= 127.0 * s
    ensures var code := EncodeQ8(value, Inverse(s)) as real;
      if value >= 0.0 then Times(code - 0.5, s) <= value < Times(code + 0.5, s)
      else Times(code - 0.5, s) < value <= Times(code + 0.5, s)
  {
    Quotient(value, s);
    RoundsClosely(value, Inverse(s));
    ProductSign(value, Inverse(s));
    hide Times, Inverse, EncodeQ8;
    var x, code := Times(value, Inverse(s)), EncodeQ8(value, Inverse(s)) as real;
    var q := Abs(x);
    var n := (q + 0.5).Floor as real;
    assert n <= q + 0.5 < n + 1.0;
    StrictTimes(code - 0.5, x, s);
    StrictTimes(x, code + 0.5, s);
  }

  lemma StrictTimes(x: real, y: real, s: real)
    requires s > 0.0
    ensures x <= y ==> Times(x, s) <= Times(y, s)
    ensures x < y ==> Times(x, s) < Times(y, s)
  {
    TimesAdd(y, x, s);
    if x <= y {
      TimesNonNegative(y - x, s);
    }
  }

  lemma ByScale(code: int, value: real, s: real, m: real)
    requires s > 0.0 && s == m / 127.0 && -m <= value <= m
    requires if value >= 0.0 then Times(code as real - 0.5, s) <= value < Times(code as real + 0.5, s)
             else Times(code as real - 0.5, s) < value <= Times(code as real + 0.5, s)
    ensures CodeIs(code, value, m)
    ensures value == m ==> code == 127
    ensures value == -m ==> code == -127
  {
    HalfSteps(2 * code - 1, s, m);
    HalfSteps(2 * code + 1, s, m);
    hide Times;
    if value == m {
      TopCode(code, m);
    } else if value == -m {
      BottomCode(code, m);
    }
  }

  lemma HalfSteps(n: int, s: real, m: real)
    requires s == m / 127.0
    ensures 254.0 * Times(n as real / 2.0, s) == Times(n as real, m)
  {
    assert Times(n as real / 2.0, s) == n as real * m / 254.0;
  }

  lemma TopCode(code: int, m: real)
    requires m > 0.0 && Times((2 * code - 1) as real, m) <= 254.0 * m < Times((2 * code + 1) as real, m)
    ensures code == 127
  {
    TimesIs(254.0, m);
    hide Times;
    if code > 127 {
      StrictTimes(254.0, (2 * code - 1) as real, m);
    } else if code < 127 {
      StrictTimes((2 * code + 1) as real, 254.0, m);
    }
  }

  lemma BottomCode(code: int, m: real)
    requires m > 0.0 && Times((2 * code - 1) as real, m) < -254.0 * m <= Times((2 * code + 1) as real, m)
    ensures code == -127
  {
    TimesIs(-254.0, m);
    hide Times;
    if code > -127 {
      StrictTimes(-254.0, (2 * code - 1) as real, m);
    } else if code < -127 {
      StrictTimes((2 * code + 1) as real, -254.0, m);
    }
  }

  /**
   Every element of a group with largest magnitude m survives within half of the scale m / 127 plus the rounding of that
   scale, if it is stored as a real; stored as an infinity it makes elements below half a step NaN and all others
   infinite. The clamp of the code changes nothing.
   */
  lemma GroupRoundTrip(values: seq<real>, m: real, stored: Float, lane: nat)
    requires Largest(values, m) && lane < |values|
    ensures Returned(values[lane], Decoded(Codes(values), stored)[lane], m / 127.0, stored)
    ensures Codes(values)[lane] as real == Rounded(values[lane], Inverse(m / 127.0))
  {
    LargestIs(values, m);
    ScaleCovers(values, lane);
    hide Times, Inverse, Scale, Rounded, EncodeQ8, Largest;
    if Scale(values) > 0.0 {
      ElementRoundTrip(values[lane], Scale(values), if stored.Finite? then stored.value else 0.0);
      CodeHasSign(values[lane], Scale(values));
    } else {
      ZeroCode(Inverse(Scale(values)), stored);
    }
  }

  /** A group of zeros comes back as zeros if and only if its scale is read back as a real. */
  lemma ZeroGroupExact(values: seq<real>, stored: Float, lane: nat)
    requires lane < |values| && AllZero(values)
    ensures Decoded(Codes(values), stored)[lane] == Finite(0.0) <==> stored.Finite?
  {
    ZeroCode(Inverse(Scale(values)), stored);
  }

  /** One element of a group against what is read back for it, m / 127 being the scale that was stored. */
  ghost predicate Recovers(f: HalfFormat, values: seq<real>, lane: nat, decoded: Float)
    requires lane < |values|
  {
    forall m: real | Largest(values, m) ::
      && Returned(values[lane], decoded, m / 127.0, f.decode(f.encode(m / 127.0)))
      && (m == 0.0 ==> (decoded == Finite(0.0) <==> f.decode(f.encode(0.0)).Finite?))
  }

  lemma GroupRecovers(f: HalfFormat, values: seq<real>, lane: nat)
    requires lane < |values|
    ensures Recovers(f, values, lane, Decoded(Codes(values), ReadScale(f, Scale(values)))[lane])
  {
    hide Product, EncodeQ8, Rounded, CloseTo, Scale;
    forall m: real | Largest(values, m)
      ensures Scale(values) == m / 127.0
      ensures Returned(values[lane], Decoded(Codes(values), ReadScale(f, Scale(values)))[lane], m / 127.0,
                       f.decode(f.encode(m / 127.0)))
      ensures m == 0.0 ==> (Decoded(Codes(values), ReadScale(f, Scale(values)))[lane] == Finite(0.0)
                            <==> f.decode(f.encode(0.0)).Finite?)
    {
      LargestIs(values, m);
      GroupRoundTrip(values, m, ReadScale(f, Scale(values)), lane);
      if m == 0.0 {
        ZeroGroupExact(values, ReadScale(f, Scale(values)), lane);
      }
    }
  }
}
