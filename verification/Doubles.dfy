/**
 A Go int64 crosses into JavaScript as a double (GV8NewInteger) and comes back
 through V8's IntegerValue (GV8ValueToInteger).

 The conversion to double is specified, not computed: it is roundTiesToEven of
 section 4.3.1 of IEEE 754-2019.  IntegerValue has no visible body; its contract
 here is to truncate and to saturate at the ends of int64.
 */
module Doubles {

  const P52 := 0x10_0000_0000_0000
  const P53 := 0x20_0000_0000_0000
  const MAX_INT64 := 0x7FFF_FFFF_FFFF_FFFF
  const MIN_INT64 := -0x8000_0000_0000_0000

  function Pow2(e: nat): (p: nat)
    ensures p > 0
  {
    if e == 0 then 1 else 2 * Pow2(e - 1)
  }

  function Abs(x: int): nat {
    if x < 0 then -x else x
  }

  // n is s * 2^e with a significand s of 53 bits.
  ghost predicate Digits(n: int, s: int, e: nat) {
    Abs(s) < P53 && n == s * Pow2(e)
  }

  // The integers that are doubles.  (Doubles that are not integers are below 2^52 and never nearest.)
  ghost predicate IsDouble(n: int) {
    exists s: int, e: nat :: Digits(n, s, e)
  }

  // In its normal form, n has an even significand.
  ghost predicate EvenDigits(n: int, s: int, e: nat) {
    Digits(n, s, e) && P52 <= Abs(s) && s % 2 == 0
  }

  ghost predicate IsEven(n: int) {
    exists s: int, e: nat :: EvenDigits(n, s, e)
  }

  ghost predicate Nearest(v: int, d: int) {
    IsDouble(d) && forall x :: IsDouble(x) ==> Abs(v - d) <= Abs(v - x)
  }

  // roundTiesToEven
  ghost predicate Rounds(v: int, d: int) {
    Nearest(v, d) && forall x :: IsDouble(x) && x != d && Abs(v - x) == Abs(v - d) ==> IsEven(d)
  }

  // IntegerValue of an integral double
  function IntegerValue(d: int): int {
    if d > MAX_INT64 then MAX_INT64 else if d < MIN_INT64 then MIN_INT64 else d
  }

  ghost predicate Int64(v: int) {
    MIN_INT64 <= v <= MAX_INT64
  }

  /* ---- rounding, computed ---- */

  // the exponent of the unit in the last place at magnitude a
  function Exponent(a: nat): (k: nat)
    ensures a < P53 * Pow2(k)
    ensures k > 0 ==> P52 * Pow2(k) <= a
    decreases a
  {
    if a < P53 then 0 else Exponent(a / 2) + 1
  }

  function RoundAt(v: int, u: nat): int
    requires u > 0
  {
    var q := v / u;
    var r := v % u;
    if 2 * r < u || (2 * r == u && q % 2 == 0) then q * u else (q + 1) * u
  }

  function ToDouble(v: int): int {
    RoundAt(v, Pow2(Exponent(Abs(v))))
  }

  lemma {:induction false} PowSplit(a: nat, b: nat)
    ensures Pow2(a + b) == Pow2(a) * Pow2(b)
    decreases a
  {
    if a > 0 {
      PowSplit(a - 1, b);
      assert Pow2(a + b) == 2 * Pow2(a - 1 + b);
      assert Pow2(a) * Pow2(b) == 2 * Pow2(a - 1) * Pow2(b);
    }
  }

  lemma MulLess(a: int, b: int, p: nat)
    requires a < b && p > 0
    ensures a * p < b * p
  {
  }

  lemma MulMono(a: int, b: int, p: nat)
    requires a <= b
    ensures a * p <= b * p
  {
  }

  lemma MulAssoc(a: int, b: int, c: int)
    ensures a * (b * c) == (a * b) * c
  {
  }

  lemma AbsMul(s: int, p: nat)
    ensures Abs(s * p) == Abs(s) * p
  {
    if s < 0 {
      assert s * p == -((-s) * p);
      MulMono(0, -s, p);
    } else {
      MulMono(0, s, p);
    }
  }

  lemma MultipleMod(q: int, u: nat)
    requires u > 0
    ensures (q * u) % u == 0 && (q * u) / u == q
  {
    var y := q * u;
    var k := y / u;
    assert y == k * u + y % u;
    assert (q - k) * u == y % u;
    if q - k >= 1 {
      MulMono(1, q - k, u);
      assert false;
    } else if q - k <= -1 {
      MulMono(q - k, -1, u);
      assert false;
    }
  }

  // Every double at least as large as 2^52 units is a whole number of units.
  lemma LargeDoublesAreMultiples(x: int, k: nat)
    requires IsDouble(x) && Abs(x) >= P52 * Pow2(k)
    ensures x % Pow2(k) == 0
  {
    var s: int, e: nat :| Digits(x, s, e);
    SmallExponent(x, s, e, k);
    var m := Pow2(e - k);
    var u := Pow2(k);
    PowSplit(e - k, k);
    MulAssoc(s, m, u);
    MultipleMod(s * m, u);
  }

  lemma SmallExponent(x: int, s: int, e: nat, k: nat)
    requires Digits(x, s, e) && Abs(x) >= P52 * Pow2(k)
    ensures k <= e
  {
    var p := Pow2(e);
    AbsMul(s, p);
    MulLess(Abs(s), P53, p);
    if e < k {
      PowSplit(k - e, e);
      var m := Pow2(k - e);
      assert m == 2 * Pow2(k - e - 1);
      MulMono(2, m, p);
      assert false;
    }
  }

  /* ---- ToDouble rounds to nearest, ties to even ---- */

  lemma SmallIsDouble(v: int)
    requires Abs(v) < P53
    ensures IsDouble(v)
  {
    assert Digits(v, v, 0);
  }

  // q whole units are a double, even if q is, as long as q needs no more than 53 bits.
  lemma UnitsAreDoubles(q: int, k: nat)
    requires P52 <= Abs(q) <= P53
    ensures IsDouble(q * Pow2(k)) && (q % 2 == 0 ==> IsEven(q * Pow2(k)))
  {
    var p := Pow2(k);
    if Abs(q) < P53 {
      assert Digits(q * p, q, k);
      if q % 2 == 0 { assert EvenDigits(q * p, q, k); }
    } else {
      HalfUnits(q, k);
    }
  }

  lemma HalfUnits(q: int, k: nat)
    requires Abs(q) == P53
    ensures IsDouble(q * Pow2(k)) && IsEven(q * Pow2(k))
  {
    var h := if q > 0 then P52 else -P52;
    var p := Pow2(k);
    MulAssoc(h, 2, p);
    assert Pow2(k + 1) == 2 * p;
    assert EvenDigits(q * p, h, k + 1);
    assert Digits(q * p, h, k + 1);
  }

  // The two neighbours of v, and what separates them.
  lemma Neighbours(v: int, k: nat)
    requires k > 0 && P52 * Pow2(k) <= Abs(v) < P53 * Pow2(k)
    ensures var u := Pow2(k); var q := v / u;
      && q * u <= v < (q + 1) * u && v % u == v - q * u
      && IsDouble(q * u) && (q % 2 == 0 ==> IsEven(q * u))
      && (v != q * u ==> IsDouble((q + 1) * u) && (q % 2 != 0 ==> IsEven((q + 1) * u)))
  {
    var u := Pow2(k);
    var q := v / u;
    assert v == q * u + v % u;
    UnitBounds(v, u, q);
    UnitsAreDoubles(q, k);
    if v != q * u { UnitsAreDoubles(q + 1, k); }
  }

  lemma UnitBounds(v: int, u: nat, q: int)
    requires u > 0 && q * u <= v < (q + 1) * u
    requires P52 * u <= Abs(v) < P53 * u
    ensures P52 <= Abs(q) <= P53
    ensures v != q * u ==> P52 <= Abs(q + 1) <= P53
  {
    if v >= 0 {
      if q + 1 <= P52 { MulMono(q + 1, P52, u); }
      if q >= P53 { MulMono(P53, q, u); }
    } else {
      if q >= -P52 + 1 { MulMono(-P52 + 1, q, u); }
      if q + 1 <= -P53 { MulMono(q + 1, -P53, u); }
      if q + 1 >= -P52 + 1 { MulMono(-P52, q, u); }
    }
  }

  // No double lies strictly between two whole numbers of units, that far out.
  lemma NoDoubleBetween(x: int, q: int, k: nat)
    requires IsDouble(x) && P52 <= Abs(q) && P52 <= Abs(q + 1) && (q >= 0 || q + 1 <= 0)
    ensures x <= q * Pow2(k) || (q + 1) * Pow2(k) <= x
  {
    var u := Pow2(k);
    if q * u < x < (q + 1) * u {
      if q >= 0 { MulMono(P52, q, u); } else { MulMono(q + 1, -P52, u); }
      LargeDoublesAreMultiples(x, k);
      BetweenMultiples(x, q, u);
    }
  }

  lemma BetweenMultiples(x: int, q: int, u: nat)
    requires u > 0 && x % u == 0
    ensures x <= q * u || (q + 1) * u <= x
  {
    var m := x / u;
    assert x == m * u;
    if m <= q { MulMono(m, q, u); } else { MulMono(q + 1, m, u); }
  }

  /* ---- the theorem ---- */

  // Of the two doubles around v, the nearer one, and of two equally near the even one, is the rounding of v.
  lemma PickNearest(v: int, lo: int, hi: int, d: int)
    requires lo < v < hi && IsDouble(lo) && IsDouble(hi)
    requires forall x :: IsDouble(x) ==> x <= lo || hi <= x
    requires d == lo || d == hi
    requires d == lo ==> 2 * (v - lo) <= hi - lo && (2 * (v - lo) == hi - lo ==> IsEven(lo))
    requires d == hi ==> 2 * (v - lo) >= hi - lo && (2 * (v - lo) == hi - lo ==> IsEven(hi))
    ensures Rounds(v, d)
  {
    forall x | IsDouble(x) && x != d && Abs(v - x) == Abs(v - d) ensures IsEven(d) {
      assert x <= lo || hi <= x;
    }
  }

  lemma RoundAtNearest(v: int, k: nat)
    requires k > 0 && P52 * Pow2(k) <= Abs(v) < P53 * Pow2(k)
    ensures Rounds(v, RoundAt(v, Pow2(k)))
    ensures 2 * Abs(RoundAt(v, Pow2(k)) - v) <= Pow2(k)
  {
    var u := Pow2(k);
    var q := v / u;
    var lo, hi := q * u, (q + 1) * u;
    assert hi == lo + u;
    Neighbours(v, k);
    UnitBounds(v, u, q);
    assert v != lo ==> (q >= 0 || q + 1 <= 0);
    hide IsDouble, IsEven, Rounds, Abs;
    AroundUnit(v, k, q, lo, hi);
  }

  lemma AroundUnit(v: int, k: nat, q: int, lo: int, hi: int)
    requires q == v / Pow2(k) && lo == q * Pow2(k) && hi == (q + 1) * Pow2(k) && hi == lo + Pow2(k)
    requires lo <= v < hi && v % Pow2(k) == v - lo && IsDouble(lo) && (q % 2 == 0 ==> IsEven(lo))
    requires P52 <= Abs(q)
    requires v != lo ==> IsDouble(hi) && (q % 2 != 0 ==> IsEven(hi)) && P52 <= Abs(q + 1) && (q >= 0 || q + 1 <= 0)
    ensures Rounds(v, RoundAt(v, Pow2(k)))
    ensures 2 * Abs(RoundAt(v, Pow2(k)) - v) <= Pow2(k)
  {
    var d := RoundAt(v, Pow2(k));
    if v == lo {
      assert d == v;
    } else {
      forall x | IsDouble(x) ensures x <= lo || hi <= x { NoDoubleBetween(x, q, k); }
      hide IsDouble, IsEven, Rounds;
      PickNearest(v, lo, hi, d);
    }
  }

  // ToDouble is the roundTiesToEven of section 4.3.1.
  lemma ToDoubleRounds(v: int)
    ensures Rounds(v, ToDouble(v))
  {
    var k := Exponent(Abs(v));
    if k == 0 {
      SmallIsDouble(v);
      MultipleMod(v, 1);
    } else {
      RoundAtNearest(v, k);
    }
  }

  // An odd number of units has an odd significand.
  lemma OddUnits(q: int, k: nat)
    requires P52 <= Abs(q) < P53 && q % 2 != 0
    ensures !IsEven(q * Pow2(k))
  {
    var n := q * Pow2(k);
    assert Digits(n, q, k);
    forall s: int, e: nat ensures !EvenDigits(n, s, e) {
      if EvenDigits(n, s, e) {
        AbsMul(q, Pow2(k));
        AbsMul(s, Pow2(e));
        MulMono(P52, Abs(q), Pow2(k));
        MulMono(P52, Abs(s), Pow2(e));
        SmallExponent(n, s, e, k);
        SmallExponent(n, q, k, e);
        SameFactor(s, q, Pow2(k));
      }
    }
  }

  lemma SameFactor(a: int, b: int, p: nat)
    requires p > 0 && a * p == b * p
    ensures a == b
  {
    if a < b { MulLess(a, b, p); } else if b < a { MulLess(b, a, p); }
  }

  // There is only one rounding: whatever meets the standard's definition is ToDouble.
  lemma RoundingIsUnique(v: int, d: int)
    requires Rounds(v, d)
    ensures d == ToDouble(v)
  {
    var t := ToDouble(v);
    ToDoubleRounds(v);
    assert Abs(v - d) == Abs(v - t);
    if d != t {
      assert IsEven(d) && IsEven(t);
      TieIsEvenAndOdd(v, d, t);
    }
  }

  // Two different doubles equally near to v are neighbouring units, and one of them is odd.
  lemma TieIsEvenAndOdd(v: int, d: int, t: int)
    requires Nearest(v, d) && Nearest(v, t) && d != t
    ensures !IsEven(d) || !IsEven(t)
  {
    var k := Exponent(Abs(v));
    if k == 0 {
      SmallIsDouble(v);
    } else {
      Neighbours(v, k);
      var u := Pow2(k);
      var q := v / u;
      UnitBounds(v, u, q);
      forall x | IsDouble(x) && v != q * u ensures x <= q * u || (q + 1) * u <= x { NoDoubleBetween(x, q, k); }
      assert {d, t} == {q * u, (q + 1) * u};
      if q % 2 != 0 { OddUnits(q, k); } else { OddUnits(q + 1, k); }
    }
  }

  /* ---- the round trip ---- */

  function RoundTrip(v: int): int {
    IntegerValue(ToDouble(v))
  }

  // Integers that a double can hold come back as they were.
  lemma RoundTripExact(v: int)
    requires Int64(v) && Abs(v) <= P53
    ensures RoundTrip(v) == v
  {
    ToDoubleRounds(v);
    if Abs(v) < P53 { SmallIsDouble(v); } else { UnitsAreDoubles(v, 0); }
    assert IsDouble(v);
  }

  // Exactly: those that are doubles, and the largest int64, which saturation brings back.
  lemma RoundTripExactIff(v: int)
    requires Int64(v)
    ensures RoundTrip(v) == v <==> IsDouble(v) || v == MAX_INT64
  {
    ToDoubleRounds(v);
    MinIsDouble();
    MaxRounds();
    if IsDouble(v) { assert Abs(v - ToDouble(v)) <= Abs(v - v); }
    if ToDouble(v) < MIN_INT64 { assert Abs(v - ToDouble(v)) <= Abs(v - MIN_INT64); }
  }

  lemma MinIsDouble()
    ensures IsDouble(MIN_INT64) && IsDouble(-MIN_INT64)
  {
    assert Pow2(11) == 2048 by { PowEleven(); }
    assert Digits(MIN_INT64, -P52, 11) && Digits(-MIN_INT64, P52, 11);
  }

  lemma PowEleven()
    ensures Pow2(11) == 2048 && Pow2(10) == 1024 && Pow2(9) == 512
  {
    assert Pow2(0) == 1 && Pow2(1) == 2 && Pow2(2) == 4 && Pow2(3) == 8 && Pow2(4) == 16 && Pow2(5) == 32;
    assert Pow2(6) == 64 && Pow2(7) == 128 && Pow2(8) == 256;
  }

  lemma MaxRounds()
    ensures ToDouble(MAX_INT64) == -MIN_INT64
  {
    PowEleven();
    assert Exponent(MAX_INT64) == 10 by { ExponentIs(MAX_INT64, 10); }
  }

  lemma {:induction false} PowMono(a: nat, b: nat)
    ensures a <= b ==> Pow2(a) <= Pow2(b)
    decreases b
  {
    if a < b { PowMono(a, b - 1); }
  }

  lemma ExponentIs(a: nat, k: nat)
    requires k > 0 && P52 * Pow2(k) <= a < P53 * Pow2(k)
    ensures Exponent(a) == k
  {
    var e := Exponent(a);
    assert Pow2(k) == 2 * Pow2(k - 1);
    PowMono(e, k - 1);
    var f := if e > 0 then e - 1 else 0;
    PowMono(k, f);
    assert e > 0 ==> Pow2(e) == 2 * Pow2(f);
  }

  // Order survives.
  lemma RoundTripMonotone(v: int, w: int)
    requires v <= w
    ensures RoundTrip(v) <= RoundTrip(w)
  {
    ToDoubleRounds(v);
    ToDoubleRounds(w);
    var d, e := ToDouble(v), ToDouble(w);
    assert Abs(v - d) <= Abs(v - e) && Abs(w - e) <= Abs(w - d);
  }

  // The error is at most 512.
  lemma RoundTripError(v: int)
    requires Int64(v)
    ensures Abs(RoundTrip(v) - v) <= 512
  {
    hide Pow2, Exponent, RoundAt, ToDouble, IsDouble, IsEven;
    ToDoubleRounds(v);
    if Exponent(Abs(v)) == 0 {
      SmallExponentIsSmall(v);
      SmallIsDouble(v);
    } else if v == MIN_INT64 {
      MinIsDouble();
    } else {
      LargeError(v);
      ClampError(ToDouble(v), v);
    }
  }

  lemma SmallExponentIsSmall(v: int)
    requires Exponent(Abs(v)) == 0
    ensures Abs(v) < P53
  {
  }

  lemma LargeError(v: int)
    requires MIN_INT64 < v <= MAX_INT64 && Exponent(Abs(v)) > 0
    ensures Abs(ToDouble(v) - v) <= 512
  {
    hide Pow2, Exponent, RoundAt, IsDouble, IsEven, Rounds;
    RoundAtNearest(v, Exponent(Abs(v)));
    UnitAtMost1024(v);
  }

  lemma ClampError(d: int, v: int)
    requires Int64(v) && Abs(d - v) <= 512
    ensures Abs(IntegerValue(d) - v) <= 512
  {
  }

  lemma UnitAtMost1024(v: int)
    requires MIN_INT64 < v <= MAX_INT64
    ensures Pow2(Exponent(Abs(v))) <= 1024
  {
    var k := Exponent(Abs(v));
    PowEleven();
    if k > 10 { PowMono(11, k); } else { PowMono(k, 10); }
  }

  // And 512 is reached: 2^62 + 512 is half way between two doubles.
  lemma ErrorIsReached()
    ensures RoundTrip(0x4000_0000_0000_0200) == 0x4000_0000_0000_0000
  {
    PowEleven();
    ExponentIs(0x4000_0000_0000_0200, 10);
  }
}
