/**
 Small integers as V8's headers encode them (internal/v8/include/v8-internal.h,
 v8-function-callback.h): the validity check by wrapped unsigned comparison, the
 tagging shift and its inverse, and ReturnValue::Set on integers.
 */
module Smis {
  import opened Options
  import Doubles

  const TWO8 := 0x100
  const TWO16 := 0x1_0000
  const TWO31 := 0x8000_0000
  const TWO32 := 0x1_0000_0000
  const TWO64 := 0x1_0000_0000_0000_0000

  // SmiTagging<4> on 32-bit and on pointer-compressed 64-bit platforms, and SmiTagging<8>
  datatype Platform = Smi31Word32 | Smi31Word64 | Smi32Word64

  // The integral types: 1, 2, 4 or 8 bytes, signed or unsigned.
  datatype IntType = IntType(bytes: nat, signed: bool)

  ghost predicate IsIntType(t: IntType) {
    t.bytes in {1, 2, 4, 8}
  }

  function Modulus(bytes: nat): nat {
    if bytes == 1 then TWO8 else if bytes == 2 then TWO16 else if bytes == 4 then TWO32 else TWO64
  }

  ghost predicate InType(v: int, t: IntType) {
    if t.signed then -(Modulus(t.bytes) / 2) <= v < Modulus(t.bytes) / 2 else 0 <= v < Modulus(t.bytes)
  }

  // 2 to the width of uintptr_t
  function Word(p: Platform): nat {
    if p.Smi31Word32? then TWO32 else TWO64
  }

  // reading an unsigned value of the given modulus as a signed one
  function AsSigned(u: int, m: nat): int {
    if u < m / 2 then u else u - m
  }

  /* ---- the code ---- */

  // kSmiMinValue: all bits set, shifted left by one less than the value size
  function SmiMin(p: Platform): int {
    var bits := if p.Smi32Word64? then TWO31 else 0x4000_0000;
    AsSigned(((Word(p) - 1) * bits) % Word(p), Word(p))
  }

  function SmiMax(p: Platform): int {
    -(SmiMin(p) + 1)
  }

  // the overload of IsValidSmi for type t
  predicate IsValidSmi(p: Platform, t: IntType, v: int) {
    if p.Smi32Word64? then
      (t.signed ==> -TWO31 <= v) && v <= TWO31 - 1
    else if t.signed then
      // uint64_t arithmetic for int64_t, uintptr_t arithmetic for everything else
      var m := if t.bytes == 8 then TWO64 else Word(p);
      (v % m - SmiMin(p) % m) % m <= (SmiMax(p) % m - SmiMin(p) % m) % m
    else
      v <= SmiMax(p)
  }

  // AddressToSmi(static_cast<Address>(value))
  function Tag(p: Platform, v: int): nat {
    var shift := if p.Smi32Word64? then TWO32 else 2;
    ((v % Word(p)) * shift) % Word(p)
  }

  function TryIntegralToSmi(p: Platform, t: IntType, v: int): Option<nat> {
    if IsValidSmi(p, t, v) then Some(Tag(p, v)) else None
  }

  // SmiToInt: shift right, sign extending
  function SmiToInt(p: Platform, a: nat): int {
    if p.Smi32Word64? then AsSigned(a % TWO64, TWO64) / TWO32
    else AsSigned(a % TWO32, TWO32) / 2
  }

  predicate HasHeapObjectTag(a: nat) {
    a % 4 == 1
  }

  /* ---- what it does ---- */

  ghost predicate InSmiRange(p: Platform, v: int) {
    if p.Smi32Word64? then -TWO31 <= v < TWO31 else -0x4000_0000 <= v < 0x4000_0000
  }

  lemma SmiBounds(p: Platform)
    ensures SmiMin(p) == if p.Smi32Word64? then -TWO31 else -0x4000_0000
    ensures SmiMax(p) == if p.Smi32Word64? then TWO31 - 1 else 0x3FFF_FFFF
  {
  }

  // One wrapped comparison decides membership of an interval.
  lemma WrappedComparison(v: int, lo: int, hi: int, m: nat)
    requires 0 < m && lo <= 0 <= hi && hi - lo < m / 2
    requires -(m / 2) <= v < m / 2 && -(m / 2) <= lo && hi < m / 2
    ensures (v % m - lo % m) % m <= (hi % m - lo % m) % m <==> lo <= v <= hi
  {
    ModDifference(v, lo, m);
    ModDifference(hi, lo, m);
  }

  lemma ModDifference(a: int, b: int, m: nat)
    requires 0 < m && -(m / 2) <= a < m / 2 && -(m / 2) <= b <= 0
    ensures (a % m - b % m) % m == if a >= b then a - b else a - b + m
  {
    ModShift(a, m);
    ModShift(b, m);
    var d := a % m - b % m;
    ModOf(d, if a >= b then a - b else a - b + m, m);
  }

  lemma ModShift(a: int, m: nat)
    requires 0 < m && 0 <= a + m && a < m
    ensures a % m == if a >= 0 then a else a + m
  {
    ModOf(a, if a >= 0 then a else a + m, m);
  }

  // r is the remainder of x if it is in range and differs from x by at most one modulus.
  lemma ModOf(x: int, r: int, m: nat)
    requires 0 < m && 0 <= r < m && (x == r || x == r + m || x == r - m)
    ensures x % m == r
  {
    var q := x / m;
    assert x == q * m + x % m;
    if x == r { Quotient(q, 0, m, x % m, r); }
    else if x == r + m { Quotient(q, 1, m, x % m, r); }
    else { Quotient(q, -1, m, x % m, r); }
  }

  lemma Quotient(q: int, k: int, m: nat, r: int, s: int)
    requires 0 < m && 0 <= r < m && 0 <= s < m && q * m + r == k * m + s
    ensures r == s
  {
    if q > k { Doubles.MulMono(k + 1, q, m); } else if q < k { Doubles.MulMono(q + 1, k, m); }
  }

  // The check succeeds exactly on the smi range, for every type and platform.
  lemma ValidExactlyInRange(p: Platform, t: IntType, v: int)
    requires IsIntType(t) && InType(v, t)
    ensures IsValidSmi(p, t, v) <==> InSmiRange(p, v)
  {
    SmiBounds(p);
    if !p.Smi32Word64? && t.signed {
      var m := if t.bytes == 8 then TWO64 else Word(p);
      WrappedComparison(v, SmiMin(p), SmiMax(p), m);
    }
  }

  // What was encoded comes back, and never looks like a pointer to a heap object.
  lemma TagRoundTrip(p: Platform, v: int)
    requires InSmiRange(p, v)
    ensures SmiToInt(p, Tag(p, v)) == v && Tag(p, v) % 2 == 0 && !HasHeapObjectTag(Tag(p, v))
    ensures Tag(p, v) < Word(p)
  {
    hide *;
    if p.Smi32Word64? { TagRoundTrip64(p, v); } else { TagRoundTrip31(p, v); }
  }

  lemma TagRoundTrip64(p: Platform, v: int)
    requires InSmiRange(p, v) && p.Smi32Word64?
    ensures SmiToInt(p, Tag(p, v)) == v && Tag(p, v) % 2 == 0 && !HasHeapObjectTag(Tag(p, v)) && Tag(p, v) < Word(p)
  {
    Tag64(v);
    var a := Tag(p, v);
    assert AsSigned(a, TWO64) == v * TWO32;
    ModShift(a, TWO64);
    ShiftDown(v, TWO32);
    FourTimes(a, if v >= 0 then v * 0x4000_0000 else v * 0x4000_0000 + 0x4000_0000_0000_0000);
  }

  lemma FourTimes(a: nat, q: int)
    requires a == 4 * q
    ensures a % 2 == 0 && !HasHeapObjectTag(a)
  {
    Doubles.MultipleMod(q, 4);
    Doubles.MultipleMod(2 * q, 2);
  }

  lemma EvenIsUntagged(a: nat)
    requires a % 2 == 0
    ensures !HasHeapObjectTag(a)
  {
  }

  lemma TagRoundTrip31(p: Platform, v: int)
    requires InSmiRange(p, v) && !p.Smi32Word64?
    ensures SmiToInt(p, Tag(p, v)) == v && Tag(p, v) % 2 == 0 && !HasHeapObjectTag(Tag(p, v)) && Tag(p, v) < Word(p)
  {
    Tag31(v, Word(p));
    Low32(v, Word(p));
    assert AsSigned(Tag(p, v) % TWO32, TWO32) == 2 * v;
    EvenIsUntagged(Tag(p, v));
  }

  lemma Low32(v: int, m: nat)
    requires -0x4000_0000 <= v < 0x4000_0000 && (m == TWO32 || m == TWO64)
    ensures (if v >= 0 then 2 * v else 2 * v + m) % TWO32 == if v >= 0 then 2 * v else 2 * v + TWO32
  {
  }

  lemma ShiftDown(v: int, u: nat)
    requires u > 0
    ensures (v * u) / u == v
  {
    Doubles.MultipleMod(v, u);
  }

  lemma Tag31(v: int, m: nat)
    requires -0x4000_0000 <= v < 0x4000_0000 && (m == TWO32 || m == TWO64)
    ensures ((v % m) * 2) % m == if v >= 0 then 2 * v else 2 * v + m
  {
    ModShift(v, m);
    ModOf((v % m) * 2, if v >= 0 then 2 * v else 2 * v + m, m);
  }

  lemma Tag64(v: int)
    requires -TWO31 <= v < TWO31
    ensures ((v % TWO64) * TWO32) % TWO64 == if v >= 0 then v * TWO32 else v * TWO32 + TWO64
  {
    ModShift(v, TWO64);
    assert ((v + TWO64) * TWO32) == v * TWO32 + TWO32 * TWO64;
  }

  // The tagged word, read as signed, is the value times 2 or 2^32, in every bit: a negative 31-bit integer fills
  // the upper half of a 64-bit word with ones.
  lemma TagIsShifted(p: Platform, v: int)
    requires InSmiRange(p, v)
    ensures AsSigned(Tag(p, v), Word(p)) == v * (if p.Smi32Word64? then TWO32 else 2)
  {
    if p.Smi32Word64? { Tag64(v); } else { Tag31(v, Word(p)); }
  }

  lemma SmiEncoding(p: Platform, t: IntType, v: int)
    requires IsIntType(t) && InType(v, t)
    ensures TryIntegralToSmi(p, t, v).Some? <==> InSmiRange(p, v)
    ensures var r := TryIntegralToSmi(p, t, v);
      r.Some? ==> SmiToInt(p, r.value) == v && r.value < Word(p) && r.value % 2 == 0 && !HasHeapObjectTag(r.value)
  {
    ValidExactlyInRange(p, t, v);
    if InSmiRange(p, v) { TagRoundTrip(p, v); }
  }

  /* ---- ReturnValue::Set ---- */

  // What the return slot holds: a tagged small integer, or a handle to a heap number.
  datatype Slot = Undefined | Tagged(a: nat) | HeapNumber(n: int)

  // The number JavaScript reads from the slot.
  function Read(p: Platform, s: Slot): Option<int> {
    match s
    case Undefined => None
    case Tagged(a) => Some(SmiToInt(p, a))
    case HeapNumber(n) => Some(n)
  }

  class ReturnValue {
    const platform: Platform
    var slot: Slot

    constructor (p: Platform)
      ensures platform == p && slot == Undefined
    {
      platform, slot := p, Undefined;
    }

    // The overloads for int16_t and uint16_t skip the check, those for 64-bit types go through a double;
    // Integer::New and NewFromUnsigned make a number of exactly i.
    method Set(t: IntType, i: int)
      requires t.bytes in {2, 4, 8} && InType(i, t)
      modifies this
      ensures Read(platform, slot) == Some(if t.bytes == 8 && !InSmiRange(platform, i) then Doubles.ToDouble(i) else i)
      ensures slot.Tagged? <==> InSmiRange(platform, i)
      ensures slot.Tagged? ==> !HasHeapObjectTag(slot.a)
    {
      SmiEncoding(platform, t, i);
      if t.bytes == 2 {
        slot := Tagged(Tag(platform, i));
        return;
      }
      var smi := TryIntegralToSmi(platform, t, i);
      if smi.Some? {
        slot := Tagged(smi.value);
        return;
      }
      slot := HeapNumber(if t.bytes == 8 then Doubles.ToDouble(i) else i);
    }
  }

  // JavaScript reads exactly what was set, for every type of up to 32 bits and every 64-bit integer of
  // magnitude up to 2^53.
  lemma SetIsExact(p: Platform, t: IntType, i: int)
    requires IsIntType(t) && InType(i, t) && (t.bytes == 8 ==> Doubles.Abs(i) <= Doubles.P53)
    ensures (if t.bytes == 8 && !InSmiRange(p, i) then Doubles.ToDouble(i) else i) == i
  {
    if t.bytes == 8 {
      Doubles.ToDoubleRounds(i);
      if Doubles.Abs(i) < Doubles.P53 { Doubles.SmallIsDouble(i); } else { Doubles.UnitsAreDoubles(i, 0); }
      assert Doubles.IsDouble(i);
    }
  }
}
