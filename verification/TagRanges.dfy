/**
 Type-tagged table entries (internal/v8/include/v8-sandbox.h, v8-internal.h).  An
 entry holds a 48-bit payload, a 15-bit tag and a mark bit; the reader checks the
 tag against a range without separating tag and mark bit.
 */
module TagRanges {

  const TWO16 := 0x1_0000
  const TWO32 := 0x1_0000_0000
  const TWO64 := 0x1_0000_0000_0000_0000

  // TagRange: two uint16_t
  datatype TagRange = TagRange(first: nat, last: nat)

  ghost predicate IsRange(r: TagRange) {
    r.first < TWO16 && r.last < TWO16
  }

  /* ---- the code ---- */

  // TagRange::Contains, in uint32_t arithmetic
  predicate Contains(r: TagRange, tag: nat) {
    (tag - r.first) % TWO32 <= (r.last - r.first) % TWO32
  }

  // ReadCppHeapPointerField, from the loaded entry on
  function ReadEntry(entry: nat, r: TagRange): nat {
    var actual := entry % TWO16;               // static_cast<uint16_t>
    var first := (r.first * 2) % TWO32;
    var last := ((r.last * 2) % TWO32 + 1) % TWO32;
    if actual >= first && actual <= last then entry / TWO16 else 0
  }

  /* ---- what an entry means ---- */

  function Encode(payload: nat, tag: nat, mark: bool): nat {
    payload * TWO16 + tag * 2 + (if mark then 1 else 0)
  }

  function TagOf(entry: nat): nat {
    (entry % TWO16) / 2
  }

  function PayloadOf(entry: nat): nat {
    entry / TWO16
  }

  // The reader the comment in the header describes: check the tag, then return the payload or null.
  function SimpleRead(entry: nat, r: TagRange): nat {
    if Contains(r, TagOf(entry)) then PayloadOf(entry) else 0
  }

  // Every 64-bit entry is the encoding of its parts.
  lemma EntryParts(entry: nat)
    requires entry < TWO64
    ensures entry == Encode(PayloadOf(entry), TagOf(entry), entry % 2 == 1)
    ensures TagOf(entry) < 0x8000 && PayloadOf(entry) < 0x1_0000_0000_0000
  {
    var low := entry % TWO16;
    assert entry == (entry / TWO16) * TWO16 + low;
    assert low == 2 * (low / 2) + low % 2;
    Parity(entry, (entry / TWO16) * 0x8000 + low / 2, low % 2);
  }

  lemma Parity(x: int, half: int, r: int)
    requires x == 2 * half + r && 0 <= r < 2
    ensures x % 2 == r
  {
  }

  lemma EncodedParts(payload: nat, tag: nat, mark: bool)
    requires tag < 0x8000
    ensures PayloadOf(Encode(payload, tag, mark)) == payload && TagOf(Encode(payload, tag, mark)) == tag
  {
    var low := tag * 2 + (if mark then 1 else 0);
    assert Encode(payload, tag, mark) == payload * TWO16 + low && 0 <= low < TWO16;
  }

  lemma ContainsIs(r: TagRange, tag: nat)
    requires IsRange(r) && tag < TWO16
    ensures Contains(r, tag) <==> if r.first <= r.last then r.first <= tag <= r.last else r.first <= tag || tag <= r.last
  {
  }

  // Shifting the range and letting the last tag absorb the mark bit is the same as comparing tags.
  lemma ShiftedCheck(entry: nat, r: TagRange)
    requires IsRange(r)
    ensures ReadEntry(entry, r) == if r.first <= TagOf(entry) <= r.last then PayloadOf(entry) else 0
  {
    var low := entry % TWO16;
    assert low == 2 * (low / 2) + low % 2;
  }

  // The fast check agrees with Contains on every entry, for either mark bit, exactly for ranges that
  // are in order.
  lemma FastCheckRefinesSimple(r: TagRange)
    requires IsRange(r)
    ensures r.first <= r.last <==> forall entry: nat :: entry < TWO64 ==> ReadEntry(entry, r) == SimpleRead(entry, r)
  {
    if r.first <= r.last {
      forall entry: nat | entry < TWO64 ensures ReadEntry(entry, r) == SimpleRead(entry, r) {
        ShiftedCheck(entry, r);
        ContainsIs(r, TagOf(entry));
      }
    } else {
      var entry := Encode(1, 0, false);
      EncodedParts(1, 0, false);
      ShiftedCheck(entry, r);
      ContainsIs(r, 0);
      assert ReadEntry(entry, r) != SimpleRead(entry, r);
    }
  }

  // What was stored under a tag of the range is read back, whatever the marker does to the entry, and a
  // pointer stored under any other tag is not.
  lemma ReadBack(payload: nat, tag: nat, mark: bool, r: TagRange)
    requires IsRange(r) && tag < 0x8000
    ensures ReadEntry(Encode(payload, tag, mark), r) == if r.first <= tag <= r.last then payload else 0
  {
    EncodedParts(payload, tag, mark);
    ShiftedCheck(Encode(payload, tag, mark), r);
  }
}
