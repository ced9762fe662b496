/**
 Byte data across the boundary (primitives.go, value.go, internal/gv8.cc).  Data
 is copied into a fresh V8 backing store and out of one, and both directions pass
 the length as a 32-bit C int.
 */
module Bytes {

  type Byte = x: int | 0 <= x < 256

  // C.int(n), static_cast<int>(n)
  function CInt(n: nat): (r: int)
    ensures -0x8000_0000 <= r < 0x8000_0000 && (n - r) % 0x1_0000_0000 == 0
    ensures r <= n && (r == n <==> n < 0x8000_0000)
  {
    var low := n % 0x1_0000_0000;
    if low < 0x8000_0000 then low else low - 0x1_0000_0000
  }

  // the size of the backing store made for n bytes
  function StoreSize(n: nat): (s: nat)
    ensures s <= n
  {
    if CInt(n) > 0 then CInt(n) else 0
  }

  // An ArrayBuffer is a window on all of its backing store, an ArrayBufferView on a part of it.
  datatype JsValue =
    | ArrayBuffer(store: array<Byte>)
    | ArrayBufferView(store: array<Byte>, offset: nat, length: nat)
    | Other

  ghost predicate Fits(v: JsValue) {
    v.ArrayBufferView? ==> v.offset + v.length <= v.store.Length
  }

  // what JavaScript sees through v
  ghost function Window(v: JsValue): seq<Byte>
    requires Fits(v) && !v.Other?
    reads v.store
  {
    if v.ArrayBuffer? then v.store[..] else v.store[v.offset..v.offset + v.length]
  }

  // What Value.Bytes returns: nil, a slice, an error, or a panic in GoBytes.
  datatype Result = Nil | Slice(data: seq<Byte>) | NotABuffer | NegativeLength

  method Memcpy(to: array<Byte>, from: array<Byte>, start: nat, n: nat)
    requires n <= to.Length && start + n <= from.Length && to != from
    modifies to
    ensures to[..n] == from[start..start + n]
    ensures to[n..] == old(to[n..])
  {
    for i := 0 to n
      invariant to[..i] == from[start..start + i]
      invariant to[n..] == old(to[n..])
    {
      to[i] := from[start + i];
      assert to[..i + 1] == to[..i] + [from[start + i]];
    }
  }

  // GV8NewArrayBufferCopy, and the buffer of GV8NewUint8ArrayCopy; data is null if it is empty
  method NewBackingStore(data: array<Byte>) returns (store: array<Byte>)
    ensures fresh(store) && store[..] == data[..StoreSize(data.Length)]
  {
    var length := CInt(data.Length);
    var size := if length > 0 then length else 0;
    store := new Byte[size](_ => 0);
    if size > 0 {
      Memcpy(store, data, 0, size);
    }
    assert store[..] == store[..size];
  }

  // NewUint8ArrayCopy: a view on the whole new buffer
  method NewUint8ArrayCopy(data: array<Byte>) returns (v: JsValue)
    ensures v.ArrayBufferView? && fresh(v.store) && Fits(v) && Window(v) == data[..StoreSize(data.Length)]
  {
    var store := NewBackingStore(data);
    v := ArrayBufferView(store, 0, store.Length);
  }

  method NewArrayBufferCopy(data: array<Byte>) returns (v: JsValue)
    ensures v.ArrayBuffer? && fresh(v.store) && Fits(v) && Window(v) == data[..StoreSize(data.Length)]
  {
    var store := NewBackingStore(data);
    v := ArrayBuffer(store);
  }

  // what GoBytes makes of a copy whose length was cut to an int
  ghost function Received(bytes: seq<Byte>): Result {
    var n := CInt(|bytes|);
    if n == 0 then Nil else if n < 0 then NegativeLength else Slice(bytes[..n])
  }

  // Value.Bytes around GV8ValueBytes
  method ValueBytes(v: JsValue) returns (r: Result)
    requires Fits(v)
    ensures v.Other? ==> r == NotABuffer
    ensures !v.Other? ==> r == Received(Window(v))
  {
    var offset, length := 0, 0;
    match v {
      case ArrayBuffer(store) => length := store.Length;
      case ArrayBufferView(_, o, l) => offset, length := o, l;
      case Other => return NotABuffer;
    }
    var copy := new Byte[length](_ => 0);
    if length > 0 {
      Memcpy(copy, v.store, offset, length);
    }
    assert copy[..] == Window(v);
    var n := CInt(length);
    if n == 0 { return Nil; }
    if n < 0 { return NegativeLength; }
    return Slice(copy[..n]);
  }

  // Bytes returns what JavaScript sees, nil for nothing, exactly if the length fits an int.  Beyond, the low 32 bits
  // of the length count: it panics if they are negative, and otherwise returns that many bytes.
  lemma ReceivedExactly(bytes: seq<Byte>)
    ensures Received(bytes) == (if bytes == [] then Nil else Slice(bytes)) <==> |bytes| < 0x8000_0000
    ensures var low := |bytes| % 0x1_0000_0000;
      Received(bytes) == if low == 0 then Nil else if low >= 0x8000_0000 then NegativeLength else Slice(bytes[..low])
  {
    if |bytes| < 0x8000_0000 {
      assert bytes[..|bytes|] == bytes;
    } else if Received(bytes).Slice? {
      assert |Received(bytes).data| < |bytes|;
    }
  }

  // So a copy into JavaScript and back is the identity exactly for data below 2^31 bytes, and beyond
  // that it is never the data.
  lemma CopyRoundTrip(data: seq<Byte>)
    ensures Received(data[..StoreSize(|data|)]) == (if data == [] then Nil else Slice(data)) <==> |data| < 0x8000_0000
  {
    var size := StoreSize(|data|);
    var stored := data[..size];
    if |data| < 0x8000_0000 {
      assert stored == data;
      ReceivedExactly(data);
    } else if Received(stored).Slice? {
      assert |Received(stored).data| <= size < |data|;
    }
  }

  // Beyond the bound, the store holds max(0, the length read as a 32-bit int) bytes, and all of it comes back.
  lemma StoredPrefixComesBack(data: seq<Byte>)
    ensures StoreSize(|data|) == if |data| % 0x1_0000_0000 < 0x8000_0000 then |data| % 0x1_0000_0000 else 0
    ensures var size := StoreSize(|data|);
      Received(data[..size]) == if size == 0 then Nil else Slice(data[..size])
  {
    var size := StoreSize(|data|);
    assert |data[..size]| == size;
    ReceivedExactly(data[..size]);
  }

  // The whole way, on the heap.
  method CopyInAndOut(data: array<Byte>) returns (r: Result)
    ensures data.Length < 0x8000_0000 ==> r == if data.Length == 0 then Nil else Slice(data[..])
    ensures data.Length >= 0x8000_0000 ==> r != Slice(data[..])
    ensures data[..] == old(data[..])
  {
    var v := NewUint8ArrayCopy(data);
    CopyRoundTrip(data[..]);
    assert data[..StoreSize(data.Length)] == data[..][..StoreSize(data.Length)];
    r := ValueBytes(v);
  }
}
