/**
 The global tables of contexts and host functions (context.go, host.go), and how
 native code refers to their entries: by an id that crosses the boundary as a
 32-bit C int.
 */
module Registry {
  import opened Options

  type Entry = nat     // the identity of a Go context or host function

  // C.int(x), and int(x) on the way back
  function CInt(x: int): (r: int)
    ensures -0x8000_0000 <= r < 0x8000_0000 && (x - r) % 0x1_0000_0000 == 0
  {
    var low := x % 0x1_0000_0000;
    if low < 0x8000_0000 then low else low - 0x1_0000_0000
  }

  function Find(refs: map<int, Entry>, id: int): Option<Entry> {
    if id in refs then Some(refs[id]) else None
  }

  function Elems(s: seq<int>): set<int> {
    set x | x in s
  }

  // `issued` remembers every entry ever made; ids count up from 1.
  ghost predicate Sound(refs: map<int, Entry>, sequence: int, issued: map<int, Entry>) {
    && 0 <= sequence
    && (forall id {:trigger id in issued} :: id in issued ==> 0 < id <= sequence)
    && (forall id {:trigger id in refs} :: id in refs ==> id in issued && refs[id] == issued[id])
  }

  class Table {
    var refs: map<int, Entry>
    var sequence: int
    ghost var issued: map<int, Entry>

    ghost predicate Valid()
      reads this
    {
      Sound(refs, sequence, issued)
    }

    constructor ()
      ensures Valid() && refs == map[] && sequence == 0 && issued == map[]
    {
      refs, sequence, issued := map[], 0, map[];
    }

    // the first half of NewContext: reserve a ref
    method Reserve() returns (id: int)
      requires Valid()
      modifies this
      ensures Valid() && id == old(sequence) + 1 && sequence == id && id !in issued
      ensures refs == old(refs) && issued == old(issued)
    {
      sequence := sequence + 1;
      return sequence;
    }

    // setContext
    method Set(id: int, x: Entry)
      requires Valid() && 0 < id <= sequence && id !in issued
      modifies this
      ensures Valid() && refs == old(refs)[id := x] && issued == old(issued)[id := x] && sequence == old(sequence)
    {
      refs := refs[id := x];
      issued := issued[id := x];
    }

    // registerHostFunction: an id is handed out once, ever
    method Register(x: Entry) returns (id: int)
      requires Valid()
      modifies this
      ensures Valid() && id !in old(issued) && issued == old(issued)[id := x]
      ensures id == old(sequence) + 1 && sequence == id && refs == old(refs)[id := x]
    {
      id := Reserve();
      Set(id, x);
    }

    // unregisterHostFunctions, deleteContext
    method Delete(ids: seq<int>)
      requires Valid()
      modifies this
      ensures Valid() && refs == old(refs) - Elems(ids) && issued == old(issued) && sequence == old(sequence)
    {
      if |ids| == 0 { return; }
      var i := 0;
      while i < |ids|
        invariant 0 <= i <= |ids|
        invariant Valid() && refs == old(refs) - Elems(ids[..i]) && issued == old(issued) && sequence == old(sequence)
      {
        refs := refs - {ids[i]};
        assert Elems(ids[..i + 1]) == Elems(ids[..i]) + {ids[i]};
        i := i + 1;
      }
      assert ids[..i] == ids;
    }

    // getContext, lookupHostFunction
    method Lookup(id: int) returns (r: Option<Entry>)
      ensures r == Find(refs, id)
    {
      if id in refs { return Some(refs[id]); }
      return None;
    }
  }

  // What a native callback that was made for `id` finds.
  function Resolve(refs: map<int, Entry>, id: int): Option<Entry> {
    Find(refs, CInt(id))
  }

  lemma CIntExact(x: int)
    requires x > 0
    ensures CInt(x) == x <==> x < 0x8000_0000
  {
  }

  // While the counter fits an int, a callback finds the very entry it was made for, or nothing.
  lemma CallbackFindsItsOwn(refs: map<int, Entry>, sequence: int, issued: map<int, Entry>, id: int)
    requires Sound(refs, sequence, issued) && id in issued && sequence < 0x8000_0000
    ensures Resolve(refs, id) == None || Resolve(refs, id) == Some(issued[id])
    ensures id in refs ==> Resolve(refs, id) == Some(issued[id])
  {
    CIntExact(id);
  }

  // Resolving `id` is right in this table: its own entry, or none.
  ghost predicate Right(refs: map<int, Entry>, issued: map<int, Entry>, id: int) {
    id in issued ==> Resolve(refs, id) == None || Resolve(refs, id) == Some(issued[id])
  }

  // Beyond that, exactly the ids whose low 32 bits read as a positive number other than themselves can
  // be mistaken for another entry.
  lemma MistakenIdsExactly(id: int)
    requires id > 0
    ensures (forall refs, sequence, issued :: Sound(refs, sequence, issued) ==> Right(refs, issued, id))
       <==> id < 0x8000_0000 || CInt(id) <= 0
  {
    CIntExact(id);
    if id < 0x8000_0000 || CInt(id) <= 0 {
      forall refs, sequence, issued | Sound(refs, sequence, issued) ensures Right(refs, issued, id) {
        assert CInt(id) <= 0 ==> CInt(id) !in issued;
      }
    } else {
      var both := map[CInt(id) := 7, id := 8];
      assert Sound(both, id, both) by { assert CInt(id) <= id; }
      assert !Right(both, both, id);
    }
  }

  // Id 2^32 + 1 is taken for id 1.
  lemma FirstMistake()
    ensures Resolve(map[1 := 7, 0x1_0000_0001 := 8], 0x1_0000_0001) == Some(7)
  {
    assert CInt(0x1_0000_0001) == 1;
  }
}
