/**
 V8's persistent handles (internal/v8/include/v8-persistent-handle.h) and gv8's
 use of them.  A handle is a slot that is empty or points at a storage cell of
 the isolate; Reset, Copy and the moves of Global rewrite it.
 */
module PersistentCells {
  import opened Options

  type Cell = nat      // 0 is the null slot
  type Js = int

  // PersistentBase
  class Persistent {
    var slot: Cell

    constructor ()
      ensures slot == 0
    {
      slot := 0;
    }
  }

  // The isolate's storage cells.  The ghost fields are history variables: the handle objects that exist,
  // the handle each cell was last stored in, and the number of cells whose handle went away without a Reset.
  class GlobalHandles {
    var cells: map<Cell, Js>
    var nextCell: Cell
    ghost var holders: set<Persistent>
    ghost var holder: map<Cell, Persistent>
    ghost var leaked: set<Cell>

    ghost predicate HolderSound(h: Persistent)
      reads this, h
    {
      h.slot != 0 ==> h.slot in holder && holder[h.slot] == h
    }

    ghost predicate CellSound(c: Cell)
      requires c in holder
      reads this, holders
    {
      holder[c] in holders && holder[c].slot == c
    }

    // Cells and non-empty handles correspond one to one, leaked cells apart.
    ghost predicate Linear()
      reads this, holders
    {
      && 0 < nextCell
      && (forall c {:trigger c in cells} :: c in cells ==> 0 < c < nextCell)
      && holder.Keys == cells.Keys - leaked && leaked <= cells.Keys
      && (forall h {:trigger h in holders} :: h in holders ==> HolderSound(h))
      && (forall c {:trigger c in holder} :: c in holder ==> CellSound(c))
    }

    ghost function Content(h: Persistent): Option<Js>
      reads this, h
    {
      if h.slot in cells then Some(cells[h.slot]) else None
    }

    constructor ()
      ensures Linear() && cells == map[] && holders == {} && leaked == {}
    {
      cells, nextCell := map[], 1;
      holders, holder, leaked := {}, map[], {};
    }

    // api_internal::GlobalizeReference and CopyGlobalReference, for the empty handle h
    method NewFor(js: Js, h: Persistent) returns (c: Cell)
      requires Linear() && h in holders && h.slot == 0
      modifies this, h
      ensures Linear() && h.slot == c == old(nextCell) && c !in old(cells) && cells == old(cells)[c := js]
      ensures holders == old(holders) && leaked == old(leaked)
    {
      c := nextCell;
      nextCell := c + 1;
      cells := cells[c := js];
      h.slot := c;
      holder := holder[c := h];
    }

    // A new, empty handle object.
    method Hold() returns (h: Persistent)
      requires Linear()
      modifies this`holders
      ensures Linear() && fresh(h) && h.slot == 0 && holders == old(holders) + {h}
    {
      h := new Persistent();
      holders := holders + {h};
    }

    // PersistentBase::Reset(): DisposeGlobal, then Clear
    method Reset(h: Persistent)
      requires Linear() && h in holders
      modifies this, h
      ensures Linear() && h.slot == 0 && cells == old(cells) - {old(h.slot)}
      ensures holders == old(holders) && leaked == old(leaked) && nextCell == old(nextCell)
    {
      if h.slot == 0 { return; }
      assert HolderSound(h);
      cells := cells - {h.slot};
      holder := holder - {h.slot};
      h.slot := 0;
    }

    // PersistentBase::Reset(isolate, Local)
    method ResetTo(h: Persistent, other: Option<Js>)
      requires Linear() && h in holders
      modifies this, h
      ensures Linear() && Content(h) == other
      ensures other.Some? ==> h.slot !in old(cells) && cells == (old(cells) - {old(h.slot)})[h.slot := other.value]
      ensures holders == old(holders) && leaked == old(leaked)
    {
      Reset(h);
      if other.None? { return; }
      var c := NewFor(other.value, h);
    }

    // Persistent::Copy, and Reset(isolate, PersistentBase): the source keeps its cell and the target gets
    // one of its own with the same contents, exactly unless a non-empty handle is copied to itself.
    method Copy(h: Persistent, that: Persistent)
      requires Linear() && h in holders && that in holders
      modifies this, h
      ensures Linear() && holders == old(holders) && leaked == old(leaked)
      ensures Content(h) == old(Content(that)) <==> h != that || old(that.slot) == 0
      ensures h == that ==> h.slot == 0
      ensures h != that ==> that.slot == old(that.slot) && Content(that) == old(Content(that))
      ensures h == that || old(Content(that)) == None ==> cells == old(cells) - {old(h.slot)}
      ensures h != that && old(Content(that)).Some? ==>
        h.slot !in old(cells) && cells == (old(cells) - {old(h.slot)})[h.slot := old(Content(that)).value]
    {
      assert HolderSound(that) && HolderSound(h);
      Reset(h);
      if that.slot == 0 { return; }
      assert HolderSound(that);
      var c := NewFor(cells[that.slot], h);
    }

    // Global(Global&&): the cell changes hands
    method Move(other: Persistent) returns (h: Persistent)
      requires Linear() && other in holders
      modifies this, other
      ensures Linear() && fresh(h) && holders == old(holders) + {h} && leaked == old(leaked) && cells == old(cells)
      ensures h.slot == old(other.slot) && other.slot == 0
    {
      assert HolderSound(other);
      h := new Persistent();
      h.slot := other.slot;
      holders := holders + {h};
      if other.slot != 0 {
        holder := holder[h.slot := h];     // MoveGlobalReference
        other.slot := 0;
      }
    }

    // Global::operator=(Global&&): self-assignment is harmless
    method MoveAssign(h: Persistent, rhs: Persistent)
      requires Linear() && h in holders && rhs in holders
      modifies this, h, rhs
      ensures Linear() && holders == old(holders) && leaked == old(leaked)
      ensures h == rhs ==> cells == old(cells) && h.slot == old(h.slot)
      ensures h != rhs ==> h.slot == old(rhs.slot) && rhs.slot == 0 && cells == old(cells) - {old(h.slot)}
    {
      if h != rhs {
        assert HolderSound(rhs) && HolderSound(h);
        Reset(h);
        assert HolderSound(rhs);
        if rhs.slot != 0 {
          h.slot := rhs.slot;
          holder := holder[h.slot := h];
          rhs.slot := 0;
        }
      }
    }

    // The end of a Global: its destructor resets.
    method DestroyGlobal(h: Persistent)
      requires Linear() && h in holders
      modifies this, h
      ensures Linear() && holders == old(holders) - {h} && leaked == old(leaked) && cells == old(cells) - {old(h.slot)}
    {
      Reset(h);
      holders := holders - {h};
    }

    // The end of a Persistent: kResetInDestructor is false, so a cell it still holds is leaked.
    method DestroyPersistent(h: Persistent)
      requires Linear() && h in holders
      modifies this
      ensures Linear() && holders == old(holders) - {h} && cells == old(cells)
      ensures leaked == old(leaked) + (if h.slot == 0 then {} else {h.slot})
      ensures h.slot != 0 ==> h.slot !in old(leaked) && h.slot in cells
    {
      assert HolderSound(h);
      if h.slot != 0 {
        leaked := leaked + {h.slot};
        holder := holder - {h.slot};
      }
      holders := holders - {h};
    }
  }

  /* ---- gv8's native structs ---- */

  // Every handle object in existence holds a cell, as gv8_value, gv8_module, gv8_ctx and the
  // unbound scripts do from construction to release.
  ghost predicate AllFull(g: GlobalHandles)
    reads g, g.holders
  {
    forall h {:trigger h in g.holders} :: h in g.holders ==> h.slot != 0
  }

  // new gv8_value, gv8_module, gv8_unbound_script or gv8_ctx, and ptr.Reset(iso, value)
  method Wrap(g: GlobalHandles, js: Js) returns (h: Persistent)
    requires g.Linear() && AllFull(g)
    modifies g
    ensures g.Linear() && AllFull(g) && fresh(h) && g.holders == old(g.holders) + {h} && g.leaked == old(g.leaked)
    ensures g.Content(h) == Some(js)
  {
    h := g.Hold();
    g.ResetTo(h, Some(js));
    assert g.HolderSound(h);
  }

  // GV8ValueRelease, GV8ModuleRelease, GV8UnboundScriptRelease: ptr.Reset() and delete
  method Release(g: GlobalHandles, h: Persistent)
    requires g.Linear() && AllFull(g) && h in g.holders
    modifies g, h
    ensures g.Linear() && AllFull(g) && g.holders == old(g.holders) - {h} && g.leaked == old(g.leaked)
    ensures g.cells == old(g.cells) - {old(h.slot)}
  {
    g.Reset(h);
    g.DestroyPersistent(h);
  }

  // The referrer of ResolveModuleCallback lives on the stack and is never reset: one cell is lost per call.
  method ResolveModuleReferrer(g: GlobalHandles, referrer: Js) returns (lost: Cell)
    requires g.Linear() && AllFull(g)
    modifies g
    ensures g.Linear() && AllFull(g) && g.holders == old(g.holders)
    ensures lost !in old(g.cells) && g.leaked == old(g.leaked) + {lost} && g.cells == old(g.cells)[lost := referrer]
  {
    var ref := g.Hold();
    g.ResetTo(ref, Some(referrer));
    assert g.HolderSound(ref);
    assert old(g.cells) - {0} == old(g.cells);
    lost := ref.slot;
    g.DestroyPersistent(ref);
  }

  // A one-to-one map has as many keys as values.
  lemma {:induction false} SameSize(m: map<Cell, Persistent>, s: set<Persistent>)
    requires forall c {:trigger c in m} :: c in m ==> m[c] in s
    requires forall c, d {:trigger m[c], m[d]} :: c in m && d in m && m[c] == m[d] ==> c == d
    requires forall h {:trigger h in s} :: h in s ==> exists c :: c in m && m[c] == h
    ensures |m.Keys| == |s|
    decreases |s|
  {
    if s == {} {
      assert m.Keys == {};
    } else {
      var h :| h in s;
      var c :| c in m && m[c] == h;
      var m1 := m - {c};
      forall k {:trigger k in s - {h}} | k in s - {h} ensures exists d :: d in m1 && m1[d] == k {
        var d :| d in m && m[d] == k;
        assert d in m1 && m1[d] == k;
      }
      SameSize(m1, s - {h});
      assert m.Keys == m1.Keys + {c};
    }
  }

  // One cell for each native struct that exists, and one for each module request ever resolved.
  lemma CellCount(g: GlobalHandles)
    requires g.Linear() && AllFull(g)
    ensures |g.cells| == |g.holders| + |g.leaked|
  {
    forall h {:trigger h in g.holders} | h in g.holders ensures exists c :: c in g.holder && g.holder[c] == h {
      assert g.HolderSound(h);
      assert h.slot in g.holder;
    }
    forall c, d {:trigger g.holder[c], g.holder[d]} | c in g.holder && d in g.holder && g.holder[c] == g.holder[d] ensures c == d {
      assert g.CellSound(c) && g.CellSound(d);
    }
    forall c {:trigger c in g.holder} | c in g.holder ensures g.holder[c] in g.holders { assert g.CellSound(c); }
    SameSize(g.holder, g.holders);
    assert g.cells.Keys == g.holder.Keys + g.leaked;
  }

  // Releasing every struct, as dispose does for the values of a context, leaves only the cells of referrers.
  method ReleaseAll(g: GlobalHandles, hs: seq<Persistent>)
    requires g.Linear() && AllFull(g)
    requires forall h :: h in hs <==> h in g.holders
    requires forall i, j :: 0 <= i < j < |hs| ==> hs[i] != hs[j]
    modifies g, g.holders
    ensures g.Linear() && g.holders == {} && g.leaked == old(g.leaked) && g.cells.Keys == g.leaked
  {
    var k := 0;
    while k < |hs|
      invariant 0 <= k <= |hs|
      invariant g.Linear() && AllFull(g) && g.leaked == old(g.leaked) && g.holders <= old(g.holders)
      invariant forall h :: h in hs[k..] <==> h in g.holders
    {
      Release(g, hs[k]);
      k := k + 1;
    }
    forall c {:trigger c in g.holder} ensures c !in g.holder {
      assert c in g.holder ==> g.CellSound(c);
    }
    assert g.holder.Keys == {};
    forall c {:trigger c in g.cells} | c in g.cells.Keys ensures c in g.leaked {
      assert c !in g.holder.Keys;
    }
  }
}
