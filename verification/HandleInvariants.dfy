/** Every primitive of the handle heap keeps its invariant. */
module HandleInvariants {
  import opened Handles

  lemma Parts(w: World, b: Busy)
    requires Inv(w, b)
    ensures NativeInv(w.heap, w.nctxs, b) && ContextInv(w) && ValueInv(w) && SerialInv(w.heap, w.nextSerial, w.freed)
    ensures forall c {:trigger c in b.ctxs} :: c in b.ctxs ==> Open(w, c)
  {
    hide NativeInv, ContextInv, ValueInv, SerialInv, Open;
  }

  lemma Assemble(w: World, b: Busy)
    requires NativeInv(w.heap, w.nctxs, b) && ContextInv(w) && ValueInv(w)
    requires SerialInv(w.heap, w.nextSerial, w.freed) && |w.freed| + |w.heap| == w.nextSerial
    requires !w.fault && !w.rogue && forall c :: c in b.ctxs ==> Open(w, c)
    ensures Inv(w, b)
  {
    hide NativeInv, ContextInv, ValueInv, SerialInv, Open;
  }

  /* ---- frames ---- */

  ghost predicate SameGo(w: World, w': World) {
    GoUnchanged(w, w') && w'.fault == w.fault
  }

  ghost predicate SameNative(w: World, w': World) {
    && w'.heap == w.heap && w'.nctxs == w.nctxs && w'.nextSerial == w.nextSerial && w'.freed == w.freed
  }

  lemma ContextFrame(w: World, w': World)
    requires ContextInv(w) && SameGo(w, w')
    requires w'.nctxs.Keys == w.nctxs.Keys
    requires forall a :: a in w.nctxs ==> w'.nctxs[a].ref == w.nctxs[a].ref
    ensures ContextInv(w')
  {
  }

  // Changing only the live set of one open context.
  lemma LiveUpdateKeepsRest(w: World, c: CtxRef, live: set<Ref>)
    requires ContextInv(w) && c in w.ctxs && (w.ctxs[c].closed ==> live == {})
    ensures var ctxs' := w.ctxs[c := w.ctxs[c].(live := live)];
      LinkInv(w.nctxs, ctxs', w.ctxSeq) && FnInv(ctxs', w.fns, w.fnSeq) && MadeInv(w.functions, ctxs', w.fns, w.fnSeq)
  {
    var ctxs' := w.ctxs[c := w.ctxs[c].(live := live)];
    forall d, id | d in ctxs' && id in ctxs'[d].fns ensures id <= w.fnSeq && (id in w.fns ==> w.fns[id] == d) {
      assert id in w.ctxs[d].fns;
    }
  }

  lemma ValueFrame(w: World, w': World)
    requires ValueInv(w) && SameGo(w, w')
    requires forall r :: r in w.vals && r !in w.orphans && w.vals[r].ptr in w.heap ==>
      w.vals[r].ptr in w'.heap && w'.heap[w.vals[r].ptr] == w.heap[w.vals[r].ptr]
    ensures ValueInv(w')
  {
    forall r | r in w'.vals && r !in w'.orphans && w'.vals[r].ptr != 0 ensures Backed(w'.vals[r], r, w'.heap, w'.ctxs) {
      assert Backed(w.vals[r], r, w.heap, w.ctxs);
    }
    forall r, s, q | q != 0 && Owns(w', r, q) && Owns(w', s, q) ensures r == s {
      assert Owns(w, r, q) && Owns(w, s, q);
    }
  }

  // Allocating one cell keeps the serial numbers unique and the count balanced.
  lemma AllocKeepsSerials(w: World, w': World, p: Addr)
    requires SerialInv(w.heap, w.nextSerial, w.freed) && |w.freed| + |w.heap| == w.nextSerial
    requires p !in w.heap && p in w'.heap
    requires w'.heap == w.heap[p := w'.heap[p]] && w'.heap[p].serial == w.nextSerial
    requires w'.nextSerial == w.nextSerial + 1 && w'.freed == w.freed
    ensures SerialInv(w'.heap, w'.nextSerial, w'.freed) && |w'.freed| + |w'.heap| == w'.nextSerial
  {
    assert w'.heap.Keys == w.heap.Keys + {p};
    assert |w'.heap| == |w.heap| + 1;
    SerialsAfterAlloc(w.heap, w.nextSerial, w.freed, p, w'.heap[p]);
  }

  lemma SerialsAfterAlloc(heap: map<Addr, NativeValue>, nextSerial: nat, freed: multiset<nat>, p: Addr, cell: NativeValue)
    requires SerialInv(heap, nextSerial, freed) && p !in heap && cell.serial == nextSerial
    ensures SerialInv(heap[p := cell], nextSerial + 1, freed)
  {
    var heap' := heap[p := cell];
    assert freed[nextSerial] == 0;
    forall q, q', s | HasSerial(heap', q, s) && HasSerial(heap', q', s) ensures q == q' {
      if q != p && q' != p { assert HasSerial(heap, q, s) && HasSerial(heap, q', s); }
    }
  }

  // Deleting one allocated cell keeps them too.
  lemma FreeKeepsSerials(w: World, w': World, p: Addr)
    requires SerialInv(w.heap, w.nextSerial, w.freed) && |w.freed| + |w.heap| == w.nextSerial
    requires p in w.heap
    requires w'.heap == w.heap - {p} && w'.nextSerial == w.nextSerial
    requires w'.freed == w.freed + multiset{w.heap[p].serial}
    ensures SerialInv(w'.heap, w'.nextSerial, w'.freed) && |w'.freed| + |w'.heap| == w'.nextSerial
  {
    forall q | q in w'.heap ensures w'.heap[q].serial < w'.nextSerial && w'.freed[w'.heap[q].serial] == 0 {
      if w.heap[q].serial == w.heap[p].serial {
        assert HasSerial(w.heap, q, w.heap[p].serial) && HasSerial(w.heap, p, w.heap[p].serial);
      }
    }
    forall q, q', s | HasSerial(w'.heap, q, s) && HasSerial(w'.heap, q', s) ensures q == q' {
      assert HasSerial(w.heap, q, s) && HasSerial(w.heap, q', s);
    }
    assert w'.heap.Keys == w.heap.Keys - {p};
  }

  /* ---- allocation ---- */

  lemma WrapKeepsIndex(w: World, b: Busy, ca: Addr, js: Js, hint: Addr)
    requires NativeInv(w.heap, w.nctxs, b) && ca in w.nctxs
    ensures var (w', p) := Wrap(w, ca, js, hint);
      NativeInv(w'.heap, w'.nctxs, b)
  {
    var (w', p) := Wrap(w, ca, js, hint);
    forall a, id | a in w'.nctxs && id in w'.nctxs[a].values
      ensures 0 < id <= w'.nctxs[a].nextId && Indexed(w'.heap, w'.nctxs[a].values[id], a, id)
    {
      if a != ca || id != w.nctxs[ca].nextId + 1 { assert id in w.nctxs[a].values; }
    }
    forall q | q in w'.heap ensures CellSound(w'.heap[q], q, w'.nctxs, b) {
      if q != p { assert CellSound(w.heap[q], q, w.nctxs, b); }
    }
  }

  lemma WrapKeepsInv(w: World, b: Busy, ca: Addr, js: Js, hint: Addr)
    requires Inv(w, b) && ca in w.nctxs
    ensures var (w', p) := Wrap(w, ca, js, hint);
      && Inv(w', b)
      && p != 0 && p !in w.heap && p in w'.heap && w'.heap == w.heap[p := w'.heap[p]]
      && w'.heap[p].id != 0 && w'.heap[p].ctx == ca && w'.heap[p].js == js
      && !Owned(w', p)
      && SameGo(w, w')
  {
    var (w', p) := Wrap(w, ca, js, hint);
    WrapKeepsIndex(w, b, ca, js, hint);
    ContextFrame(w, w');
    ValueFrame(w, w');
    AllocKeepsSerials(w, w', p);
    FreshUnowned(w, w', p);
  }

  lemma FreshUnowned(w: World, w': World, p: Addr)
    requires ValueInv(w) && SameGo(w, w') && p !in w.heap && p != 0
    ensures !Owned(w', p)
  {
    forall r ensures !Owns(w', r, p) {}
  }

  lemma LooseKeepsIndex(heap: map<Addr, NativeValue>, nctxs: map<Addr, NativeCtx>, b: Busy, p: Addr, cell: NativeValue)
    requires NativeInv(heap, nctxs, b) && p !in heap && p != 0
    requires cell.id == 0 && cell.ctx in nctxs && nctxs[cell.ctx].ref in b.ctxs
    ensures NativeInv(heap[p := cell], nctxs, b)
  {
  }

  lemma WrapBorrowedKeepsInv(w: World, b: Busy, ca: Addr, js: Js, hint: Addr)
    requires Inv(w, b) && ca in w.nctxs && w.nctxs[ca].ref in b.ctxs
    ensures var (w', p) := WrapBorrowed(w, ca, js, hint);
      && Inv(w', b)
      && p != 0 && p !in w.heap && p in w'.heap && w'.heap == w.heap[p := w'.heap[p]]
      && w'.heap[p].id == 0 && w'.heap[p].ctx == ca && w'.heap[p].js == js
      && !Owned(w', p)
      && SameGo(w, w') && w'.nctxs == w.nctxs
  {
    var (w', p) := WrapBorrowed(w, ca, js, hint);
    LooseKeepsIndex(w.heap, w.nctxs, b, p, w'.heap[p]);
    ContextFrame(w, w');
    ValueFrame(w, w');
    AllocKeepsSerials(w, w', p);
    FreshUnowned(w, w', p);
  }

  /* ---- deletion ---- */

  // the native contexts after the cell at p has been taken out of its index
  ghost function Unindexed(heap: map<Addr, NativeValue>, nctxs: map<Addr, NativeCtx>, p: Addr): map<Addr, NativeCtx>
    requires p in heap && heap[p].ctx in nctxs
  {
    var n := nctxs[heap[p].ctx];
    if heap[p].id == 0 then nctxs else nctxs[heap[p].ctx := n.(values := n.values - {heap[p].id})]
  }

  lemma UnindexKeepsIndex(heap: map<Addr, NativeValue>, nctxs: map<Addr, NativeCtx>, b: Busy, p: Addr)
    requires NativeInv(heap, nctxs, b) && p in heap && heap[p].ctx in nctxs
    ensures NativeInv(heap - {p}, Unindexed(heap, nctxs, p), b)
  {
    var heap', nctxs' := heap - {p}, Unindexed(heap, nctxs, p);
    assert CellSound(heap[p], p, nctxs, b);
    forall a, id | a in nctxs' && id in nctxs'[a].values
      ensures 0 < id <= nctxs'[a].nextId && Indexed(heap', nctxs'[a].values[id], a, id)
    {
      assert id in nctxs[a].values;
      assert Indexed(heap, nctxs[a].values[id], a, id);
    }
    forall q | q in heap' ensures CellSound(heap'[q], q, nctxs', b) {
      assert CellSound(heap[q], q, nctxs, b);
    }
  }

  lemma NativeReleaseShape(w: World, b: Busy, p: Addr)
    requires NativeInv(w.heap, w.nctxs, b) && p in w.heap
    ensures var w' := NativeRelease(w, p);
      && SameGo(w, w') && w'.heap == w.heap - {p} && w'.nextSerial == w.nextSerial
      && w'.freed == w.freed + multiset{w.heap[p].serial}
      && w.heap[p].ctx in w.nctxs && w'.nctxs == Unindexed(w.heap, w.nctxs, p)
      && w'.nctxs.Keys == w.nctxs.Keys
      && forall a {:trigger a in w.nctxs} :: a in w.nctxs ==> w'.nctxs[a].ref == w.nctxs[a].ref
  {
    assert CellSound(w.heap[p], p, w.nctxs, b);
  }

  lemma NativeReleaseKeepsNative(w: World, b: Busy, p: Addr)
    requires NativeInv(w.heap, w.nctxs, b) && p in w.heap
    requires SerialInv(w.heap, w.nextSerial, w.freed) && |w.freed| + |w.heap| == w.nextSerial
    ensures var w' := NativeRelease(w, p);
      && NativeInv(w'.heap, w'.nctxs, b)
      && SerialInv(w'.heap, w'.nextSerial, w'.freed) && |w'.freed| + |w'.heap| == w'.nextSerial
  {
    NativeReleaseShape(w, b, p);
    UnindexKeepsIndex(w.heap, w.nctxs, b, p);
    FreeKeepsSerials(w, NativeRelease(w, p), p);
  }

  // Deleting a cell that no wrapper relies on.
  lemma NativeReleaseKeepsInv(w: World, b: Busy, p: Addr)
    requires Inv(w, b) && p in w.heap
    requires forall r {:trigger r in w.vals} :: r in w.vals && r !in w.orphans ==> w.vals[r].ptr != p
    ensures var w' := NativeRelease(w, p);
      Inv(w', b) && w'.heap == w.heap - {p} && SameGo(w, w')
  {
    NativeReleaseShape(w, b, p);
    NativeReleaseKeepsNative(w, b, p);
    NativeReleaseKeepsGo(w, NativeRelease(w, p), p);
  }

  lemma NativeReleaseKeepsGo(w: World, w': World, p: Addr)
    requires ContextInv(w) && ValueInv(w) && SameGo(w, w') && p in w.heap && w'.heap == w.heap - {p}
    requires w'.nctxs.Keys == w.nctxs.Keys
    requires forall a {:trigger a in w.nctxs} :: a in w.nctxs ==> w'.nctxs[a].ref == w.nctxs[a].ref
    requires forall r {:trigger r in w.vals} :: r in w.vals && r !in w.orphans ==> w.vals[r].ptr != p
    ensures ContextInv(w') && ValueInv(w')
  {
    ContextFrame(w, w');
    ValueFrame(w, w');
  }

  /* ---- wrappers ---- */

  lemma NewValueKeepsContexts(w: World, c: CtxRef, p: Addr, js: Js)
    requires ContextInv(w) && ValueInv(w) && Open(w, c) && p != 0
    ensures ContextInv(NewValue(w, c, p, js).0)
  {
    LiveUpdateKeepsRest(w, c, w.ctxs[c].live + {w.nextRef});
  }

  lemma NewValueKeepsOwners(w: World, c: CtxRef, p: Addr, js: Js)
    requires ValueInv(w) && Open(w, c)
    requires p in w.heap && w.heap[p].id != 0 && w.heap[p].js == js && w.heap[p].ctx == w.ctxs[c].ptr
    requires p != 0 && !Owned(w, p)
    ensures ValueInv(NewValue(w, c, p, js).0)
  {
    var (w', v) := NewValue(w, c, p, js);
    forall r | r in w'.vals && r !in w'.orphans && w'.vals[r].ptr != 0 ensures Backed(w'.vals[r], r, w'.heap, w'.ctxs) {
      if r != v { assert Backed(w.vals[r], r, w.heap, w.ctxs); }
    }
    forall r, s, q | q != 0 && Owns(w', r, q) && Owns(w', s, q) ensures r == s {
      if r != v { assert Owns(w, r, q); }
      if s != v { assert Owns(w, s, q); }
    }
    forall r | r in w'.orphans ensures r in w'.vals && OrphanSound(w'.vals[r], r, w'.ctxs) {
      assert OrphanSound(w.vals[r], r, w.ctxs);
    }
  }

  // newValue on a fresh cell of an open context
  lemma NewValueKeepsInv(w: World, b: Busy, c: CtxRef, p: Addr, js: Js)
    requires Inv(w, b) && Open(w, c)
    requires p in w.heap && w.heap[p].id != 0 && w.heap[p].js == js && w.heap[p].ctx == w.ctxs[c].ptr
    requires !Owned(w, p)
    ensures var (w', v) := NewValue(w, c, p, js);
      && Inv(w', b) && SameNative(w, w')
      && v == w.nextRef && Owns(w', v, p) && Valid(w', v) && v !in w'.hidden && v !in w.vals
      && w'.vals == w.vals[v := w'.vals[v]] && w'.orphans == w.orphans && w'.hidden == w.hidden && w'.fns == w.fns
      && w'.ctxs[c].ptr == w.ctxs[c].ptr && !w'.ctxs[c].closed
  {
    assert p != 0;
    NewValueKeepsContexts(w, c, p, js);
    NewValueKeepsOwners(w, c, p, js);
    hide ContextInv, NativeInv, SerialInv, LinkInv, LiveInv, FnInv, Backed, Owned;
  }

  lemma NilWrapperKeepsOwners(w: World, c: CtxRef, js: Js)
    requires ValueInv(w) && c in w.ctxs
    ensures ValueInv(w.(vals := w.vals[w.nextRef := GoValue(0, c, false, js)], nextRef := w.nextRef + 1))
  {
    var w' := w.(vals := w.vals[w.nextRef := GoValue(0, c, false, js)], nextRef := w.nextRef + 1);
    forall r | r in w'.vals && r !in w'.orphans && w'.vals[r].ptr != 0 ensures Backed(w'.vals[r], r, w'.heap, w'.ctxs) {
      assert Backed(w.vals[r], r, w.heap, w.ctxs);
    }
    forall r, s, q | q != 0 && Owns(w', r, q) && Owns(w', s, q) ensures r == s {
      assert Owns(w, r, q) && Owns(w, s, q);
    }
  }

  // newValue on a closed context: the wrapper is made with no pointer, and nothing tracks it.
  lemma NewValueOnClosed(w: World, b: Busy, c: CtxRef, p: Addr, js: Js)
    requires Inv(w, b) && c in w.ctxs && w.ctxs[c].closed && p != 0
    ensures var (w', v) := NewValue(w, c, p, js);
      && Inv(w', b) && SameNative(w, w') && w'.ctxs == w.ctxs
      && v == w.nextRef && v !in w.vals && w'.vals == w.vals[v := GoValue(0, c, false, js)] && !Valid(w', v)
  {
    NilWrapperKeepsOwners(w, c, js);
    assert ContextInv(NewValue(w, c, p, js).0);
    hide ContextInv, NativeInv, SerialInv;
  }

  lemma NewBorrowedKeepsInv(w: World, b: Busy, c: CtxRef, p: Addr, js: Js)
    requires Inv(w, b) && Open(w, c)
    requires p in w.heap && w.heap[p].id == 0 && w.heap[p].js == js && w.heap[p].ctx == w.ctxs[c].ptr
    ensures var (w', v) := NewBorrowed(w, c, p, js);
      && Inv(w', b) && SameNative(w, w')
      && v == w.nextRef && Valid(w', v) && v !in w'.hidden && v !in w.vals
      && w'.vals == w.vals[v := GoValue(p, c, true, js)] && w'.ctxs == w.ctxs && w'.hidden == w.hidden && w'.orphans == w.orphans
  {
    var (w', v) := NewBorrowed(w, c, p, js);
    assert ContextInv(w');
    assert ValueInv(w') by {
      forall r | r in w'.vals && r !in w'.orphans && w'.vals[r].ptr != 0 ensures Backed(w'.vals[r], r, w'.heap, w'.ctxs) {
        if r != v { assert Backed(w.vals[r], r, w.heap, w.ctxs); }
      }
      forall r, s, q | q != 0 && Owns(w', r, q) && Owns(w', s, q) ensures r == s {
        assert Owns(w, r, q) && Owns(w, s, q);
      }
    }
  }

  // Dropping a view that owns nothing.
  lemma InvalidateKeepsInv(w: World, b: Busy, v: Ref)
    requires Inv(w, b)
    requires v in w.vals ==> w.vals[v].borrowed || w.vals[v].ptr == 0
    ensures Inv(Invalidate(w, v), b)
  {
    InvalidateKeepsOwners(w, v);
    assert ContextInv(Invalidate(w, v));
    hide NativeInv, SerialInv, ContextInv, ValueInv;
  }

  lemma InvalidateKeepsOwners(w: World, v: Ref)
    requires ValueInv(w) && (v in w.vals ==> w.vals[v].borrowed || w.vals[v].ptr == 0)
    ensures ValueInv(Invalidate(w, v))
  {
    var w' := Invalidate(w, v);
    forall r | r in w'.vals && r !in w'.orphans && w'.vals[r].ptr != 0 ensures Backed(w'.vals[r], r, w'.heap, w'.ctxs) {
      assert Backed(w.vals[r], r, w.heap, w.ctxs);
    }
    forall r, s, q | q != 0 && Owns(w', r, q) && Owns(w', s, q) ensures r == s {
      assert Owns(w, r, q) && Owns(w, s, q);
    }
  }

  lemma DropOwnerKeepsContexts(w: World, v: Ref)
    requires ContextInv(w) && v in w.vals && w.vals[v].ctx in w.ctxs
    ensures ContextInv(Invalidate(Untrack(w, v), v))
  {
    var c := w.vals[v].ctx;
    LiveUpdateKeepsRest(w, c, w.ctxs[c].live - {v});
  }

  lemma DropOwnerKeepsOwners(w: World, v: Ref)
    requires ValueInv(w) && v in w.vals && v !in w.orphans && !w.vals[v].borrowed && w.vals[v].ptr != 0
    ensures var w' := Invalidate(Untrack(w, v), v);
      && ValueInv(w')
      && forall r :: r in w'.vals && r !in w'.orphans ==> w'.vals[r].ptr != w.vals[v].ptr
  {
    var p := w.vals[v].ptr;
    var w' := Invalidate(Untrack(w, v), v);
    assert Backed(w.vals[v], v, w.heap, w.ctxs) && Owns(w, v, p);
    forall r | r in w'.vals && r !in w'.orphans && w'.vals[r].ptr != 0
      ensures Backed(w'.vals[r], r, w'.heap, w'.ctxs) && w'.vals[r].ptr != p
    {
      assert Backed(w.vals[r], r, w.heap, w.ctxs);
      if w'.vals[r].ptr == p { assert Owns(w, r, p); }
    }
    forall r, s, q | q != 0 && Owns(w', r, q) && Owns(w', s, q) ensures r == s {
      assert Owns(w, r, q) && Owns(w, s, q);
    }
    forall r | r in w'.orphans ensures r in w'.vals && OrphanSound(w'.vals[r], r, w'.ctxs) {
      assert OrphanSound(w.vals[r], r, w.ctxs);
    }
  }

  // Untracking and nulling an owner leaves its cell without a wrapper.
  lemma DropOwner(w: World, b: Busy, v: Ref)
    requires Inv(w, b) && v in w.vals && v !in w.orphans && !w.vals[v].borrowed && w.vals[v].ptr != 0
    ensures var w' := Invalidate(Untrack(w, v), v);
      && Inv(w', b)
      && forall r :: r in w'.vals && r !in w'.orphans ==> w'.vals[r].ptr != w.vals[v].ptr
  {
    assert Backed(w.vals[v], v, w.heap, w.ctxs);
    DropOwnerKeepsContexts(w, v);
    DropOwnerKeepsOwners(w, v);
    hide ContextInv, NativeInv, SerialInv, ValueInv;
  }

  // Value.Release of an owner, step by step.
  lemma ReleaseIs(w: World, v: Ref)
    requires v in w.vals && w.vals[v].ptr != 0 && !w.vals[v].borrowed
    ensures Release(w, v) == Invalidate(NativeRelease(Untrack(w, v), w.vals[v].ptr), v)
  {
  }

  lemma ReleaseKeepsInv(w: World, b: Busy, v: Ref)
    requires Inv(w, b) && v !in w.orphans
    ensures Inv(Release(w, v), b)
    ensures v in w.vals ==> v in Release(w, v).vals && Release(w, v).vals[v] == w.vals[v].(ptr := 0)
    ensures Release(w, v).heap ==
      if v in w.vals && !w.vals[v].borrowed then w.heap - {w.vals[v].ptr} else w.heap
  {
    if v !in w.vals || w.vals[v].ptr == 0 {
    } else if w.vals[v].borrowed {
      InvalidateKeepsInv(w, b, v);
    } else {
      var p := w.vals[v].ptr;
      assert Backed(w.vals[v], v, w.heap, w.ctxs);
      DropOwner(w, b, v);
      var w1 := Invalidate(Untrack(w, v), v);
      NativeReleaseKeepsInv(w1, b, p);
      assert Release(w, v) == NativeRelease(w1, p);
    }
  }

  /* ---- contexts ---- */

  // The serials of distinct live cells are distinct, so as many are added to `freed` as cells are deleted.
  lemma {:induction false} SerialsCount(heap: map<Addr, NativeValue>, gone: set<Addr>)
    requires gone <= heap.Keys
    requires forall p, q, s :: HasSerial(heap, p, s) && HasSerial(heap, q, s) ==> p == q
    ensures |Serials(heap, gone)| == |gone|
    decreases |gone|
  {
    if gone != {} {
      var x :| x in gone;
      var rest := gone - {x};
      SerialsCount(heap, rest);
      var all := set p | p in gone && p in heap :: heap[p].serial;
      var some := set p | p in rest && p in heap :: heap[p].serial;
      if heap[x].serial in some {
        var y :| y in rest && heap[y].serial == heap[x].serial;
        assert HasSerial(heap, x, heap[x].serial) && HasSerial(heap, y, heap[x].serial);
      }
      assert all == some + {heap[x].serial};
    }
  }

  lemma BulkFreeKeepsSerials(heap: map<Addr, NativeValue>, nextSerial: nat, freed: multiset<nat>, gone: set<Addr>)
    requires SerialInv(heap, nextSerial, freed) && |freed| + |heap| == nextSerial
    requires gone <= heap.Keys
    ensures SerialInv(heap - gone, nextSerial, freed + Serials(heap, gone))
    ensures |freed + Serials(heap, gone)| + |heap - gone| == nextSerial
  {
    var heap' := heap - gone;
    var serials := set p | p in gone && p in heap :: heap[p].serial;
    forall p | p in heap' ensures heap[p].serial !in serials {
      if heap[p].serial in serials {
        var q :| q in gone && q in heap && heap[q].serial == heap[p].serial;
        assert HasSerial(heap, p, heap[p].serial) && HasSerial(heap, q, heap[p].serial);
      }
    }
    forall p, q, s | HasSerial(heap', p, s) && HasSerial(heap', q, s) ensures p == q {
      assert HasSerial(heap, p, s) && HasSerial(heap, q, s);
    }
    SerialsCount(heap, gone);
    assert heap'.Keys == heap.Keys - gone;
  }

  // Every index points at allocated cells of its own context, at each once.
  lemma IndexIsSound(w: World, b: Busy, ca: Addr)
    requires NativeInv(w.heap, w.nctxs, b) && ca in w.nctxs
    ensures IndexSound(w.heap, w.nctxs[ca].values)
    ensures forall p {:trigger p in w.nctxs[ca].values.Values} :: p in w.nctxs[ca].values.Values ==> p in w.heap && w.heap[p].ctx == ca
  {
    var n := w.nctxs[ca];
    forall i, j | i in n.values && j in n.values && n.values[i] == n.values[j] ensures i == j {
      assert Indexed(w.heap, n.values[i], ca, i) && Indexed(w.heap, n.values[j], ca, j);
    }
    forall p | p in n.values.Values ensures p in w.heap && w.heap[p].ctx == ca {
      var id :| id in n.values && n.values[id] == p;
      assert Indexed(w.heap, p, ca, id);
    }
  }

  // The cells indexed by a context that no native frame uses are exactly the cells allocated in it.
  lemma IndexIsExact(w: World, b: Busy, ca: Addr)
    requires NativeInv(w.heap, w.nctxs, b) && ca in w.nctxs && w.nctxs[ca].ref !in b.ctxs
    ensures IndexSound(w.heap, w.nctxs[ca].values)
    ensures forall p {:trigger p in w.nctxs[ca].values.Values} ::
      p in w.nctxs[ca].values.Values <==> p in w.heap && w.heap[p].ctx == ca
  {
    var n := w.nctxs[ca];
    IndexIsSound(w, b, ca);
    forall p | p in w.heap && w.heap[p].ctx == ca ensures p in n.values.Values {
      assert CellSound(w.heap[p], p, w.nctxs, b);
      assert w.heap[p].id in n.values;
    }
  }

  // Everything Close does, in one place.
  ghost predicate Closed(w: World, w': World, c: CtxRef)
    requires c in w.ctxs
  {
    var g := w.ctxs[c];
    && w'.heap == (map p | p in w.heap && w.heap[p].ctx != g.ptr :: w.heap[p])
    && w'.nctxs == w.nctxs - {g.ptr}
    && w'.ctxs == w.ctxs[c := GoContext(0, true, {}, {})]
    && w'.vals == NullIn(w.vals, g.live)
    && w'.fns == w.fns - g.fns
    && w'.ctxSeq == w.ctxSeq && w'.fnSeq == w.fnSeq && w'.functions == w.functions && w'.nextRef == w.nextRef
    && w'.hidden == w.hidden && w'.orphans == w.orphans
    && w'.nextSerial == w.nextSerial && w'.answers == w.answers && w'.fault == w.fault && w'.rogue == w.rogue
  }

  lemma OpenNative(w: World, b: Busy, c: CtxRef)
    requires Inv(w, b) && Open(w, c)
    ensures w.ctxs[c].ptr in w.nctxs && w.nctxs[w.ctxs[c].ptr].ref == c
  {
    assert ContextSound(w.ctxs[c], c, w.nctxs);
  }

  lemma CloseUnfold(w: World, c: CtxRef, ca: Addr)
    requires Open(w, c) && ca == w.ctxs[c].ptr && ca in w.nctxs && IndexSound(w.heap, w.nctxs[ca].values)
    ensures var w' := Close(w, c);
      var gone := w.nctxs[ca].values.Values;
      && w'.heap == w.heap - gone && w'.freed == w.freed + Serials(w.heap, gone)
      && w' == w.(heap := w'.heap, freed := w'.freed, nctxs := w.nctxs - {ca}, fns := w.fns - w.ctxs[c].fns,
                  ctxs := w.ctxs[c := GoContext(0, true, {}, {})],
                  vals := NullIn(w.vals, w.ctxs[c].live))
  {
    hide Serials, IndexSound;
  }

  lemma CellsOutside(heap: map<Addr, NativeValue>, gone: set<Addr>, ca: Addr)
    requires forall p {:trigger p in gone} {:trigger p in heap} :: p in gone <==> p in heap && heap[p].ctx == ca
    ensures heap - gone == map p | p in heap && heap[p].ctx != ca :: heap[p]
    ensures heap.Keys - (heap - gone).Keys == gone
  {
  }

  lemma CloseShape(w: World, b: Busy, c: CtxRef)
    requires Inv(w, b) && Open(w, c) && c !in b.ctxs
    ensures Closed(w, Close(w, c), c)
    ensures Close(w, c).freed == w.freed + Serials(w.heap, w.heap.Keys - Close(w, c).heap.Keys)
  {
    var ca := w.ctxs[c].ptr;
    OpenNative(w, b, c);
    Parts(w, b);
    hide Inv, NativeInv, ContextInv, ValueInv, SerialInv, Serials, IndexSound, Close;
    IndexIsExact(w, b, ca);
    CloseUnfold(w, c, ca);
    CellsOutside(w.heap, w.nctxs[ca].values.Values, ca);
  }

  lemma CloseKeepsIndex(w: World, w': World, b: Busy, c: CtxRef)
    requires NativeInv(w.heap, w.nctxs, b) && c in w.ctxs && Closed(w, w', c)
    ensures NativeInv(w'.heap, w'.nctxs, b)
  {
    forall a, id | a in w'.nctxs && id in w'.nctxs[a].values
      ensures 0 < id <= w'.nctxs[a].nextId && Indexed(w'.heap, w'.nctxs[a].values[id], a, id)
    {
      assert id in w.nctxs[a].values;
    }
  }

  lemma CloseKeepsContexts(w: World, w': World, c: CtxRef)
    requires ContextInv(w) && Open(w, c) && Closed(w, w', c)
    ensures ContextInv(w')
  {
    assert LinkInv(w'.nctxs, w'.ctxs, w'.ctxSeq);
    forall d, r | d in w'.ctxs && r in w'.ctxs[d].live ensures r in w'.vals && LiveSound(w'.vals[r], d, r in w'.orphans) {
      assert r in w.ctxs[d].live;
      assert r !in w.ctxs[c].live;
    }
    forall id | id in w'.fns
      ensures 0 < id <= w'.fnSeq && w'.fns[id] in w'.ctxs && !w'.ctxs[w'.fns[id]].closed && id in w'.ctxs[w'.fns[id]].fns
    {
      assert id in w.fns;
    }
    forall d, id | d in w'.ctxs && id in w'.ctxs[d].fns ensures id <= w'.fnSeq && FnOwner(w'.fns, id, d) {
      assert id in w.ctxs[d].fns;
    }
  }

  lemma CloseKeepsValues(w: World, w': World, c: CtxRef)
    requires ValueInv(w) && ContextInv(w) && Open(w, c) && Closed(w, w', c)
    requires forall r {:trigger r in w.vals} :: r in w.vals && w.vals[r].borrowed && w.vals[r].ctx == c ==> w.vals[r].ptr == 0
    ensures ValueInv(w')
    ensures forall r {:trigger r in w'.vals} :: r in w'.vals && r !in w'.orphans && w'.vals[r].ctx == c ==> w'.vals[r].ptr == 0
    ensures forall r {:trigger r in w.ctxs[c].live} :: r in w.ctxs[c].live ==> w'.vals[r].ptr == 0
  {
    forall r | r in w.ctxs[c].live ensures r in w'.vals {}
    forall r | r in w'.vals && r !in w'.orphans && w'.vals[r].ptr != 0
      ensures Backed(w'.vals[r], r, w'.heap, w'.ctxs) && w'.vals[r].ctx != c
    {
      assert Backed(w.vals[r], r, w.heap, w.ctxs);
      assert ContextSound(w.ctxs[w.vals[r].ctx], w.vals[r].ctx, w.nctxs);
    }
    forall r, s, q | q != 0 && Owns(w', r, q) && Owns(w', s, q) ensures r == s {
      assert Owns(w, r, q) && Owns(w, s, q);
    }
  }

  lemma CloseKeepsSerials(w: World, b: Busy, c: CtxRef)
    requires Inv(w, b) && Open(w, c) && c !in b.ctxs
    ensures var w' := Close(w, c);
      SerialInv(w'.heap, w'.nextSerial, w'.freed) && |w'.freed| + |w'.heap| == w'.nextSerial
  {
    assert ContextSound(w.ctxs[c], c, w.nctxs);
    IndexIsExact(w, b, w.ctxs[c].ptr);
    BulkFreeKeepsSerials(w.heap, w.nextSerial, w.freed, w.nctxs[w.ctxs[c].ptr].values.Values);
  }

  lemma CloseDropsViews(w: World, b: Busy, c: CtxRef)
    requires Inv(w, b) && Open(w, c) && c !in b.ctxs && Closed(w, Close(w, c), c)
    ensures ValueInv(Close(w, c))
    ensures forall r {:trigger r in Close(w, c).vals} ::
      r in Close(w, c).vals && r !in w.orphans && w.vals[r].ctx == c ==> Close(w, c).vals[r].ptr == 0
  {
    forall r | r in w.vals && w.vals[r].borrowed && w.vals[r].ctx == c ensures w.vals[r].ptr == 0 {
      if w.vals[r].ptr != 0 { BorrowedNeedsBusy(w, b, r); }
    }
    CloseKeepsValues(w, Close(w, c), c);
  }

  lemma CloseKeepsOpen(w: World, b: Busy, c: CtxRef)
    requires Inv(w, b) && Open(w, c) && c !in b.ctxs && Closed(w, Close(w, c), c)
    ensures forall d :: d in b.ctxs ==> Open(Close(w, c), d)
    ensures !Close(w, c).fault && !Close(w, c).rogue
  {
    forall d | d in b.ctxs ensures Open(Close(w, c), d) { assert Open(w, d); }
  }

  // Close leaves no cell of the context allocated, no wrapper tracked in it pointing anywhere,
  // no callback id of it registered, and every other context as it was.
  lemma CloseKeepsInv(w: World, b: Busy, c: CtxRef)
    requires Inv(w, b) && Open(w, c) && c !in b.ctxs
    ensures Inv(Close(w, c), b) && Closed(w, Close(w, c), c)
    ensures forall r {:trigger r in Close(w, c).vals} ::
      r in Close(w, c).vals && r !in w.orphans && w.vals[r].ctx == c ==> Close(w, c).vals[r].ptr == 0
  {
    hide Inv, NativeInv, ContextInv, ValueInv, SerialInv, Closed, Close, ContextDispose;
    var w' := Close(w, c);
    Parts(w, b);
    CloseShape(w, b, c);
    CloseKeepsIndex(w, w', b, c);
    CloseKeepsContexts(w, w', c);
    CloseDropsViews(w, b, c);
    CloseKeepsSerials(w, b, c);
    CloseKeepsOpen(w, b, c);
    Assemble(w', b);
  }

  // A borrowed wrapper points somewhere only while a native frame of its context is active.
  lemma BorrowedNeedsBusy(w: World, b: Busy, r: Ref)
    requires Inv(w, b) && r in w.vals && w.vals[r].borrowed && w.vals[r].ptr != 0
    ensures w.vals[r].ctx in b.ctxs
  {
    assert Backed(w.vals[r], r, w.heap, w.ctxs);
    assert CellSound(w.heap[w.vals[r].ptr], w.vals[r].ptr, w.nctxs, b);
    assert ContextSound(w.ctxs[w.vals[r].ctx], w.vals[r].ctx, w.nctxs);
  }

  lemma NewContextKeepsInv(w: World, b: Busy, hint: Addr)
    requires Inv(w, b)
    ensures var w' := NewContext(w, hint);
      Inv(w', b) && Open(w', w.ctxSeq + 1) && w.ctxSeq + 1 !in w.ctxs
  {
    NewContextKeepsIndex(w, b, hint);
    NewContextKeepsContexts(w, hint);
    NewContextKeepsValues(w, hint);
    assert forall c {:trigger c in b.ctxs} :: c in b.ctxs ==> Open(w, c);
  }

  lemma NewContextKeepsIndex(w: World, b: Busy, hint: Addr)
    requires NativeInv(w.heap, w.nctxs, b)
    ensures var w' := NewContext(w, hint);
      NativeInv(w'.heap, w'.nctxs, b)
  {
    var w' := NewContext(w, hint);
    forall a, id | a in w'.nctxs && id in w'.nctxs[a].values
      ensures 0 < id <= w'.nctxs[a].nextId && Indexed(w'.heap, w'.nctxs[a].values[id], a, id)
    {
      assert id in w.nctxs[a].values;
    }
  }

  lemma NewContextKeepsContexts(w: World, hint: Addr)
    requires ContextInv(w) && 0 !in w.nctxs
    ensures ContextInv(NewContext(w, hint))
  {
    var w' := NewContext(w, hint);
    forall d, r | d in w'.ctxs && r in w'.ctxs[d].live ensures r in w'.vals && LiveSound(w'.vals[r], d, r in w'.orphans) {
      assert r in w.ctxs[d].live;
    }
    forall d, id | d in w'.ctxs && id in w'.ctxs[d].fns ensures id <= w'.fnSeq && FnOwner(w'.fns, id, d) {
      assert id in w.ctxs[d].fns;
    }
  }

  lemma NewContextKeepsValues(w: World, hint: Addr)
    requires ValueInv(w) && ContextInv(w)
    ensures ValueInv(NewContext(w, hint))
  {
    var w' := NewContext(w, hint);
    forall r | r in w'.vals && r !in w'.orphans && w'.vals[r].ptr != 0
      ensures Backed(w'.vals[r], r, w'.heap, w'.ctxs)
    {
      assert Backed(w.vals[r], r, w.heap, w.ctxs);
    }
    forall r, s, q | q != 0 && Owns(w', r, q) && Owns(w', s, q) ensures r == s {
      assert Owns(w, r, q) && Owns(w, s, q);
    }
  }
}
