/** How far each primitive reaches. */
module FramingPrimitives {
  import opened Handles
  import opened HandleInvariants
  import opened Framing

  // A step that only changes the native heap.
  lemma HeapOnly(w: World, w': World, b: Busy, cells: set<Addr>)
    requires SameGo(w, w')
    requires forall q {:trigger q in w.heap} :: q in w.heap && q !in cells ==> q in w'.heap && w'.heap[q] == w.heap[q]
    requires forall q :: LooseCell(w', q) && q !in cells ==> LooseCell(w, q)
    ensures Keeps(w, w', b, cells, {})
  {
    forall p | Stuck(w, b, p) && p !in cells ensures Still(w, w', p) {
      forall r ensures !Owns(w', r, p) {
        assert !Owns(w, r, p);
      }
    }
    forall r | r in w.vals ensures SameWrapper(w, w', r) && SameStanding(w, w', r) {}
    forall r | View(w', r) ensures View(w, r) {}
  }

  lemma WrapKeeps(w: World, b: Busy, ca: Addr, js: Js, hint: Addr)
    requires Inv(w, b) && ca in w.nctxs
    ensures Keeps(w, Wrap(w, ca, js, hint).0, b, {}, {})
  {
    WrapKeepsInv(w, b, ca, js, hint);
    HeapOnly(w, Wrap(w, ca, js, hint).0, b, {});
  }

  lemma NativeReleaseKeeps(w: World, b: Busy, p: Addr)
    requires NativeInv(w.heap, w.nctxs, b) && p in w.heap
    ensures Keeps(w, NativeRelease(w, p), b, {p}, {})
  {
    NativeReleaseShape(w, b, p);
    HeapOnly(w, NativeRelease(w, p), b, {p});
  }

  // A step that only changes wrappers in `refs`, and whom they own.
  lemma RefsOnly(w: World, w': World, b: Busy, cells: set<Addr>, refs: set<Ref>)
    requires w'.heap == w.heap && w'.nctxs == w.nctxs
    requires w.nextRef <= w'.nextRef && KeepsContexts(w, w', b)
    requires forall r {:trigger r in w.vals} :: r in w.vals ==> SameWrapper(w, w', r)
    requires forall r {:trigger r in w'.vals} :: r in w'.vals && r !in refs ==>
      r in w.vals && w'.vals[r] == w.vals[r]
    requires forall r :: r !in refs ==> SameStanding(w, w', r)
    requires forall r, p :: r in refs && Owns(w', r, p) ==> p in cells || Owns(w, r, p)
    ensures Keeps(w, w', b, cells, refs)
  {
    forall p | Stuck(w, b, p) && p !in cells ensures Still(w, w', p) {
      forall r ensures !Owns(w', r, p) {
        assert !Owns(w, r, p);
        if r !in refs { assert SameStanding(w, w', r); }
      }
    }
    forall r | r in w.vals && r !in refs ensures SameStanding(w, w', r) && w'.vals[r] == w.vals[r] {
      assert SameWrapper(w, w', r);
    }
  }

  lemma NewValueKeeps(w: World, b: Busy, c: CtxRef, p: Addr, js: Js)
    requires ValueInv(w) && Open(w, c) && p != 0
    ensures var (w', v) := NewValue(w, c, p, js);
      Keeps(w, w', b, {p}, {v})
  {
    var (w', v) := NewValue(w, c, p, js);
    RefsOnly(w, w', b, {p}, {v});
  }

  lemma InvalidateKeeps(w: World, b: Busy, v: Ref)
    requires v in w.vals ==> w.vals[v].borrowed
    ensures Keeps(w, Invalidate(w, v), b, {}, {v})
  {
    RefsOnly(w, Invalidate(w, v), b, {}, {v});
  }

  // Marking wrappers of one's own.
  lemma MarkKeeps(w: World, b: Busy, v: Ref, hidden: set<Ref>, orphans: set<Ref>)
    requires hidden == w.hidden || hidden == w.hidden + {v}
    requires orphans == w.orphans || orphans == w.orphans + {v}
    ensures Keeps(w, w.(hidden := hidden, orphans := orphans), b, {}, {v})
  {
    RefsOnly(w, w.(hidden := hidden, orphans := orphans), b, {}, {v});
  }

  lemma DropOwnerKeeps(w: World, b: Busy, v: Ref)
    requires v in w.vals && v !in w.orphans && !w.vals[v].borrowed && w.vals[v].ptr != 0
    requires w.vals[v].ctx in w.ctxs
    ensures Keeps(w, Invalidate(Untrack(w, v), v), b, {0}, {v})
  {
    RefsOnly(w, Invalidate(Untrack(w, v), v), b, {0}, {v});
  }

  // Releasing an owner deletes a cell that is not stuck.
  lemma ReleaseKeeps(w: World, b: Busy, v: Ref)
    requires Inv(w, b) && v !in w.orphans
    ensures Keeps(w, Release(w, v), b, {}, {v})
  {
    var w' := Release(w, v);
    if v !in w.vals || w.vals[v].ptr == 0 {
      KeepsRefl(w, b);
    } else if w.vals[v].borrowed {
      InvalidateKeeps(w, b, v);
    } else {
      var p := w.vals[v].ptr;
      assert Owns(w, v, p);
      var w1 := Invalidate(Untrack(w, v), v);
      DropOwner(w, b, v);
      assert Backed(w.vals[v], v, w.heap, w.ctxs);
      DropOwnerKeeps(w, b, v);
      NativeReleaseKeeps(w1, b, p);
      assert w' == NativeRelease(w1, p);
      assert 0 !in w'.heap && p !in w'.heap;
      ReleaseOwnerKeeps(w, w1, w', b, v, p);
    }
  }

  lemma ReleaseOwnerKeeps(w: World, w1: World, w': World, b: Busy, v: Ref, p: Addr)
    requires Inv(w, b) && Inv(w1, b) && Keeps(w, w1, b, {0}, {v}) && Keeps(w1, w', b, {p}, {})
    requires Owns(w, v, p) && 0 !in w.heap && 0 !in w'.heap && p !in w'.heap
    ensures Keeps(w, w', b, {}, {v})
  {
    hide Inv, Keeps;
    KeepsTrans(w, w1, w', b, {0}, {v}, {p}, {});
    assert {0} + {p} == {0, p} && {v} + {} == {v};
    OwnedNotStuck(w, w', b, v, p);
  }

  lemma OwnedNotStuck(w: World, w': World, b: Busy, v: Ref, p: Addr)
    requires Keeps(w, w', b, {0, p}, {v}) && Owns(w, v, p) && 0 !in w.heap && 0 !in w'.heap
    requires p !in w'.heap
    ensures Keeps(w, w', b, {}, {v})
  {
    forall q | Stuck(w, b, q) ensures Still(w, w', q) {
      assert q != p;
    }
  }

  // A wrapper that no busy frame guards is free to change.
  lemma Unguarded(w: World, w': World, b: Busy, v: Ref)
    requires Keeps(w, w', b, {}, {v}) && v in w.vals && !Guarded(w, b, v) && SameStanding(w, w', v)
    requires View(w', v) ==> View(w, v)
    ensures Keeps(w, w', b, {}, {})
  {
  }

  lemma CloseKeeps(w: World, b: Busy, c: CtxRef)
    requires Inv(w, b) && PinsSound(w, b) && Open(w, c) && c !in b.ctxs
    ensures Keeps(w, Close(w, c), b, {}, {})
  {
    CloseShape(w, b, c);
    assert ContextSound(w.ctxs[c], c, w.nctxs);
    CloseKeepsStuck(w, Close(w, c), b, c);
    CloseKeepsWrappers(w, Close(w, c), b, c);
  }

  lemma CloseKeepsStuck(w: World, w': World, b: Busy, c: CtxRef)
    requires c in w.ctxs && c !in b.ctxs && Closed(w, w', c) && 0 !in w.heap
    requires w.ctxs[c].ptr in w.nctxs && w.nctxs[w.ctxs[c].ptr].ref == c
    ensures KeepsCells(w, w', b, {})
  {
    forall p | Stuck(w, b, p) ensures Still(w, w', p) {
      forall r ensures !Owns(w', r, p) {
        assert !Owns(w, r, p);
      }
    }
  }

  lemma CloseKeepsWrappers(w: World, w': World, b: Busy, c: CtxRef)
    requires LiveInv(w.ctxs, w.vals, w.orphans) && PinsSound(w, b)
    requires c in w.ctxs && c !in b.ctxs && Closed(w, w', c)
    ensures KeepsRefs(w, w', b, {})
  {
    forall r | r in w.ctxs[c].live ensures r in w.vals && w.vals[r].ctx == c {
      assert r in w.vals && LiveSound(w.vals[r], c, r in w.orphans);
    }
    forall r | Guarded(w, b, r) ensures w'.vals[r].ptr == w.vals[r].ptr {}
    forall r | r in w.vals ensures SameWrapper(w, w', r) {}
  }

  lemma NewContextKeeps(w: World, b: Busy, hint: Addr)
    requires Inv(w, b)
    ensures Keeps(w, NewContext(w, hint), b, {}, {})
  {
    var w' := NewContext(w, hint);
    forall p | Stuck(w, b, p) ensures Still(w, w', p) {
      forall r ensures !Owns(w', r, p) { assert !Owns(w, r, p); }
    }
    forall r | r in w.vals ensures SameWrapper(w, w', r) && SameStanding(w, w', r) {}
    forall r | View(w', r) ensures View(w, r) {}
  }
}
