/**
 What a piece of a run leaves alone.  `Keeps(w, w', b, cells, refs)` says that
 going from w to w' only touched what code nested under the busy frames b may
 touch, apart from native cells in `cells` and wrappers in `refs`, which belong
 to the frame that is being described.
 */
module Framing {
  import opened Handles
  import opened HandleInvariants

  // A cell that no wrapper owns, in a context that a native frame is using.
  ghost predicate Stuck(w: World, b: Busy, p: Addr) {
    && p in w.heap
    && w.heap[p].ctx in w.nctxs
    && w.nctxs[w.heap[p].ctx].ref in b.ctxs
    && !Owned(w, p)
  }

  ghost predicate Still(w: World, w': World, p: Addr)
    requires p in w.heap
  {
    p in w'.heap && w'.heap[p] == w.heap[p] && !Owned(w', p)
  }

  ghost predicate LooseCell(w: World, p: Addr) {
    p in w.heap && w.heap[p].id == 0
  }

  ghost predicate KeepsCells(w: World, w': World, b: Busy, cells: set<Addr>) {
    && (forall p :: Stuck(w, b, p) && p !in cells ==> Still(w, w', p))
    && (forall p :: LooseCell(w', p) && p !in cells ==> LooseCell(w, p))
  }

  ghost predicate Guarded(w: World, b: Busy, r: Ref) {
    && r in w.vals && r !in w.orphans
    && (r in b.refs || (r in w.hidden && w.vals[r].ctx in b.ctxs))
  }

  // A pinned wrapper belongs to a busy context.
  ghost predicate PinsSound(w: World, b: Busy) {
    forall r {:trigger r in b.refs} :: r in b.refs ==> r in w.vals && w.vals[r].ctx in b.ctxs
  }

  ghost predicate SameWrapper(w: World, w': World, r: Ref)
    requires r in w.vals
  {
    && r in w'.vals
    && w'.vals[r].ctx == w.vals[r].ctx && w'.vals[r].borrowed == w.vals[r].borrowed && w'.vals[r].born == w.vals[r].born
    && (w'.vals[r].ptr == w.vals[r].ptr || w'.vals[r].ptr == 0)
  }

  ghost predicate SameStanding(w: World, w': World, r: Ref) {
    (r in w'.orphans <==> r in w.orphans) && (r in w'.hidden <==> r in w.hidden)
  }

  // r is a borrowed wrapper that still points somewhere
  ghost predicate View(w: World, r: Ref) {
    r in w.vals && w.vals[r].borrowed && w.vals[r].ptr != 0
  }

  ghost predicate KeepsRefs(w: World, w': World, b: Busy, refs: set<Ref>) {
    && w.nextRef <= w'.nextRef
    && (forall r {:trigger r in w.vals} {:trigger r in w'.vals} :: r in w.vals ==> SameWrapper(w, w', r))
    && (forall r {:trigger r in w.vals} {:trigger r in w'.vals} :: r in w.vals && r !in refs ==> SameStanding(w, w', r))
    && (forall r :: Guarded(w, b, r) && r !in refs ==> w'.vals[r].ptr == w.vals[r].ptr)
    && (forall r :: View(w', r) && r !in refs ==> View(w, r))
  }

  ghost predicate KeepsContexts(w: World, w': World, b: Busy) {
    && w.ctxSeq <= w'.ctxSeq
    && (forall c {:trigger c in w.ctxs} {:trigger c in w'.ctxs} :: c in w.ctxs ==> c in w'.ctxs)
    && (forall c {:trigger c in b.ctxs} :: c in b.ctxs && c in w.ctxs ==>
          c in w'.ctxs && w'.ctxs[c].ptr == w.ctxs[c].ptr && w'.ctxs[c].closed == w.ctxs[c].closed)
  }

  ghost predicate Keeps(w: World, w': World, b: Busy, cells: set<Addr>, refs: set<Ref>) {
    KeepsCells(w, w', b, cells) && KeepsRefs(w, w', b, refs) && KeepsContexts(w, w', b)
  }

  /* ---- algebra ---- */

  lemma KeepsRefl(w: World, b: Busy)
    ensures Keeps(w, w, b, {}, {})
  {
  }

  // The native context of a busy context is found at the same address, with the same back pointer.
  lemma BusyNative(w: World, w': World, b: Busy, p: Addr)
    requires LinkInv(w.nctxs, w.ctxs, w.ctxSeq) && LinkInv(w'.nctxs, w'.ctxs, w'.ctxSeq) && KeepsContexts(w, w', b)
    requires forall c {:trigger c in b.ctxs} :: c in b.ctxs ==> Open(w, c)
    requires p in w.heap && w.heap[p].ctx in w.nctxs && w.nctxs[w.heap[p].ctx].ref in b.ctxs
    ensures w.heap[p].ctx in w'.nctxs && w'.nctxs[w.heap[p].ctx].ref == w.nctxs[w.heap[p].ctx].ref
  {
    var c := w.nctxs[w.heap[p].ctx].ref;
    assert w.ctxs[c].ptr == w.heap[p].ctx;
    assert Open(w, c);
    assert ContextSound(w'.ctxs[c], c, w'.nctxs);
  }

  lemma KeepsCellsTrans(w: World, w1: World, w2: World, b: Busy, cells: set<Addr>, cells1: set<Addr>)
    requires Inv(w, b) && Inv(w1, b) && KeepsContexts(w, w1, b)
    requires KeepsCells(w, w1, b, cells) && KeepsCells(w1, w2, b, cells1)
    ensures KeepsCells(w, w2, b, cells + cells1)
  {
    forall p | Stuck(w, b, p) && p !in cells + cells1 ensures Still(w, w2, p) {
      BusyNative(w, w1, b, p);
      assert Still(w, w1, p);
      assert Stuck(w1, b, p);
    }
  }

  lemma KeepsRefsTrans(w: World, w1: World, w2: World, b: Busy, refs: set<Ref>, refs1: set<Ref>)
    requires KeepsRefs(w, w1, b, refs) && KeepsRefs(w1, w2, b, refs1)
    ensures KeepsRefs(w, w2, b, refs + refs1)
  {
    forall r | r in w.vals ensures SameWrapper(w, w2, r) {
      assert SameWrapper(w, w1, r) && SameWrapper(w1, w2, r);
    }
    forall r | r in w.vals && r !in refs + refs1 ensures SameStanding(w, w2, r) {
      assert r in w1.vals;
      assert SameStanding(w, w1, r) && SameStanding(w1, w2, r);
    }
    forall r | Guarded(w, b, r) && r !in refs + refs1 ensures w2.vals[r].ptr == w.vals[r].ptr {
      assert SameWrapper(w, w1, r) && SameStanding(w, w1, r);
      assert Guarded(w1, b, r);
    }
  }

  lemma KeepsTrans(w: World, w1: World, w2: World, b: Busy,
                   cells: set<Addr>, refs: set<Ref>, cells1: set<Addr>, refs1: set<Ref>)
    requires Inv(w, b) && Inv(w1, b)
    requires Keeps(w, w1, b, cells, refs) && Keeps(w1, w2, b, cells1, refs1)
    ensures Keeps(w, w2, b, cells + cells1, refs + refs1)
  {
    KeepsCellsTrans(w, w1, w2, b, cells, cells1);
    KeepsRefsTrans(w, w1, w2, b, refs, refs1);
  }

  // Exempting more, or being busy with less, only weakens the relation.
  lemma KeepsWeaken(w: World, w': World, b: Busy, b': Busy, cells: set<Addr>, refs: set<Ref>, cells': set<Addr>, refs': set<Ref>)
    requires Keeps(w, w', b', cells, refs)
    requires b.refs <= b'.refs && b.ctxs <= b'.ctxs && cells <= cells' && refs <= refs'
    ensures Keeps(w, w', b, cells', refs')
  {
    forall p | Stuck(w, b, p) && p !in cells' ensures Still(w, w', p) {
      assert Stuck(w, b', p);
    }
    forall r | Guarded(w, b, r) && r !in refs' ensures w'.vals[r].ptr == w.vals[r].ptr {
      assert Guarded(w, b', r);
    }
  }

  lemma KeepsThenRefs(w: World, w1: World, w2: World, b: Busy, refs: set<Ref>)
    requires Inv(w, b) && Inv(w1, b) && Keeps(w, w1, b, {}, {}) && Keeps(w1, w2, b, {}, refs)
    ensures Keeps(w, w2, b, {}, refs)
  {
    hide Inv, Keeps;
    KeepsTrans(w, w1, w2, b, {}, {}, {}, refs);
    KeepsWeaken(w, w2, b, b, {} + {}, {} + refs, {}, refs);
  }

  // What a frame made after w and took down before w' need not be exempted.
  lemma KeepsForget(w: World, w': World, b: Busy, cells: set<Addr>, refs: set<Ref>, cells': set<Addr>, refs': set<Ref>)
    requires Keeps(w, w', b, cells, refs)
    requires forall p {:trigger p in cells} :: p in cells && p !in cells' ==> p !in w.heap && !LooseCell(w', p)
    requires forall r {:trigger r in refs} :: r in refs && r !in refs' ==> r !in w.vals && !View(w', r)
    ensures Keeps(w, w', b, cells', refs')
  {
  }

  lemma InvWeaken(w: World, b: Busy, b': Busy)
    requires Inv(w, b) && b.ctxs <= b'.ctxs
    requires forall c {:trigger c in b'.ctxs} :: c in b'.ctxs ==> Open(w, c)
    ensures Inv(w, b')
  {
    forall p | p in w.heap ensures CellSound(w.heap[p], p, w.nctxs, b') {
      assert CellSound(w.heap[p], p, w.nctxs, b);
    }
  }

  // A finished frame leaves no loose cell behind, so the invariant holds for the frames below it.
  lemma InvNarrow(w: World, w': World, b: Busy, b': Busy)
    requires Inv(w, b) && Inv(w', b') && b.ctxs <= b'.ctxs && Keeps(w, w', b, {}, {})
    ensures Inv(w', b)
  {
    forall p | p in w'.heap ensures CellSound(w'.heap[p], p, w'.nctxs, b) {
      assert CellSound(w'.heap[p], p, w'.nctxs, b');
      if w'.heap[p].id == 0 {
        assert LooseCell(w', p);
        assert CellSound(w.heap[p], p, w.nctxs, b);
        LooseIsStuck(w, b, p);
        assert Still(w, w', p);
        BusyNative(w, w', b, p);
      }
    }
  }

  lemma LooseIsStuck(w: World, b: Busy, p: Addr)
    requires Inv(w, b) && LooseCell(w, p)
    ensures Stuck(w, b, p)
  {
    assert CellSound(w.heap[p], p, w.nctxs, b);
    forall r ensures !Owns(w, r, p) {}
  }
}
