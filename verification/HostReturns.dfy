/** What happens after the body of a host function has returned. */
module HostReturns {
  import opened Handles
  import opened HandleInvariants
  import opened Framing
  import opened FramingPrimitives
  import opened Programs
  import opened HandleLists
  import opened HostCalls

  // A native frame of context c holds the cells ps, and only the wrappers vs can see them.
  ghost predicate FrameOk(w: World, b: Busy, c: CtxRef, ps: seq<Addr>, vs: seq<Ref>) {
    && Open(w, c) && c in b.ctxs
    && Distinct(ps) && Loose(w, w.ctxs[c].ptr, ps)
    && (forall v {:trigger v in vs} :: v in vs ==> v in w.vals && w.vals[v].borrowed)
    && (forall r {:trigger r in w.vals} :: r in w.vals && r !in w.orphans && w.vals[r].ptr in ps ==> r in vs)
  }

  lemma FrameStays(w: World, w': World, b: Busy, c: CtxRef, ps: seq<Addr>, vs: seq<Ref>, refs: set<Ref>)
    requires Inv(w, b) && Inv(w', b) && FrameOk(w, b, c, ps, vs)
    requires Keeps(w, w', b, {}, refs)
    requires forall r {:trigger r in refs} :: r in refs ==> !View(w', r)
    ensures FrameOk(w', b, c, ps, vs)
  {
    assert Open(w', c);
    forall p {:trigger p in ps} | p in ps ensures LooseCell(w', p) && w'.heap[p].ctx == w'.ctxs[c].ptr {
      assert LooseCell(w, p);
      LooseIsStuck(w, b, p);
      assert Still(w, w', p);
    }
    forall v {:trigger v in vs} | v in vs ensures v in w'.vals && w'.vals[v].borrowed {
      assert SameWrapper(w, w', v);
    }
    forall r {:trigger r in w'.vals} | r in w'.vals && r !in w'.orphans && w'.vals[r].ptr in ps ensures r in vs {
      SeenStays(w, w', b, ps, refs, r);
    }
  }

  lemma SeenStays(w: World, w': World, b: Busy, ps: seq<Addr>, refs: set<Ref>, r: Ref)
    requires Inv(w, b) && Inv(w', b) && Keeps(w, w', b, {}, refs)
    requires forall u {:trigger u in refs} :: u in refs ==> !View(w', u)
    requires forall p {:trigger p in ps} :: p in ps ==> LooseCell(w', p)
    requires r in w'.vals && r !in w'.orphans && w'.vals[r].ptr in ps
    ensures r in w.vals && r !in w.orphans && w.vals[r].ptr == w'.vals[r].ptr
  {
    assert LooseCell(w', w'.vals[r].ptr);
    assert Backed(w'.vals[r], r, w'.heap, w'.ctxs);
    assert View(w', r);
    assert View(w, r);
    assert SameWrapper(w, w', r);
  }

  lemma InvalidateViews(w: World, b: Busy, c: CtxRef, ps: seq<Addr>, vs: seq<Ref>)
    requires Inv(w, b) && FrameOk(w, b, c, ps, vs)
    ensures var w' := InvalidateAll(w, vs);
      && Inv(w', b) && OnlyNulled(w, w', vs) && Keeps(w, w', b, {}, Elems(vs))
      && Unseen(w', ps) && FrameOk(w', b, c, ps, vs)
      && forall v {:trigger v in vs} :: v in vs ==> !View(w', v)
  {
    var w' := InvalidateAll(w, vs);
    forall p {:trigger p in ps} | p in ps ensures p != 0 { assert LooseCell(w, p); }
    hide Inv, Keeps;
    InvalidateAllSound(w, b, vs);
    InvalidateAllKeeps(w, w', b, vs);
    NulledUnseen(w, w', b, c, ps, vs);
    FrameStays(w, w', b, c, ps, vs, Elems(vs));
  }

  lemma NulledUnseen(w: World, w': World, b: Busy, c: CtxRef, ps: seq<Addr>, vs: seq<Ref>)
    requires FrameOk(w, b, c, ps, vs) && OnlyNulled(w, w', vs)
    requires forall p {:trigger p in ps} :: p in ps ==> p != 0
    ensures Unseen(w', ps)
    ensures forall v {:trigger v in vs} :: v in vs ==> !View(w', v)
  {
    forall r {:trigger r in w'.vals} | r in w'.vals && r !in w'.orphans ensures w'.vals[r].ptr !in ps {
      assert r in w.vals;
    }
  }

  // No wrapper that user code can reach points at h.
  ghost predicate Unpointed(w: World, h: Addr) {
    forall r {:trigger r in w.vals} :: r in w.vals && r !in w.orphans ==> w.vals[r].ptr != h
  }

  lemma HostEndUnfold(w: World, ps: seq<Addr>, h: Addr)
    ensures h == 0 ==> HostEnd(w, ps, h) == NativeReleaseAll(w, ps)
    ensures h in w.heap && h != 0 ==> HostEnd(w, ps, h) == NativeRelease(NativeReleaseAll(w, ps), h)
  {
  }

  lemma WithoutNull(heap: map<Addr, NativeValue>, gone: set<Addr>)
    requires 0 !in heap
    ensures heap - {0} == heap && heap - gone - {0} == heap - gone
  {
  }

  // reading the result, then releasing receiver, arguments and result
  lemma HostEndSafe(w: World, w2: World, b: Busy, ps: seq<Addr>, refs: set<Ref>, h: Addr)
    requires Inv(w, b) && Inv(w2, b) && Keeps(w, w2, b, {}, refs)
    requires Distinct(ps) && Unseen(w2, ps)
    requires forall p {:trigger p in ps} :: p in ps ==> p in w2.heap
    requires h == 0 || (h in w2.heap && h !in ps && h !in w.heap && Unpointed(w2, h))
    ensures var w' := HostEnd(w2, ps, h);
      && Inv(w', b) && GoUnchanged(w2, w') && w'.heap == w2.heap - Elems(ps) - {h}
      && Keeps(w, w', b, Elems(ps), refs)
  {
    assert 0 !in w2.heap;
    hide Inv, Keeps, HostEnd, Unseen, Distinct, Unpointed, NativeReleaseAll, NativeRelease;
    HostEndUnfold(w2, ps, h);
    ReleaseCells(w, w2, b, ps, refs);
    var w3 := NativeReleaseAll(w2, ps);
    if h != 0 {
      HostEndResult(w, w2, w3, b, ps, refs, h);
    } else {
      WithoutNull(w2.heap, Elems(ps));
    }
  }

  lemma HostEndResult(w: World, w2: World, w3: World, b: Busy, ps: seq<Addr>, refs: set<Ref>, h: Addr)
    requires Inv(w, b) && Inv(w3, b) && Keeps(w, w3, b, Elems(ps), refs)
    requires w3.heap == w2.heap - Elems(ps) && GoUnchanged(w2, w3)
    requires h in w2.heap && h !in ps && h !in w.heap && Unpointed(w2, h)
    ensures var w' := NativeRelease(w3, h);
      && Inv(w', b) && GoUnchanged(w2, w') && w'.heap == w2.heap - Elems(ps) - {h}
      && Keeps(w, w', b, Elems(ps), refs)
  {
    hide Inv, Keeps;
    OrphanReleased(w, w3, b, Elems(ps), refs, h);
  }

  // handoffHostValue of a wrapper that still points somewhere
  lemma HandoffShape(w: World, b: Busy, v: Ref, hint: Addr)
    requires Inv(w, b) && v in w.vals && v !in w.orphans && w.vals[v].ptr != 0
    ensures var (w', h) := Handoff(w, v, hint);
      && Inv(w', b)
      && h != 0 && h !in w.heap && h in w'.heap
      && w'.heap[h].js == w.vals[v].born && w'.heap[h].id != 0
      && w'.heap == w.heap[h := w'.heap[h]] - (if w.vals[v].borrowed then {} else {w.vals[v].ptr})
      && w'.nextSerial == w.nextSerial + 1
      && Unpointed(w', h)
      && Keeps(w, w', b, {}, {v})
      && v in w'.vals && w'.vals[v] == w.vals[v].(ptr := 0) && w'.orphans == w.orphans && w'.hidden == w.hidden
  {
    hide Inv, Keeps, Handoff, NativeRetain, Release, Invalidate;
    var (w1, h) := NativeRetain(w, w.vals[v].ptr, hint);
    HandoffUnfold(w, v, hint);
    RetainSafe(w, b, v, hint);
    HandoffDrop(w, w1, b, v, h);
  }

  lemma HandoffUnfold(w: World, v: Ref, hint: Addr)
    requires v in w.vals && w.vals[v].ptr != 0
    ensures var (w1, p) := NativeRetain(w, w.vals[v].ptr, hint);
      Handoff(w, v, hint) == (if w.vals[v].borrowed then Invalidate(w1, v) else Release(w1, v), p)
  {
  }

  // GV8ValueRetain on the cell of a wrapper that still points somewhere
  lemma RetainSafe(w: World, b: Busy, v: Ref, hint: Addr)
    requires Inv(w, b) && v in w.vals && v !in w.orphans && w.vals[v].ptr != 0
    ensures var (w1, h) := NativeRetain(w, w.vals[v].ptr, hint);
      && Inv(w1, b) && Keeps(w, w1, b, {}, {}) && SameGo(w, w1)
      && w.vals[v].ptr in w.heap && w.vals[v].ctx in w.ctxs
      && h != 0 && h !in w.heap && h in w1.heap && w1.heap == w.heap[h := w1.heap[h]]
      && w1.heap[h].js == w.vals[v].born && w1.heap[h].id != 0 && w1.heap[h].ctx == w.ctxs[w.vals[v].ctx].ptr
      && w1.nextSerial == w.nextSerial + 1
  {
    var p := w.vals[v].ptr;
    assert Backed(w.vals[v], v, w.heap, w.ctxs);
    assert w.heap[p].ctx in w.nctxs by { assert CellSound(w.heap[p], p, w.nctxs, b); }
    hide Inv, Keeps;
    WrapKeepsInv(w, b, w.heap[p].ctx, w.heap[p].js, hint);
    WrapKeeps(w, b, w.heap[p].ctx, w.heap[p].js, hint);
  }

  lemma HandoffDrop(w: World, w1: World, b: Busy, v: Ref, h: Addr)
    requires Inv(w, b) && Inv(w1, b) && Keeps(w, w1, b, {}, {}) && SameGo(w, w1)
    requires v in w.vals && v !in w.orphans && w.vals[v].ptr != 0 && w.vals[v].ptr in w.heap
    requires h != 0 && h !in w.heap && h in w1.heap && w1.heap == w.heap[h := w1.heap[h]]
    ensures var w' := if w.vals[v].borrowed then Invalidate(w1, v) else Release(w1, v);
      && Inv(w', b) && Unpointed(w', h) && Keeps(w, w', b, {}, {v})
      && v in w'.vals && w'.vals[v] == w.vals[v].(ptr := 0) && w'.orphans == w.orphans && w'.hidden == w.hidden
      && w'.nextSerial == w1.nextSerial
      && w'.heap == if w.vals[v].borrowed then w1.heap else w1.heap - {w.vals[v].ptr}
  {
    hide Inv, ValueInv, NativeInv, ContextInv, SerialInv, Keeps, Release, Unpointed;
    Parts(w, b);
    ReleaseUnfold(w1, v);
    UnpointedAfter(w, w1, Release(w1, v), v, h);
    ReleaseKeepsInv(w1, b, v);
    ReleaseKeeps(w1, b, v);
    var w' := Release(w1, v);
    KeepsThenRefs(w, w1, w', b, {v});
  }

  lemma ReleaseUnfold(w: World, v: Ref)
    requires v in w.vals && w.vals[v].ptr != 0
    ensures w.vals[v].borrowed ==> Release(w, v) == Invalidate(w, v)
    ensures Release(w, v).vals == w.vals[v := w.vals[v].(ptr := 0)]
    ensures Release(w, v).nextSerial == w.nextSerial
  {
  }

  lemma UnpointedAfter(w: World, w1: World, w': World, v: Ref, h: Addr)
    requires ValueInv(w) && w1.vals == w.vals && w1.orphans == w.orphans && h !in w.heap && h != 0
    requires w' == Release(w1, v)
    ensures Unpointed(w', h)
  {
    if v in w1.vals && w1.vals[v].ptr != 0 { ReleaseUnfold(w1, v); }
    assert w'.vals == w.vals || w'.vals == w.vals[v := w.vals[v].(ptr := 0)];
    hide Release;
    forall r {:trigger r in w'.vals} | r in w'.vals && r !in w'.orphans ensures w'.vals[r].ptr != h {
      assert r in w.vals;
      assert w.vals[r].ptr != 0 ==> Backed(w.vals[r], r, w.heap, w.ctxs);
    }
  }

  /* ---- the three ways of returning ---- */

  // After HostReturn: the frame's cells are gone, its views point nowhere, and what else could
  // have been in use is as it was.
  ghost predicate Returned(w: World, w': World, b: Busy, ps: seq<Addr>, vs: seq<Ref>) {
    && Inv(w', b)
    && Keeps(w, w', b, Elems(ps), Elems(vs))
    && (forall p {:trigger p in ps} :: p in ps ==> p !in w'.heap)
    && (forall v {:trigger v in vs} :: v in vs ==> !View(w', v))
  }

  lemma AnsweredReturned(w: World, w': World, b: Busy, ps: seq<Addr>, vs: seq<Ref>, a: Answer)
    requires Returned(w, w', b, ps, vs)
    ensures Returned(w, Answered(w', a), b, ps, vs)
  {
    AnsweredKeeps(w, w', b, Elems(ps), Elems(vs), a);
    hide Inv, Keeps;
  }

  // views first, then cells and result
  lemma FinishReturn(w: World, w1: World, b: Busy, c: CtxRef, ps: seq<Addr>, vs: seq<Ref>, h: Addr)
    requires Inv(w, b) && Inv(w1, b) && Keeps(w, w1, b, {}, {}) && FrameOk(w1, b, c, ps, vs)
    requires h == 0 || (h in w1.heap && h !in ps && h !in w.heap && Unpointed(w1, h))
    ensures Returned(w, HostEnd(InvalidateAll(w1, vs), ps, h), b, ps, vs)
    ensures HostEnd(InvalidateAll(w1, vs), ps, h).heap == w1.heap - Elems(ps) - {h}
  {
    var w2 := InvalidateAll(w1, vs);
    hide Inv, Keeps, FrameOk, InvalidateAll, HostEnd, Returned, Unseen, Unpointed, Distinct, View;
    FrameCells(w1, b, c, ps, vs);
    NulledUnpointed(w1, w2, b, c, ps, vs, h);
    InvalidateViews(w1, b, c, ps, vs);
    KeepsThenRefs(w, w1, w2, b, Elems(vs));
    FrameDistinct(w1, b, c, ps, vs);
    EndAfterViews(w, w2, b, ps, vs, h);
  }

  lemma FrameDistinct(w: World, b: Busy, c: CtxRef, ps: seq<Addr>, vs: seq<Ref>)
    requires FrameOk(w, b, c, ps, vs)
    ensures Distinct(ps)
  {
  }

  lemma NulledUnpointed(w1: World, w2: World, b: Busy, c: CtxRef, ps: seq<Addr>, vs: seq<Ref>, h: Addr)
    requires Inv(w1, b) && FrameOk(w1, b, c, ps, vs) && w2 == InvalidateAll(w1, vs)
    requires h != 0 ==> Unpointed(w1, h)
    ensures h != 0 ==> Unpointed(w2, h)
  {
    InvalidateAllSound(w1, b, vs);
    if h != 0 {
      forall r {:trigger r in w2.vals} | r in w2.vals && r !in w2.orphans ensures w2.vals[r].ptr != h {
        assert r in w1.vals;
      }
    }
  }

  lemma EndAfterViews(w: World, w2: World, b: Busy, ps: seq<Addr>, vs: seq<Ref>, h: Addr)
    requires Inv(w, b) && Inv(w2, b) && Keeps(w, w2, b, {}, Elems(vs))
    requires Distinct(ps) && Unseen(w2, ps)
    requires forall p {:trigger p in ps} :: p in ps ==> p in w2.heap
    requires forall v {:trigger v in vs} :: v in vs ==> !View(w2, v)
    requires h == 0 || (h in w2.heap && h !in ps && h !in w.heap && Unpointed(w2, h))
    ensures var w' := HostEnd(w2, ps, h);
      Returned(w, w', b, ps, vs) && w'.heap == w2.heap - Elems(ps) - {h}
  {
    var w' := HostEnd(w2, ps, h);
    hide Inv, Keeps, HostEnd, Distinct, Unseen, Unpointed;
    HostEndSafe(w, w2, b, ps, Elems(vs), h);
    assert w'.vals == w2.vals;
  }

  lemma ReturnNilSafe(w: World, b: Busy, c: CtxRef, ps: seq<Addr>, vs: seq<Ref>)
    requires Inv(w, b) && FrameOk(w, b, c, ps, vs)
    ensures Returned(w, NativeReleaseAll(InvalidateAll(w, vs), ps), b, ps, vs)
    ensures NativeReleaseAll(InvalidateAll(w, vs), ps).heap == w.heap - Elems(ps)
  {
    assert 0 !in w.heap;
    KeepsRefl(w, b);
    HostEndUnfold(InvalidateAll(w, vs), ps, 0);
    FinishReturn(w, w, b, c, ps, vs, 0);
    WithoutNull(w.heap, Elems(ps));
  }

  // A host function returns a wrapper: one of its own, a borrowed argument, or any other it can name.
  lemma ReturnValueSafe(w: World, b: Busy, c: CtxRef, ps: seq<Addr>, vs: seq<Ref>, v: Ref, hint: Addr)
    requires Inv(w, b) && FrameOk(w, b, c, ps, vs) && Nameable(w, v) && v !in b.refs
    ensures var (w1, h) := Handoff(w, v, hint);
      var w' := HostEnd(InvalidateAll(w1, vs), ps, h);
      && Returned(w, w', b, ps, vs)
      && w'.heap == w.heap - Elems(ps) - (if w.vals[v].borrowed then {} else {w.vals[v].ptr})
  {
    hide Inv, Keeps, FrameOk, InvalidateAll, HostEnd, Returned, Handoff, Guarded;
    NameableFacts(w, b, v);
    FrameCells(w, b, c, ps, vs);
    if w.vals[v].ptr == 0 {
      ReturnReleased(w, b, c, ps, vs, v, hint);
      WithoutNull(w.heap, Elems(ps));
    } else {
      ReturnLive(w, b, c, ps, vs, v, hint);
    }
  }

  lemma NameableFacts(w: World, b: Busy, v: Ref)
    requires Inv(w, b) && Nameable(w, v) && v !in b.refs
    ensures v in w.vals && v !in w.orphans && 0 !in w.heap && !Guarded(w, b, v)
  {
  }

  lemma ReturnReleased(w: World, b: Busy, c: CtxRef, ps: seq<Addr>, vs: seq<Ref>, v: Ref, hint: Addr)
    requires Inv(w, b) && FrameOk(w, b, c, ps, vs) && v in w.vals && w.vals[v].ptr == 0 && 0 !in w.heap
    ensures var (w1, h) := Handoff(w, v, hint);
      var w' := HostEnd(InvalidateAll(w1, vs), ps, h);
      Returned(w, w', b, ps, vs) && w'.heap == w.heap - Elems(ps)
  {
    hide Inv, Keeps, FrameOk, InvalidateAll, HostEnd, Returned;
    KeepsRefl(w, b);
    FinishReturn(w, w, b, c, ps, vs, 0);
  }

  lemma ReturnLive(w: World, b: Busy, c: CtxRef, ps: seq<Addr>, vs: seq<Ref>, v: Ref, hint: Addr)
    requires Inv(w, b) && FrameOk(w, b, c, ps, vs) && v in w.vals && w.vals[v].ptr != 0
    requires v !in w.orphans && 0 !in w.heap && !Guarded(w, b, v)
    requires forall p {:trigger p in ps} :: p in ps ==> p in w.heap
    ensures var (w1, h) := Handoff(w, v, hint);
      var w' := HostEnd(InvalidateAll(w1, vs), ps, h);
      && Returned(w, w', b, ps, vs)
      && w'.heap == w.heap - Elems(ps) - (if w.vals[v].borrowed then {} else {w.vals[v].ptr})
  {
    hide Inv, Keeps, FrameOk, InvalidateAll, HostEnd, Returned, Handoff, Guarded, Unpointed;
    var (w1, h) := Handoff(w, v, hint);
    HandoffShape(w, b, v, hint);
    Unguarded(w, w1, b, v);
    FrameStays(w, w1, b, c, ps, vs, {v});
    FinishReturn(w, w1, b, c, ps, vs, h);
  }

  lemma FrameCells(w: World, b: Busy, c: CtxRef, ps: seq<Addr>, vs: seq<Ref>)
    requires FrameOk(w, b, c, ps, vs)
    ensures forall p {:trigger p in ps} :: p in ps ==> p in w.heap
  {
    forall p {:trigger p in ps} | p in ps ensures p in w.heap { assert LooseCell(w, p); }
  }

  // A host function returns an error: a fresh error value, handed over after the views are gone.
  lemma ReturnErrSafe(w: World, b: Busy, c: CtxRef, ps: seq<Addr>, vs: seq<Ref>, js: Js, hint: Addr, retained: Addr)
    requires Inv(w, b) && FrameOk(w, b, c, ps, vs)
    ensures var (w4, h) := Handed(w, b, c, vs, RetErr(js, hint, retained));
      var w' := HostEnd(w4, ps, h);
      && Returned(w, w', b, ps, vs)
      && w'.heap == w.heap - Elems(ps)
  {
    assert Open(w, c) && 0 < w.nextRef;
    FrameCells(w, b, c, ps, vs);
    FrameDistinct(w, b, c, ps, vs);
    var (w1, p) := Wrap(w, w.ctxs[c].ptr, js, hint);
    var (w2, e) := NewValue(w1, c, p, js);
    var w3 := InvalidateAll(w2, vs);
    var (w4, h) := Handoff(w3, e, retained);
    assert Handed(w, b, c, vs, RetErr(js, hint, retained)) == (w4, h);
    hide Inv, FrameOk, Handed, HostEnd, Handoff, Wrap, NewValue, InvalidateAll;
    ReturnErrFront(w, b, c, ps, vs, js, hint);
    ReturnErrBack(w, w3, w4, b, c, ps, vs, e, p, h, retained);
  }

  lemma ReturnErrFront(w: World, b: Busy, c: CtxRef, ps: seq<Addr>, vs: seq<Ref>, js: Js, hint: Addr)
    requires Inv(w, b) && FrameOk(w, b, c, ps, vs) && Open(w, c)
    requires forall p {:trigger p in ps} :: p in ps ==> p in w.heap
    ensures var (w1, p) := Wrap(w, w.ctxs[c].ptr, js, hint);
      var (w2, e) := NewValue(w1, c, p, js);
      var w3 := InvalidateAll(w2, vs);
      && Inv(w3, b) && Keeps(w, w3, b, {}, Elems(vs)) && FrameOk(w3, b, c, ps, vs)
      && (forall v {:trigger v in vs} :: v in vs ==> !View(w3, v))
      && p != 0 && p !in w.heap && p in w3.heap && w3.heap == w.heap[p := w3.heap[p]]
      && e !in w.vals && Owns(w3, e, p)
  {
    var (w1, p) := Wrap(w, w.ctxs[c].ptr, js, hint);
    var (w2, e) := NewValue(w1, c, p, js);
    var w3 := InvalidateAll(w2, vs);
    assert e !in vs by { assert e in vs ==> e in w.vals; assert e == w.nextRef; }
    hide Inv, Keeps, FrameOk, Wrap, NewValue, InvalidateAll, View;
    WrapNewSafe(w, b, c, js, hint);
    FrameStays(w, w2, b, c, ps, vs, {});
    NullErrViews(w, w2, b, c, ps, vs, e, p);
  }

  lemma NullErrViews(w: World, w2: World, b: Busy, c: CtxRef, ps: seq<Addr>, vs: seq<Ref>, e: Ref, p: Addr)
    requires Inv(w, b) && Inv(w2, b) && Keeps(w, w2, b, {}, {}) && FrameOk(w2, b, c, ps, vs)
    requires Owns(w2, e, p) && e !in vs
    ensures var w3 := InvalidateAll(w2, vs);
      && Inv(w3, b) && Keeps(w, w3, b, {}, Elems(vs)) && FrameOk(w3, b, c, ps, vs)
      && (forall v {:trigger v in vs} :: v in vs ==> !View(w3, v))
      && w3.heap == w2.heap && Owns(w3, e, p)
  {
    hide Inv, Keeps, FrameOk, InvalidateAll, View;
    var w3 := InvalidateAll(w2, vs);
    InvalidateViews(w2, b, c, ps, vs);
    KeepsThenRefs(w, w2, w3, b, Elems(vs));
  }

  lemma ReturnErrBack(w: World, w3: World, w4: World, b: Busy, c: CtxRef, ps: seq<Addr>, vs: seq<Ref>,
                      e: Ref, p: Addr, h: Addr, retained: Addr)
    requires Inv(w, b) && Inv(w3, b) && Keeps(w, w3, b, {}, Elems(vs)) && FrameOk(w3, b, c, ps, vs)
    requires forall v {:trigger v in vs} :: v in vs ==> !View(w3, v)
    requires p != 0 && p !in w.heap && p in w3.heap && w3.heap == w.heap[p := w3.heap[p]]
    requires e !in w.vals && Owns(w3, e, p) && (w4, h) == Handoff(w3, e, retained)
    requires Distinct(ps) && forall q {:trigger q in ps} :: q in ps ==> q in w.heap
    ensures Returned(w, HostEnd(w4, ps, h), b, ps, vs)
    ensures HostEnd(w4, ps, h).heap == w.heap - Elems(ps)
  {
    hide Inv, Keeps, FrameOk, Handoff, HostEnd, Returned, Unpointed, Unseen, Distinct;
    HandoffShape(w3, b, e, retained);
    FrameStays(w3, w4, b, c, ps, vs, {e});
    StillUnseen(w3, w4, b, c, ps, vs, e);
    ForgetError(w, w3, w4, b, vs, e);
    EndAfterViews(w, w4, b, ps, vs, h);
  }

  lemma StillUnseen(w3: World, w4: World, b: Busy, c: CtxRef, ps: seq<Addr>, vs: seq<Ref>, e: Ref)
    requires FrameOk(w4, b, c, ps, vs) && Keeps(w3, w4, b, {}, {e}) && Inv(w4, b)
    requires forall v {:trigger v in vs} :: v in vs ==> !View(w3, v)
    requires !View(w4, e)
    ensures Unseen(w4, ps)
    ensures forall v {:trigger v in vs} :: v in vs ==> !View(w4, v)
  {
    FrameCells(w4, b, c, ps, vs);
    forall v {:trigger v in vs} | v in vs ensures !View(w4, v) {
      assert !View(w3, v);
    }
    forall r {:trigger r in w4.vals} | r in w4.vals && r !in w4.orphans ensures w4.vals[r].ptr !in ps {
      assert r in vs ==> !View(w4, r);
      assert 0 in ps ==> 0 in w4.heap;
    }
  }

  lemma ForgetError(w: World, w3: World, w4: World, b: Busy, vs: seq<Ref>, e: Ref)
    requires Inv(w, b) && Inv(w3, b) && Keeps(w, w3, b, {}, Elems(vs)) && Keeps(w3, w4, b, {}, {e})
    requires e !in w.vals && !View(w4, e)
    ensures Keeps(w, w4, b, {}, Elems(vs))
  {
    hide Inv, Keeps, View;
    KeepsTrans(w, w3, w4, b, {}, Elems(vs), {}, {e});
    KeepsForget(w, w4, b, {} + {}, Elems(vs) + {e}, {}, Elems(vs));
  }

  /* ---- wrappers and tables afterwards ---- */

  // The wrapper that the function gives up by returning it.
  ghost predicate GivenUp(w: World, ret: Ret, r: Ref) {
    ret.RetValue? && ret.v == r && Nameable(w, r)
  }

  // Returning clears the views and the wrapper given up, and an error leaves the wrapper of its value, which
  // points nowhere.  Nothing else on the Go side changes, apart from what the contexts track.
  ghost predicate Settled(w: World, w': World, vs: seq<Ref>, ret: Ret) {
    && SameTables(w, w') && w'.hidden == w.hidden
    && w'.vals.Keys == w.vals.Keys + (if ret.RetErr? then {w.nextRef} else {})
    && (ret.RetErr? ==> w'.vals[w.nextRef].ptr == 0)
    && forall r {:trigger r in w.vals} {:trigger r in w'.vals} :: r in w.vals ==>
         w'.vals[r] == if r in vs || GivenUp(w, ret, r) then w.vals[r].(ptr := 0) else w.vals[r]
  }

  lemma ReleaseNothing(w: World, v: Ref)
    requires v !in w.vals || w.vals[v].ptr == 0
    ensures Release(w, v) == w
  {
  }

  lemma ReleaseWrappers(w: World, v: Ref)
    ensures Release(w, v).vals == if v in w.vals then w.vals[v := w.vals[v].(ptr := 0)] else w.vals
  {
    hide Release;
    if v in w.vals && w.vals[v].ptr != 0 { ReleaseUnfold(w, v); } else { ReleaseNothing(w, v); }
  }

  lemma HandoffWrappers(w: World, v: Ref, hint: Addr)
    ensures Handoff(w, v, hint).0.vals == if v in w.vals then w.vals[v := w.vals[v].(ptr := 0)] else w.vals
  {
    hide Release, NativeRetain;
    if v in w.vals && w.vals[v].ptr != 0 { ReleaseWrappers(NativeRetain(w, w.vals[v].ptr, hint).0, v); }
  }

  lemma WrapNewTables(w: World, ca: Addr, c: CtxRef, js: Js, hint: Addr)
    requires 0 < w.nextRef && ca in w.nctxs
    ensures var (w1, p) := Wrap(w, ca, js, hint);
      var (w2, e) := NewValue(w1, c, p, js);
      && SameTables(w, w2) && w2.hidden == w.hidden && e == w.nextRef
      && e in w2.vals && w2.vals == w.vals[e := w2.vals[e]]
  {
    hide SameTables;
    var (w1, p) := Wrap(w, ca, js, hint);
    NativeTables(w, w1);
    NewValueTables(w1, c, p, js);
    TablesTrans(w, w1, NewValue(w1, c, p, js).0);
  }

  lemma NilSettles(w: World, vs: seq<Ref>, ret: Ret)
    requires ret.RetNil? || (ret.RetValue? && !Nameable(w, ret.v))
    ensures Settled(w, InvalidateAll(w, vs), vs, ret)
  {
    hide InvalidateAll, SameTables;
    InvalidateAllExact(w, vs);
  }

  lemma ValueSettles(w: World, w1: World, vs: seq<Ref>, ret: Ret)
    requires ret.RetValue? && Nameable(w, ret.v) && SameTables(w, w1) && w1.hidden == w.hidden
    requires w1.vals == w.vals[ret.v := w.vals[ret.v].(ptr := 0)]
    ensures Settled(w, InvalidateAll(w1, vs), vs, ret)
  {
    hide InvalidateAll, SameTables;
    var w' := InvalidateAll(w1, vs);
    InvalidateAllExact(w1, vs);
    TablesTrans(w, w1, w');
    forall r {:trigger r in w.vals} | r in w.vals
      ensures w'.vals[r] == if r in vs || GivenUp(w, ret, r) then w.vals[r].(ptr := 0) else w.vals[r]
    {
      assert r in w1.vals;
    }
  }

  lemma ErrSettles(w: World, w2: World, w4: World, vs: seq<Ref>, ret: Ret, e: Ref)
    requires ret.RetErr? && e == w.nextRef && e !in w.vals
    requires e in w2.vals && w2.vals == w.vals[e := w2.vals[e]] && SameTables(w, w2) && w2.hidden == w.hidden
    requires var w3 := InvalidateAll(w2, vs);
      && SameTables(w3, w4) && w4.hidden == w3.hidden
      && w4.vals == if e in w3.vals then w3.vals[e := w3.vals[e].(ptr := 0)] else w3.vals
    ensures Settled(w, w4, vs, ret)
  {
    hide InvalidateAll, SameTables;
    var w3 := InvalidateAll(w2, vs);
    InvalidateAllExact(w2, vs);
    TablesTrans(w, w2, w3);
    TablesTrans(w, w3, w4);
    assert e in w3.vals;
    forall r {:trigger r in w.vals} | r in w.vals
      ensures w4.vals[r] == if r in vs || GivenUp(w, ret, r) then w.vals[r].(ptr := 0) else w.vals[r]
    {
      assert r in w2.vals && r != e;
    }
  }

  lemma HandedSettles(w: World, b: Busy, b1: Busy, c: CtxRef, vs: seq<Ref>, ret: Ret)
    requires Inv(w, b1) && Open(w, c)
    ensures Settled(w, Handed(w, b, c, vs, ret).0, vs, ret)
  {
    OpenNative(w, b1, c);
    assert 0 < w.nextRef && w.nextRef !in w.vals;
    hide Inv, InvalidateAll, Handoff, Wrap, NewValue, SameTables, Settled;
    match ret
    case RetNil => NilSettles(w, vs, ret);
    case RetValue(v, hint) =>
      if Nameable(w, v) {
        var w0 := Blame(w, v in b.refs);
        HandoffTables(w0, v, hint);
        HandoffWrappers(w0, v, hint);
        BlamedTables(w, w0, Handoff(w0, v, hint).0);
        ValueSettles(w, Handoff(w0, v, hint).0, vs, ret);
      } else {
        NilSettles(w, vs, ret);
      }
    case RetErr(js, hint, retained) =>
      var (w1, p) := Wrap(w, w.ctxs[c].ptr, js, hint);
      var (w2, e) := NewValue(w1, c, p, js);
      var w3 := InvalidateAll(w2, vs);
      WrapNewTables(w, w.ctxs[c].ptr, c, js, hint);
      HandoffTables(w3, e, retained);
      HandoffWrappers(w3, e, retained);
      ErrSettles(w, w2, Handoff(w3, e, retained).0, vs, ret, e);
  }

  lemma BlamedTables(w: World, w0: World, w': World)
    requires (w0 == w || w0 == w.(rogue := true)) && SameTables(w0, w')
    ensures SameTables(w, w')
  {
  }

  lemma HostReturnIs(w: World, b: Busy, c: CtxRef, ps: seq<Addr>, vs: seq<Ref>, ret: Ret)
    ensures var (w1, h) := Handed(w, b, c, vs, ret);
      HostReturn(w, b, c, ps, vs, ret) == Answered(HostEnd(w1, ps, h), Reads(w1, h, ret.RetErr?))
  {
    hide Handed, HostEnd;
  }

  lemma HostEndGo(w: World, ps: seq<Addr>, h: Addr)
    ensures GoUnchanged(w, HostEnd(w, ps, h))
  {
    NativeReleaseAllGo(if h == 0 then w else Touch(w, h), ps);
    hide NativeReleaseAll, NativeRelease;
  }

  // The whole return, once the body is done.
  lemma ReturnSettles(w: World, b: Busy, b1: Busy, c: CtxRef, ps: seq<Addr>, vs: seq<Ref>, ret: Ret)
    requires Inv(w, b1) && Open(w, c)
    ensures Settled(w, HostReturn(w, b, c, ps, vs, ret), vs, ret)
  {
    hide Inv, Handed, HostEnd, HostReturn, Reads;
    var (w1, h) := Handed(w, b, c, vs, ret);
    HostReturnIs(w, b, c, ps, vs, ret);
    HandedSettles(w, b, b1, c, vs, ret);
    HostEndGo(w1, ps, h);
  }

  /* ---- what JavaScript is told ---- */

  // What a return value stands for, when the body is done: nothing, the JavaScript value that the wrapper was
  // made for, or the error.
  ghost function Meant(w: World, ret: Ret): Answer {
    match ret
    case RetNil => NoAnswer
    case RetValue(v, _) => if Nameable(w, v) && w.vals[v].ptr != 0 then Gives(w.vals[v].born) else NoAnswer
    case RetErr(js, _, _) => Throws(js)
  }

  lemma ReturnTells(w: World, b: Busy, b1: Busy, c: CtxRef, ps: seq<Addr>, vs: seq<Ref>, ret: Ret)
    requires Inv(w, b1) && FrameOk(w, b1, c, ps, vs)
    requires !HostReturn(w, b, c, ps, vs, ret).rogue
    ensures HostReturn(w, b, c, ps, vs, ret).answers == w.answers + [Meant(w, ret)]
  {
    assert w.orphans <= w.hidden && Open(w, c);
    FrameCells(w, b1, c, ps, vs);
    hide Inv, FrameOk, InvalidateAll, Handoff, Wrap, NewValue, HostEnd, HostReturn;
    var (w1, h) := Handed(w, b, c, vs, ret);
    HostReturnIs(w, b, c, ps, vs, ret);
    HostEndGo(w1, ps, h);
    match ret
    case RetNil =>
    case RetValue(v, hint) =>
      if Nameable(w, v) { ValueTells(w, b, b1, c, vs, v, hint); }
    case RetErr(js, hint, retained) =>
      ErrTells(w, b, b1, c, ps, vs, js, hint, retained);
  }

  lemma ValueTells(w: World, b: Busy, b1: Busy, c: CtxRef, vs: seq<Ref>, v: Ref, hint: Addr)
    requires Inv(w, b1) && Nameable(w, v) && v !in w.orphans && !Handed(w, b, c, vs, RetValue(v, hint)).0.rogue
    ensures var (w1, h) := Handed(w, b, c, vs, RetValue(v, hint));
      Reads(w1, h, false) == Meant(w, RetValue(v, hint))
  {
    hide Inv, InvalidateAll, Handoff;
    InvalidateAllExact(Handoff(w, v, hint).0, vs);
    if w.vals[v].ptr != 0 { HandoffShape(w, b1, v, hint); } else { HandoffNothing(w, v, hint); }
  }

  lemma HandoffNothing(w: World, v: Ref, hint: Addr)
    requires v in w.vals && w.vals[v].ptr == 0
    ensures Handoff(w, v, hint) == (w, 0)
  {
  }

  lemma ErrTells(w: World, b: Busy, b1: Busy, c: CtxRef, ps: seq<Addr>, vs: seq<Ref>, js: Js, hint: Addr, retained: Addr)
    requires Inv(w, b1) && FrameOk(w, b1, c, ps, vs) && Open(w, c)
    requires forall p {:trigger p in ps} :: p in ps ==> p in w.heap
    ensures var (w1, h) := Handed(w, b, c, vs, RetErr(js, hint, retained));
      Reads(w1, h, true) == Throws(js)
  {
    var (w1, p) := Wrap(w, w.ctxs[c].ptr, js, hint);
    var (w2, e) := NewValue(w1, c, p, js);
    var w3 := InvalidateAll(w2, vs);
    assert Handed(w, b, c, vs, RetErr(js, hint, retained)) == Handoff(w3, e, retained);
    hide Inv, FrameOk, InvalidateAll, Handoff, Wrap, NewValue, Handed;
    ReturnErrFront(w, b1, c, ps, vs, js, hint);
    WrapNewSafe(w, b1, c, js, hint);
    InvalidateAllExact(w2, vs);
    OwnerBacked(w3, b1, e, p);
    HandoffShape(w3, b1, e, retained);
  }

  lemma OwnerBacked(w: World, b: Busy, v: Ref, p: Addr)
    requires Inv(w, b) && Owns(w, v, p) && p != 0
    ensures p in w.heap && w.vals[v].born == w.heap[p].js && v !in w.orphans && v in w.vals && w.vals[v].ptr == p
  {
    assert Backed(w.vals[v], v, w.heap, w.ctxs);
  }
}
