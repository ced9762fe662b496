/** The native and Go halves of a host call, apart from the body that runs between them. */
module HostCalls {
  import opened Handles
  import opened HandleInvariants
  import opened Framing
  import opened FramingPrimitives
  import opened Programs
  import opened HandleLists

  /* ---- small composites ---- */

  // a cell and a wrapper that did not exist before need no exemption
  lemma OwnSafe(w: World, w1: World, w2: World, b: Busy, p: Addr, v: Ref)
    requires Inv(w, b) && Inv(w1, b) && Keeps(w, w1, b, {}, {}) && Keeps(w1, w2, b, {p}, {v})
    requires p !in w.heap && v !in w.vals && !View(w2, v) && !LooseCell(w2, p)
    ensures Keeps(w, w2, b, {}, {})
  {
    hide Inv, Keeps, View, LooseCell;
    KeepsTrans(w, w1, w2, b, {}, {}, {p}, {v});
    KeepsForget(w, w2, b, {} + {p}, {} + {v}, {}, {});
  }

  // What JavaScript has been told matters to nothing else.
  lemma AnsweredKeeps(w: World, w': World, b: Busy, cells: set<Addr>, refs: set<Ref>, a: Answer)
    requires Inv(w', b) && Keeps(w, w', b, cells, refs)
    ensures Inv(Answered(w', a), b) && Keeps(w, Answered(w', a), b, cells, refs)
  {
    forall p | Stuck(w, b, p) && p !in cells ensures Still(w, Answered(w', a), p) {
      assert Still(w, w', p);
      forall r ensures !Owns(Answered(w', a), r, p) { assert !Owns(w', r, p); }
    }
    AnsweredOwners(w', a);
  }

  lemma AnsweredOwners(w: World, a: Answer)
    requires ValueInv(w)
    ensures ValueInv(Answered(w, a))
  {
    forall r, s, p | p != 0 && Owns(Answered(w, a), r, p) && Owns(Answered(w, a), s, p) ensures r == s {
      assert Owns(w, r, p) && Owns(w, s, p);
    }
  }

  lemma AnsweredFields(w: World, a: Answer)
    ensures var w' := Answered(w, a);
      && w'.heap == w.heap && w'.nextSerial == w.nextSerial && w'.vals == w.vals && w'.ctxs == w.ctxs
      && w'.orphans == w.orphans && w'.hidden == w.hidden
  {
  }

  // wrapValue followed by newValue
  lemma WrapNewSafe(w: World, b: Busy, c: CtxRef, js: Js, hint: Addr)
    requires Inv(w, b) && Open(w, c)
    ensures var (w1, p) := Wrap(w, w.ctxs[c].ptr, js, hint);
      var (w2, v) := NewValue(w1, c, p, js);
      && Inv(w2, b) && Keeps(w, w2, b, {}, {})
      && p != 0 && p !in w.heap && p in w2.heap && w2.heap == w.heap[p := w2.heap[p]] && w2.heap[p].js == js
      && v == w.nextRef && v !in w.vals && Owns(w2, v, p) && v !in w.hidden
      && v in w2.vals && w2.vals == w.vals[v := w2.vals[v]]
      && w2.orphans == w.orphans && w2.hidden == w.hidden && w2.fns == w.fns && Open(w2, c)
      && w2.ctxs[c].ptr == w.ctxs[c].ptr
  {
    var ca := w.ctxs[c].ptr;
    assert ContextSound(w.ctxs[c], c, w.nctxs);
    hide Inv, Keeps, Wrap, NewValue;
    var (w1, p) := Wrap(w, ca, js, hint);
    WrapKeepsInv(w, b, ca, js, hint);
    WrapKeeps(w, b, ca, js, hint);
    var (w2, v) := NewValue(w1, c, p, js);
    NewValueKeepsInv(w1, b, c, p, js);
    NewValueKeeps(w1, b, c, p, js);
    OwnSafe(w, w1, w2, b, p, v);
  }

  lemma ValueMark(w: World, w': World)
    requires ValueInv(w)
    requires w'.vals == w.vals && w'.heap == w.heap && w'.ctxs == w.ctxs && w'.nextRef == w.nextRef
    requires w.orphans <= w'.orphans <= w'.hidden
    requires forall r {:trigger r in w'.hidden} :: r in w'.hidden ==> r < w.nextRef
    requires forall r {:trigger r in w'.orphans} :: r in w'.orphans ==> r in w.vals && OrphanSound(w.vals[r], r, w.ctxs)
    ensures ValueInv(w')
  {
    forall r, s, p | p != 0 && Owns(w', r, p) && Owns(w', s, p) ensures r == s {
      assert Owns(w, r, p) && Owns(w, s, p);
    }
  }

  lemma MarkKeepsInv(w: World, b: Busy, v: Ref, hidden: set<Ref>, orphans: set<Ref>)
    requires Inv(w, b) && v in w.vals && !w.vals[v].borrowed
    requires hidden == w.hidden || hidden == w.hidden + {v}
    requires orphans == w.orphans || (orphans == w.orphans + {v} && v in hidden && OrphanSound(w.vals[v], v, w.ctxs))
    ensures Inv(w.(hidden := hidden, orphans := orphans), b)
  {
    ValueMark(w, w.(hidden := hidden, orphans := orphans));
  }

  // Marking a wrapper that the frame itself made.
  lemma MarkSafe(w: World, w2: World, b: Busy, cells: set<Addr>, v: Ref, hidden: set<Ref>, orphans: set<Ref>)
    requires Inv(w, b) && Inv(w2, b) && Keeps(w, w2, b, cells, {})
    requires v !in w.vals && v in w2.vals && !w2.vals[v].borrowed && !View(w2, v)
    requires hidden == w2.hidden || hidden == w2.hidden + {v}
    requires orphans == w2.orphans || (orphans == w2.orphans + {v} && v in hidden && OrphanSound(w2.vals[v], v, w2.ctxs))
    ensures var w3 := w2.(hidden := hidden, orphans := orphans);
      Inv(w3, b) && Keeps(w, w3, b, cells, {})
  {
    var w3 := w2.(hidden := hidden, orphans := orphans);
    MarkKeepsInv(w2, b, v, hidden, orphans);
    hide Inv, Keeps;
    MarkKeeps(w2, b, v, hidden, orphans);
    KeepsTrans(w, w2, w3, b, cells, {}, {}, {v});
    KeepsForget(w, w3, b, cells + {}, {} + {v}, cells, {});
  }

  lemma NewHiddenSafe(w: World, b: Busy, c: CtxRef, js: Js, hint: Addr)
    requires Inv(w, b) && Open(w, c)
    ensures var (w1, p) := Wrap(w, w.ctxs[c].ptr, js, hint);
      var (w2, v) := NewHidden(w1, c, p, js);
      && Inv(w2, b) && Keeps(w, w2, b, {}, {})
      && p != 0 && p !in w.heap && p in w2.heap && w2.heap == w.heap[p := w2.heap[p]] && w2.heap[p].js == js
      && v == w.nextRef && v !in w.vals && Owns(w2, v, p)
      && v in w2.vals && w2.vals == w.vals[v := w2.vals[v]]
      && w2.orphans == w.orphans && w2.hidden == w.hidden + {v} && w2.fns == w.fns && Open(w2, c)
      && w2.ctxs[c].ptr == w.ctxs[c].ptr
  {
    assert 0 < w.nextRef;
    hide Inv, Keeps, Wrap, NewValue;
    WrapNewSafe(w, b, c, js, hint);
    var (w1, p) := Wrap(w, w.ctxs[c].ptr, js, hint);
    var (w2, v) := NewValue(w1, c, p, js);
    MarkSafe(w, w2, b, {}, v, w2.hidden + {v}, w2.orphans);
    assert w2.(hidden := w2.hidden + {v}) == w2.(hidden := w2.hidden + {v}, orphans := w2.orphans);
    assert Owns(w2, v, p);
  }

  /* ---- the callback that is not found ---- */

  // up to the release of receiver and arguments
  lemma MissingFront(w: World, b: Busy, c: CtxRef, ps: seq<Addr>, missing: Cell)
    requires Inv(w, b) && Open(w, c)
    requires Distinct(ps) && Loose(w, w.ctxs[c].ptr, ps) && Unseen(w, ps)
    ensures var (w1, p) := Wrap(w, w.ctxs[c].ptr, missing.js, missing.hint);
      var (w2, v) := NewHidden(w1, c, p, missing.js);
      var w3 := NativeReleaseAll(Touch(w2, p), ps);
      && Inv(w3, b) && Keeps(w, w3, b, Elems(ps), {})
      && v == w.nextRef && v !in w.vals && Owns(w3, v, p) && v in w3.hidden && p != 0 && p !in w.heap
      && w3.heap == w.heap[p := w2.heap[p]] - Elems(ps) && w3.orphans == w.orphans && w3.vals == w2.vals
      && w3.vals == w.vals[v := w3.vals[v]] && Reads(w2, p, true) == Throws(missing.js)
  {
    hide Inv, Keeps, Wrap, NewHidden;
    var (w1, p) := Wrap(w, w.ctxs[c].ptr, missing.js, missing.hint);
    var (w2, v) := NewHidden(w1, c, p, missing.js);
    NewHiddenSafe(w, b, c, missing.js, missing.hint);
    assert Owns(w2, v, p) && Touch(w2, p) == w2;
    UnseenGrow(w, w2, ps, v, p);
    ReleaseCells(w, w2, b, ps, {});
  }

  // Releasing the frame's own cells after something that only added to the heap.
  lemma ReleaseCells(w: World, w2: World, b: Busy, ps: seq<Addr>, refs: set<Ref>)
    requires Inv(w, b) && Inv(w2, b) && Keeps(w, w2, b, {}, refs)
    requires Distinct(ps) && Unseen(w2, ps)
    requires forall p {:trigger p in ps} :: p in ps ==> p in w2.heap
    ensures var w3 := NativeReleaseAll(w2, ps);
      Inv(w3, b) && Dropped(w2, w3, Elems(ps)) && Keeps(w, w3, b, Elems(ps), refs)
  {
    hide Inv, Keeps;
    var w3 := NativeReleaseAll(w2, ps);
    NativeReleaseAllKeepsInv(w2, b, ps);
    NativeReleaseAllDrops(w2, b, ps);
    NativeReleaseAllKeeps(w2, w3, b, ps);
    KeepsTrans(w, w2, w3, b, {}, refs, Elems(ps), {});
    KeepsWeaken(w, w3, b, b, {} + Elems(ps), refs + {}, Elems(ps), refs);
  }

  lemma MissingUnfold(w: World, c: CtxRef, ps: seq<Addr>, missing: Cell)
    requires c in w.ctxs
    ensures var (w1, p) := Wrap(w, w.ctxs[c].ptr, missing.js, missing.hint);
      var (w2, v) := NewHidden(w1, c, p, missing.js);
      var w3 := NativeReleaseAll(Touch(w2, p), ps);
      HostMissing(w, c, w.ctxs[c].ptr, ps, missing) ==
        Answered(NativeRelease(w3.(orphans := w3.orphans + {v}), p), Reads(w2, p, true))
  {
  }

  lemma HostMissingSafe(w: World, b: Busy, c: CtxRef, ps: seq<Addr>, missing: Cell)
    requires Inv(w, b) && Open(w, c)
    requires Distinct(ps) && Loose(w, w.ctxs[c].ptr, ps) && Unseen(w, ps)
    ensures var w' := HostMissing(w, c, w.ctxs[c].ptr, ps, missing);
      var v := w.nextRef;
      && Inv(w', b) && Keeps(w, w', b, Elems(ps), {})
      && w'.heap == w.heap - Elems(ps)
      && w'.orphans == w.orphans + {v}
      && v !in w.vals && v in w'.vals && w'.vals == w.vals[v := w'.vals[v]]
      && w'.answers == w.answers + [Throws(missing.js)]
  {
    hide Inv, Keeps, Wrap, NewHidden, HostMissing, NativeReleaseAll, NativeRelease, Reads, Owns, Distinct, Loose, Unseen;
    OpenIn(w, c);
    var (w1, p) := Wrap(w, w.ctxs[c].ptr, missing.js, missing.hint);
    var (w2, v) := NewHidden(w1, c, p, missing.js);
    var w3 := NativeReleaseAll(Touch(w2, p), ps);
    var w4 := NativeRelease(w3.(orphans := w3.orphans + {v}), p);
    MissingUnfold(w, c, ps, missing);
    MissingFront(w, b, c, ps, missing);
    MissingBack(w, w3, b, Elems(ps), v, p);
    GoneAgain(w.heap, p, w2.heap[p], Elems(ps));
    AnsweredKeeps(w, w4, b, Elems(ps), {}, Reads(w2, p, true));
  }

  lemma OpenIn(w: World, c: CtxRef)
    requires Open(w, c)
    ensures c in w.ctxs
  {
  }

  lemma GoneAgain(heap: map<Addr, NativeValue>, p: Addr, cell: NativeValue, gone: set<Addr>)
    requires p !in heap
    ensures heap[p := cell] - gone - {p} == heap - gone
  {
  }

  lemma MissingBack(w: World, w3: World, b: Busy, cells: set<Addr>, v: Ref, p: Addr)
    requires Inv(w, b) && Inv(w3, b) && Keeps(w, w3, b, cells, {})
    requires v !in w.vals && Owns(w3, v, p) && v in w3.hidden && p != 0 && p !in w.heap
    ensures var w' := NativeRelease(w3.(orphans := w3.orphans + {v}), p);
      && Inv(w', b) && Keeps(w, w', b, cells, {})
      && w'.heap == w3.heap - {p} && w'.orphans == w3.orphans + {v} && w'.vals == w3.vals && w'.answers == w3.answers
      && p in w3.heap
  {
    var w4 := w3.(orphans := w3.orphans + {v});
    assert Backed(w3.vals[v], v, w3.heap, w3.ctxs);
    MarkSafe(w, w3, b, cells, v, w3.hidden, w3.orphans + {v});
    assert w4 == w3.(hidden := w3.hidden, orphans := w3.orphans + {v});
    forall r {:trigger r in w4.vals} | r in w4.vals && r !in w4.orphans ensures w4.vals[r].ptr != p {
      if w4.vals[r].ptr == p { SoleOwner(w3, b, v, r, p); }
    }
    OrphanReleased(w, w4, b, cells, {}, p);
  }

  lemma UnseenGrow(w: World, w2: World, ps: seq<Addr>, v: Ref, p: Addr)
    requires Unseen(w, ps) && Owns(w2, v, p) && w2.orphans == w.orphans && p !in w.heap
    requires forall q {:trigger q in ps} :: q in ps ==> q in w.heap
    requires forall r {:trigger r in w2.vals} :: r in w2.vals ==> r == v || (r in w.vals && w2.vals[r] == w.vals[r])
    ensures Unseen(w2, ps)
  {
  }

  // deleting a cell of the frame's own that no reachable wrapper points at
  lemma OrphanReleased(w: World, w4: World, b: Busy, cells: set<Addr>, refs: set<Ref>, p: Addr)
    requires Inv(w, b) && Inv(w4, b) && Keeps(w, w4, b, cells, refs)
    requires p !in w.heap && p in w4.heap
    requires forall r {:trigger r in w4.vals} :: r in w4.vals && r !in w4.orphans ==> w4.vals[r].ptr != p
    ensures var w' := NativeRelease(w4, p);
      && Inv(w', b) && Keeps(w, w', b, cells, refs)
      && w'.heap == w4.heap - {p} && SameGo(w4, w')
  {
    Parts(w4, b);
    hide Inv, Keeps, NativeInv, ContextInv, ValueInv, SerialInv;
    NativeReleaseKeepsInv(w4, b, p);
    NativeReleaseKeeps(w4, b, p);
    var w5 := NativeRelease(w4, p);
    KeepsTrans(w, w4, w5, b, cells, refs, {p}, {});
    KeepsForget(w, w5, b, cells + {p}, refs + {}, cells, refs);
  }

  // Whoever points at an owned cell is its owner.
  lemma SoleOwner(w: World, b: Busy, v: Ref, r: Ref, p: Addr)
    requires ValueInv(w) && Owns(w, v, p) && p != 0 && r in w.vals && r !in w.orphans && w.vals[r].ptr == p
    ensures r == v
  {
    assert Backed(w.vals[v], v, w.heap, w.ctxs) && Backed(w.vals[r], r, w.heap, w.ctxs);
    assert Owns(w, r, p);
  }
}
