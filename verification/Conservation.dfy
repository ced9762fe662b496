/**
 Exact accounting for the two ways a call makes temporary handles: the receiver,
 arguments and result of a host callback, and the converted arguments of a Go call.
 */
module Conservation {
  import opened Handles
  import opened HandleInvariants
  import opened Framing
  import opened FramingPrimitives
  import opened Programs
  import opened HandleLists
  import opened HostCalls
  import opened HostReturns
  import opened ProgramSafety
  import opened Moments
  import opened Runs

  /* ---- age ---- */

  // Whatever is allocated afterwards was there before, unchanged, or is younger than everything before.
  ghost predicate Aged(w: World, w': World) {
    && w.nextSerial <= w'.nextSerial
    && forall p {:trigger p in w'.heap} :: p in w'.heap ==>
        (p in w.heap && w'.heap[p] == w.heap[p]) || w.nextSerial <= w'.heap[p].serial < w'.nextSerial
  }

  lemma AgedTrans(w: World, w1: World, w2: World)
    requires Aged(w, w1) && Aged(w1, w2)
    ensures Aged(w, w2)
  {
  }

  lemma AgedSame(w: World, w': World)
    requires w'.heap == w.heap && w'.nextSerial == w.nextSerial
    ensures Aged(w, w')
  {
  }

  lemma WrapAged(w: World, ca: Addr, js: Js, hint: Addr)
    ensures Aged(w, Wrap(w, ca, js, hint).0)
  {
  }

  lemma RetainAged(w: World, p: Addr, hint: Addr)
    ensures Aged(w, NativeRetain(w, p, hint).0)
  {
  }

  lemma NativeReleaseAged(w: World, p: Addr)
    ensures Aged(w, NativeRelease(w, p))
  {
  }

  lemma {:induction false} NativeReleaseAllAged(w: World, ps: seq<Addr>)
    ensures Aged(w, NativeReleaseAll(w, ps))
    decreases |ps|
  {
    if ps != [] {
      NativeReleaseAged(w, ps[0]);
      NativeReleaseAllAged(NativeRelease(w, ps[0]), ps[1..]);
      AgedTrans(w, NativeRelease(w, ps[0]), NativeReleaseAll(w, ps));
    }
  }

  lemma {:induction false} InvalidateAllAged(w: World, vs: seq<Ref>)
    ensures Aged(w, InvalidateAll(w, vs))
    decreases |vs|
  {
    if vs != [] {
      AgedSame(w, Invalidate(w, vs[0]));
      InvalidateAllAged(Invalidate(w, vs[0]), vs[1..]);
      AgedTrans(w, Invalidate(w, vs[0]), InvalidateAll(w, vs));
    }
  }

  lemma SameCellsAged(w: World, v: Ref)
    ensures Aged(w, w) && Aged(w, Invalidate(w, v)) && (v in w.vals ==> Aged(w, Untrack(w, v)))
  {
    AgedSame(w, Invalidate(w, v));
    if v in w.vals { AgedSame(w, Untrack(w, v)); }
  }

  lemma OwnerReleaseAged(w: World, v: Ref)
    requires v in w.vals && w.vals[v].ptr != 0 && !w.vals[v].borrowed
    ensures Aged(w, Release(w, v))
  {
    hide *;
    var w1 := Untrack(w, v);
    var w2 := NativeRelease(w1, w.vals[v].ptr);
    ReleaseIs(w, v);
    SameCellsAged(w, v);
    NativeReleaseAged(w1, w.vals[v].ptr);
    SameCellsAged(w2, v);
    AgedTrans(w, w1, w2);
    AgedTrans(w, w2, Invalidate(w2, v));
  }

  lemma ReleaseAged(w: World, v: Ref)
    ensures Aged(w, Release(w, v))
  {
    hide Aged, Invalidate, Untrack, NativeRelease;
    SameCellsAged(w, v);
    if v in w.vals && w.vals[v].ptr != 0 && !w.vals[v].borrowed { OwnerReleaseAged(w, v); }
  }

  lemma HandoffAged(w: World, v: Ref, hint: Addr)
    ensures Aged(w, Handoff(w, v, hint).0)
  {
    if v in w.vals && w.vals[v].ptr != 0 {
      var (w1, p) := NativeRetain(w, w.vals[v].ptr, hint);
      RetainAged(w, w.vals[v].ptr, hint);
      ReleaseAged(w1, v);
      AgedSame(w1, Invalidate(w1, v));
      HandoffUnfold(w, v, hint);
      AgedTrans(w, w1, Handoff(w, v, hint).0);
    }
  }

  lemma HostEndAged(w: World, ps: seq<Addr>, h: Addr)
    ensures Aged(w, HostEnd(w, ps, h))
  {
    var w1 := if h == 0 then w else Touch(w, h);
    AgedSame(w, w1);
    var w2 := NativeReleaseAll(w1, ps);
    NativeReleaseAllAged(w1, ps);
    NativeReleaseAged(w2, h);
    AgedTrans(w, w1, w2);
    AgedTrans(w, w2, NativeRelease(w2, h));
  }

  lemma NewValueAged(w: World, c: CtxRef, p: Addr, js: Js)
    ensures Aged(w, NewValue(w, c, p, js).0)
  {
    AgedSame(w, NewValue(w, c, p, js).0);
  }

  lemma HandedErrAged(w: World, ca: Addr, c: CtxRef, vs: seq<Ref>, js: Js, hint: Addr, retained: Addr)
    ensures var (w1, p) := Wrap(w, ca, js, hint);
      var (w2, e) := NewValue(w1, c, p, js);
      Aged(w, Handoff(InvalidateAll(w2, vs), e, retained).0)
  {
    hide *;
    var (w1, p) := Wrap(w, ca, js, hint);
    var (w2, e) := NewValue(w1, c, p, js);
    var w3 := InvalidateAll(w2, vs);
    WrapAged(w, ca, js, hint);
    NewValueAged(w1, c, p, js);
    AgedTrans(w, w1, w2);
    InvalidateAllAged(w2, vs);
    AgedTrans(w, w2, w3);
    HandoffAged(w3, e, retained);
    AgedTrans(w, w3, Handoff(w3, e, retained).0);
  }

  lemma HandedAged(w: World, b: Busy, c: CtxRef, vs: seq<Ref>, ret: Ret)
    ensures Aged(w, Handed(w, b, c, vs, ret).0)
  {
    var w0 := w.(rogue := true);
    AgedSame(w, w);
    AgedSame(w, w0);
    hide Aged, Wrap, NewValue, Handoff, InvalidateAll;
    InvalidateAllAged(w, vs);
    match ret
    case RetNil =>
    case RetValue(v, hint) =>
      var w1 := if v in b.refs then w0 else w;
      HandoffAged(w1, v, hint);
      InvalidateAllAged(Handoff(w1, v, hint).0, vs);
      AgedTrans(w, w1, Handoff(w1, v, hint).0);
      AgedTrans(w, Handoff(w1, v, hint).0, InvalidateAll(Handoff(w1, v, hint).0, vs));
    case RetErr(js, hint, retained) =>
      HandedErrAged(w, if c in w.ctxs then w.ctxs[c].ptr else 0, c, vs, js, hint, retained);
  }

  lemma HostReturnAged(w: World, b: Busy, c: CtxRef, ps: seq<Addr>, vs: seq<Ref>, ret: Ret)
    ensures Aged(w, HostReturn(w, b, c, ps, vs, ret))
  {
    hide Aged, Handed, HostEnd;
    var (w1, h) := Handed(w, b, c, vs, ret);
    var w2 := HostEnd(w1, ps, h);
    HandedAged(w, b, c, vs, ret);
    HostEndAged(w1, ps, h);
    AgedTrans(w, w1, w2);
    HostReturnIs(w, b, c, ps, vs, ret);
    AgedSame(w2, HostReturn(w, b, c, ps, vs, ret));
    AgedTrans(w, w2, HostReturn(w, b, c, ps, vs, ret));
  }

  // A cell that was there and is gone has been deleted exactly once.
  lemma GoneIsFreedOnce(w: World, b: Busy, w': World, b': Busy, p: Addr)
    requires Inv(w, b) && Inv(w', b') && Aged(w, w') && p in w.heap && p !in w'.heap
    ensures w.freed[w.heap[p].serial] == 0 && w'.freed[w.heap[p].serial] == 1
  {
    var s := w.heap[p].serial;
    LiveOrFreedOnce(w', s);
    forall q ensures !HasSerial(w'.heap, q, s) {
      assert HasSerial(w.heap, p, s);
      if q in w'.heap && q in w.heap && w'.heap[q] == w.heap[q] && w.heap[q].serial == s { assert HasSerial(w.heap, q, s); }
    }
  }

  // If all that is left was there before, every cell made in between has been deleted exactly once.
  lemma MadeIsFreedOnce(w: World, b: Busy, w': World, b': Busy, s: nat)
    requires Inv(w, b) && Inv(w', b') && w.nextSerial <= s < w'.nextSerial
    requires forall p {:trigger p in w'.heap} :: p in w'.heap ==> p in w.heap && w'.heap[p] == w.heap[p]
    ensures w'.freed[s] == 1
  {
    LiveOrFreedOnce(w', s);
    forall q ensures !HasSerial(w'.heap, q, s) {
      if q in w'.heap { assert w.heap[q].serial < w.nextSerial; }
    }
  }

  /* ---- host callbacks ---- */

  // The cell of the wrapper that the function returns and gives up.
  ghost function Consumed(w: World, ret: Ret): set<Addr> {
    match ret
    case RetValue(v, _) =>
      if Nameable(w, v) && w.vals[v].ptr != 0 && !w.vals[v].borrowed then {w.vals[v].ptr} else {}
    case _ => {}
  }

  lemma HostCallIs(w: World, b: Busy, u: Upcall)
    requires Inv(w, b) && Open(w, u.c) && u.id in w.fns
    ensures HostCall(w, b, u) ==
      HostReturn(AfterBody(w, b, u), b, u.c, FrameHandles(w, u), BeforeBody(w, u).1, u.ret)
  {
  }

  lemma {:induction false} WrapAllJs(w: World, b: Busy, ca: Addr, cells: seq<Cell>, i: nat)
    requires Inv(w, b) && ca in w.nctxs && w.nctxs[ca].ref in b.ctxs && i < |cells|
    ensures var (w', ps) := WrapAll(w, ca, cells);
      |ps| == |cells| && ps[i] in w'.heap && w'.heap[ps[i]].js == cells[i].js
    decreases |cells|
  {
    hide Inv;
    var (w1, p) := WrapBorrowed(w, ca, cells[0].js, cells[0].hint);
    var (w2, ps) := WrapAll(w1, ca, cells[1..]);
    WrapAllSound(w, b, ca, cells);
    WrapBorrowedKeepsInv(w, b, ca, cells[0].js, cells[0].hint);
    WrapAllSound(w1, b, ca, cells[1..]);
    if i > 0 {
      WrapAllJs(w1, b, ca, cells[1..], i - 1);
    } else {
      assert p in w1.heap && w2.heap[p] == w1.heap[p];
    }
  }

  // The body starts with exactly the frame's cells in addition, and sees each argument through its view.
  lemma FrameSetUp(w: World, b: Busy, u: Upcall)
    requires Inv(w, b) && Open(w, u.c) && u.c in b.ctxs
    ensures var ps := FrameHandles(w, u);
      var (w2, vs) := BeforeBody(w, u);
      && |ps| == |u.cells| && |vs| == |u.cells| && Distinct(ps)
      && w2.heap.Keys == w.heap.Keys + Elems(ps) && Elems(ps) !! w.heap.Keys
      && FrameOk(w2, b, u.c, ps, vs) && Inv(w2, b) && w2.fns == w.fns
      && Keeps(WrapAll(w, w.ctxs[u.c].ptr, u.cells).0, w2, b, {}, Elems(vs))
      && Views(w2, u.c, ps, vs)
  {
    var ca := w.ctxs[u.c].ptr;
    var (w1, ps) := WrapAll(w, ca, u.cells);
    OpenNative(w, b, u.c);
    hide Inv, Keeps, FrameOk, Views;
    FrameMade(w, b, u);
    WrapAllSound(w, b, ca, u.cells);
    ViewsMade(w1, b, u.c, ps);
    ViewsCount(w1, b, u.c, ps);
    GrownKeys(w.heap, w1.heap, ca, ps);
  }

  lemma ViewsCount(w: World, b: Busy, c: CtxRef, ps: seq<Addr>)
    requires Views(ViewAll(w, c, ps).0, c, ps, ViewAll(w, c, ps).1)
    ensures |ViewAll(w, c, ps).1| == |ps|
  {
  }

  lemma GrownKeys(heap: map<Addr, NativeValue>, heap': map<Addr, NativeValue>, ca: Addr, ps: seq<Addr>)
    requires Grown(heap, heap', ca, ps)
    ensures heap'.Keys == heap.Keys + Elems(ps) && Elems(ps) !! heap.Keys
  {
    forall p {:trigger p in heap'} | p in heap.Keys + Elems(ps) ensures p in heap' {}
  }

  // Argument i is seen through view i, a valid wrapper that the body can name.
  lemma ViewSees(w: World, b: Busy, u: Upcall, i: nat)
    requires Inv(w, b) && Open(w, u.c) && u.c in b.ctxs && i < |u.cells|
    ensures var ps := FrameHandles(w, u);
      var (w2, vs) := BeforeBody(w, u);
      && |ps| == |u.cells| && |vs| == |u.cells| && Nameable(w2, vs[i]) && Valid(w2, vs[i])
      && w2.vals[vs[i]] == GoValue(ps[i], u.c, true, u.cells[i].js)
  {
    var ca := w.ctxs[u.c].ptr;
    OpenNative(w, b, u.c);
    FrameSetUp(w, b, u);
    WrapAllJs(w, b, ca, u.cells, i);
    var ps := FrameHandles(w, u);
    var (w2, vs) := BeforeBody(w, u);
    assert vs[i] in w2.vals && w2.vals[vs[i]].ptr == ps[i] && ps[i] in w2.heap;
    assert ps[i] != 0;
    assert vs[i] !in w2.orphans;
    assert Backed(w2.vals[vs[i]], vs[i], w2.heap, w2.ctxs);
    SameHeap(w, u);
  }

  lemma {:induction false} ViewAllHeap(w: World, c: CtxRef, ps: seq<Addr>)
    ensures ViewAll(w, c, ps).0.heap == w.heap
    decreases |ps|
  {
    if ps != [] {
      var js := if ps[0] in w.heap then w.heap[ps[0]].js else 0;
      ViewAllHeap(NewBorrowed(w, c, ps[0], js).0, c, ps[1..]);
    }
  }

  lemma SameHeap(w: World, u: Upcall)
    requires u.c in w.ctxs
    ensures BeforeBody(w, u).0.heap == WrapAll(w, w.ctxs[u.c].ptr, u.cells).0.heap
  {
    ViewAllHeap(WrapAll(w, w.ctxs[u.c].ptr, u.cells).0, u.c, FrameHandles(w, u));
  }

  // After the body, whatever it did, the frame's cells are still there and only the views see them.
  lemma BodyKeepsFrame(w: World, b: Busy, u: Upcall)
    requires Inv(w, b) && PinsSound(w, b) && Open(w, u.c) && !AfterBody(w, b, u).rogue
    ensures var b1 := Inside(b, u.c);
      var ps := FrameHandles(w, u);
      var (w2, vs) := BeforeBody(w, u);
      var w3 := AfterBody(w, b, u);
      && Inv(w2, b1) && Inv(w3, b1) && Keeps(w2, w3, b1, {}, {})
      && FrameOk(w2, b1, u.c, ps, vs) && FrameOk(w3, b1, u.c, ps, vs)
  {
    var b1 := Inside(b, u.c);
    InvWeaken(w, b, b1);
    BodyStarts(w, b, u);
    hide Inv, Keeps, FrameOk, PinsSound, View;
    FrameSetUp(w, b1, u);
    var (w2, vs) := BeforeBody(w, u);
    ExecSafe(w2, b1, u.body);
    FrameStays(w2, AfterBody(w, b, u), b1, u.c, FrameHandles(w, u), vs, {});
  }

  // How many cells the return path allocates: a handle on the result, and for an error the error value too.
  ghost function Made(w: World, ret: Ret): nat {
    match ret
    case RetNil => 0
    case RetValue(v, _) => if Nameable(w, v) && w.vals[v].ptr != 0 then 1 else 0
    case RetErr(_, _, _) => 2
  }

  lemma ReturnHeap(w: World, b: Busy, b1: Busy, c: CtxRef, ps: seq<Addr>, vs: seq<Ref>, ret: Ret)
    requires Inv(w, b1) && FrameOk(w, b1, c, ps, vs) && b1.refs == b.refs
    requires !HostReturn(w, b, c, ps, vs, ret).rogue
    ensures var w' := HostReturn(w, b, c, ps, vs, ret);
      && Returned(w, w', b1, ps, vs) && w'.heap == w.heap - Elems(ps) - Consumed(w, ret)
  {
    hide *;
    HostReturnIs(w, b, c, ps, vs, ret);
    HostEndBlamed(w, b, c, ps, vs, ret);
    HostReturnSafe(w, b, b1, c, ps, vs, ret);
    EndHeap(w, b, b1, c, ps, vs, ret);
    var (w1, h) := Handed(w, b, c, vs, ret);
    AnsweredFields(HostEnd(w1, ps, h), Reads(w1, h, ret.RetErr?));
  }

  lemma EndHeap(w: World, b: Busy, b1: Busy, c: CtxRef, ps: seq<Addr>, vs: seq<Ref>, ret: Ret)
    requires Inv(w, b1) && FrameOk(w, b1, c, ps, vs) && b1.refs == b.refs && !Handed(w, b, c, vs, ret).0.rogue
    ensures var (w1, h) := Handed(w, b, c, vs, ret);
      HostEnd(w1, ps, h).heap == w.heap - Elems(ps) - Consumed(w, ret)
  {
    hide Inv, Returned, FrameOk, InvalidateAll, NativeReleaseAll, Handoff, HostEnd;
    match ret
    case RetNil =>
      ReturnNilSafe(w, b1, c, ps, vs);
      HostEndUnfold(InvalidateAll(w, vs), ps, 0);
    case RetValue(v, hint) =>
      if Nameable(w, v) {
        ReturnValueSafe(w, b1, c, ps, vs, v, hint);
        NullNotAllocated(w, b1);
        WithoutNull(w.heap, Elems(ps));
      } else {
        ReturnNilSafe(w, b1, c, ps, vs);
        HostEndUnfold(InvalidateAll(w, vs), ps, 0);
      }
    case RetErr(js, hint, retained) =>
      ReturnErrSafe(w, b1, c, ps, vs, js, hint, retained);
      assert Handed(w, b, c, vs, ret) == Handed(w, b1, c, vs, ret);
  }

  lemma ReturnMakes(w: World, b: Busy, b1: Busy, c: CtxRef, ps: seq<Addr>, vs: seq<Ref>, ret: Ret)
    requires Inv(w, b1) && FrameOk(w, b1, c, ps, vs) && b1.refs == b.refs
    requires !HostReturn(w, b, c, ps, vs, ret).rogue
    ensures HostReturn(w, b, c, ps, vs, ret).nextSerial == w.nextSerial + Made(w, ret)
  {
    hide Inv, FrameOk, InvalidateAll, Handoff, HostEnd, Wrap, NewValue, HostReturn;
    HostReturnIs(w, b, c, ps, vs, ret);
    match ret
    case RetNil =>
    case RetValue(v, hint) =>
      if Nameable(w, v) {
        NotAnOrphan(w, b1, v);
        if w.vals[v].ptr != 0 { HandoffShape(w, b1, v, hint); } else { HandoffNothing(w, v, hint); }
      }
    case RetErr(js, hint, retained) =>
      FrameOpen(w, b1, c, ps, vs);
      ReturnErrFront(w, b1, c, ps, vs, js, hint);
      var (w1, p) := Wrap(w, w.ctxs[c].ptr, js, hint);
      var (w2, e) := NewValue(w1, c, p, js);
      ErrorSerial(w, b1, c, js, hint);
      NotAnOrphan(InvalidateAll(w2, vs), b1, e);
      HandoffShape(InvalidateAll(w2, vs), b1, e, retained);
  }

  lemma NotAnOrphan(w: World, b: Busy, v: Ref)
    requires Inv(w, b)
    ensures Nameable(w, v) ==> v !in w.orphans
  {
  }

  lemma FrameOpen(w: World, b: Busy, c: CtxRef, ps: seq<Addr>, vs: seq<Ref>)
    requires FrameOk(w, b, c, ps, vs)
    ensures Open(w, c) && c in w.ctxs && forall p {:trigger p in ps} :: p in ps ==> p in w.heap
  {
    FrameCells(w, b, c, ps, vs);
  }

  lemma ErrorSerial(w: World, b: Busy, c: CtxRef, js: Js, hint: Addr)
    requires Inv(w, b) && Open(w, c)
    ensures var (w1, p) := Wrap(w, w.ctxs[c].ptr, js, hint);
      NewValue(w1, c, p, js).0.nextSerial == w.nextSerial + 1
  {
    OpenNative(w, b, c);
    hide Inv;
  }

  lemma NullNotAllocated(w: World, b: Busy)
    requires Inv(w, b)
    ensures 0 !in w.heap
  {
  }

  // What Returned says of the frame's cells and views.
  lemma ReturnedParts(w: World, w': World, b: Busy, ps: seq<Addr>, vs: seq<Ref>)
    requires Returned(w, w', b, ps, vs) && forall v {:trigger v in vs} :: v in vs ==> v in w.vals && w.vals[v].borrowed
    ensures Inv(w', b)
    ensures forall p {:trigger p in ps} :: p in ps ==> p !in w'.heap
    ensures forall v {:trigger v in vs} :: v in vs ==> v in w'.vals && w'.vals[v].ptr == 0
  {
    forall v {:trigger v in vs} | v in vs ensures v in w'.vals && w'.vals[v].ptr == 0 {
      assert SameWrapper(w, w', v) && !View(w', v);
    }
  }

  // Conservation, for any arity, any body and any depth of nesting: what a host call leaves allocated is what
  // its body left, less the frame's cells and the one cell of its own that it hands back.  Each receiver and
  // argument cell outlives the body and is then deleted exactly once; so are the cell handed back and every
  // cell made for the result (the handle that native code reads, and an error's value); every view is
  // invalid; and everything the enclosing frames hold is as it was.  Of what the body left on the Go side,
  // returning changes nothing but the views, the wrapper handed back, and an error's own wrapper.
  lemma HostCallConserves(w: World, b: Busy, u: Upcall)
    requires Inv(w, b) && PinsSound(w, b) && Open(w, u.c) && u.id in w.fns && !HostCall(w, b, u).rogue
    ensures var ps := FrameHandles(w, u);
      var (w2, vs) := BeforeBody(w, u);
      var w3 := AfterBody(w, b, u);
      var w' := HostCall(w, b, u);
      && w2.heap.Keys == w.heap.Keys + Elems(ps) && |Elems(ps)| == |u.cells|
      && w'.heap == w3.heap - Elems(ps) - Consumed(w3, u.ret)
      && w'.nextSerial == w3.nextSerial + Made(w3, u.ret)
      && (forall p {:trigger p in ps} :: p in ps ==>
            && p in w2.heap && p in w3.heap && w3.heap[p] == w2.heap[p]
            && w3.freed[w2.heap[p].serial] == 0 && w'.freed[w2.heap[p].serial] == 1)
      && (forall p {:trigger p in Consumed(w3, u.ret)} :: p in Consumed(w3, u.ret) ==>
            p in w3.heap && w3.freed[w3.heap[p].serial] == 0 && w'.freed[w3.heap[p].serial] == 1)
      && (forall s: nat {:trigger w'.freed[s]} :: w3.nextSerial <= s < w'.nextSerial ==> w'.freed[s] == 1)
      && (forall v {:trigger v in vs} :: v in vs ==> v in w'.vals && w'.vals[v].ptr == 0)
      && Settled(w3, w', vs, u.ret)
    ensures Inv(HostCall(w, b, u), b) && Keeps(w, HostCall(w, b, u), b, {}, {})
  {
    hide Inv, Keeps, FrameOk, Returned, HostCall, HostReturn, PinsSound, Consumed, Made, BeforeBody, AfterBody, FrameHandles, Aged, Settled;
    var b1 := Inside(b, u.c);
    var ps := FrameHandles(w, u);
    var (w2, vs) := BeforeBody(w, u);
    var w3 := AfterBody(w, b, u);
    var w' := HostCall(w, b, u);
    HostCallFrame(w, b, u);
    HostCallSafe(w, b, u);
    ReturnHeap(w3, b, b1, u.c, ps, vs, u.ret);
    ReturnMakes(w3, b, b1, u.c, ps, vs, u.ret);
    FrameOpen(w3, b1, u.c, ps, vs);
    ReturnSettles(w3, b, b1, u.c, ps, vs, u.ret);
    FrameOkViews(w3, b1, u.c, ps, vs);
    ReturnedParts(w3, w', b1, ps, vs);
    HostReturnAged(w3, b, u.c, ps, vs, u.ret);
    FrameFreed(w2, w3, w', b1, u.c, ps, vs);
    ConsumedFreed(w3, w', b1, u.ret);
    forall s: nat {:trigger w'.freed[s]} | w3.nextSerial <= s < w'.nextSerial ensures w'.freed[s] == 1 {
      MadeIsFreedOnce(w3, b1, w', b1, s);
    }
    DistinctElems(ps);
  }

  lemma FrameFreed(w2: World, w3: World, w': World, b1: Busy, c: CtxRef, ps: seq<Addr>, vs: seq<Ref>)
    requires Inv(w2, b1) && Inv(w3, b1) && Inv(w', b1) && Keeps(w2, w3, b1, {}, {}) && FrameOk(w2, b1, c, ps, vs) && Aged(w3, w')
    requires forall p {:trigger p in ps} :: p in ps ==> p !in w'.heap
    ensures forall p {:trigger p in ps} :: p in ps ==>
      && p in w2.heap && p in w3.heap && w3.heap[p] == w2.heap[p]
      && w3.freed[w2.heap[p].serial] == 0 && w'.freed[w2.heap[p].serial] == 1
  {
    hide Inv, Keeps, FrameOk, Aged;
    forall p {:trigger p in ps} | p in ps
      ensures p in w2.heap && p in w3.heap && w3.heap[p] == w2.heap[p]
      ensures w3.freed[w2.heap[p].serial] == 0 && w'.freed[w2.heap[p].serial] == 1
    {
      FrameCellStays(w2, w3, b1, c, ps, vs, p);
      GoneIsFreedOnce(w3, b1, w', b1, p);
    }
  }

  lemma ConsumedFreed(w3: World, w': World, b1: Busy, ret: Ret)
    requires Inv(w3, b1) && Inv(w', b1) && Aged(w3, w') && w'.heap.Keys !! Consumed(w3, ret)
    ensures forall p {:trigger p in Consumed(w3, ret)} :: p in Consumed(w3, ret) ==>
      p in w3.heap && w3.freed[w3.heap[p].serial] == 0 && w'.freed[w3.heap[p].serial] == 1
  {
    hide Inv, Aged, Consumed;
    forall p {:trigger p in Consumed(w3, ret)} | p in Consumed(w3, ret)
      ensures p in w3.heap && w3.freed[w3.heap[p].serial] == 0 && w'.freed[w3.heap[p].serial] == 1
    {
      ConsumedAllocated(w3, b1, ret, p);
      GoneIsFreedOnce(w3, b1, w', b1, p);
    }
  }

  lemma ConsumedAllocated(w: World, b: Busy, ret: Ret, p: Addr)
    requires Inv(w, b) && p in Consumed(w, ret)
    ensures p in w.heap
  {
    assert Backed(w.vals[ret.v], ret.v, w.heap, w.ctxs);
  }

  lemma HostCallFrame(w: World, b: Busy, u: Upcall)
    requires Inv(w, b) && PinsSound(w, b) && Open(w, u.c) && u.id in w.fns && !HostCall(w, b, u).rogue
    ensures var b1 := Inside(b, u.c);
      var ps := FrameHandles(w, u);
      var (w2, vs) := BeforeBody(w, u);
      var w3 := AfterBody(w, b, u);
      && HostCall(w, b, u) == HostReturn(w3, b, u.c, ps, vs, u.ret) && !w3.rogue
      && w2.heap.Keys == w.heap.Keys + Elems(ps) && |ps| == |u.cells| && Distinct(ps)
      && Inv(w2, b1) && Inv(w3, b1) && Keeps(w2, w3, b1, {}, {})
      && FrameOk(w2, b1, u.c, ps, vs) && FrameOk(w3, b1, u.c, ps, vs)
  {
    InvWeaken(w, b, Inside(b, u.c));
    hide Inv, Keeps, FrameOk, PinsSound, HostReturn, Views;
    FrameSetUp(w, Inside(b, u.c), u);
    HostCallIs(w, b, u);
    RogueStays(AfterBody(w, b, u), b, u.c, FrameHandles(w, u), BeforeBody(w, u).1, u.ret);
    BodyKeepsFrame(w, b, u);
  }

  lemma RogueStays(w: World, b: Busy, c: CtxRef, ps: seq<Addr>, vs: seq<Ref>, ret: Ret)
    ensures w.rogue ==> HostReturn(w, b, c, ps, vs, ret).rogue
  {
    var w' := HostReturn(w, b, c, ps, vs, ret);
  }

  lemma FrameOkViews(w: World, b: Busy, c: CtxRef, ps: seq<Addr>, vs: seq<Ref>)
    requires FrameOk(w, b, c, ps, vs)
    ensures forall v {:trigger v in vs} :: v in vs ==> v in w.vals && w.vals[v].borrowed
  {
  }

  lemma FrameCellStays(w2: World, w3: World, b: Busy, c: CtxRef, ps: seq<Addr>, vs: seq<Ref>, p: Addr)
    requires Inv(w2, b) && Keeps(w2, w3, b, {}, {}) && FrameOk(w2, b, c, ps, vs) && p in ps
    ensures p in w2.heap && p in w3.heap && w3.heap[p] == w2.heap[p]
  {
    assert LooseCell(w2, p);
    LooseIsStuck(w2, b, p);
    assert Still(w2, w3, p);
  }

  lemma {:induction false} DistinctElems(ps: seq<Addr>)
    requires Distinct(ps)
    ensures |Elems(ps)| == |ps|
    decreases |ps|
  {
    if ps != [] {
      var rest := ps[1..];
      forall i, j | 0 <= i < j < |rest| ensures rest[i] != rest[j] { assert ps[i + 1] != ps[j + 1]; }
      DistinctElems(rest);
      assert ps == [ps[0]] + rest;
      ElemsCons(ps[0], rest);
      forall k {:trigger rest[k]} | 0 <= k < |rest| ensures rest[k] != ps[0] { assert ps[k + 1] != ps[0]; }
    } else {
      assert Elems(ps) == {};
    }
  }

  // What JavaScript gets from a host call, whatever its body did.  A function that is not found throws the error
  // value made for it.  Any other gives nothing for nil and for a wrapper that points nowhere, the JavaScript value
  // that a wrapper was made for, and throws an error's own value.  Nothing else is told.
  lemma HostCallAnswers(w: World, b: Busy, u: Upcall)
    requires Inv(w, b) && PinsSound(w, b) && Open(w, u.c) && !HostCall(w, b, u).rogue
    ensures u.id !in w.fns ==> HostCall(w, b, u).answers == w.answers + [Throws(u.missing.js)]
    ensures u.id in w.fns ==> HostCall(w, b, u).answers == AfterBody(w, b, u).answers + [Meant(AfterBody(w, b, u), u.ret)]
  {
    var b1 := Inside(b, u.c);
    OpenBusy(w, b, u);
    hide *;
    OpenIn(w, u.c);
    if u.id in w.fns {
      HostCallFrame(w, b, u);
      ReturnTells(AfterBody(w, b, u), b, b1, u.c, FrameHandles(w, u), BeforeBody(w, u).1, u.ret);
    } else {
      MissingIs(w, b, u);
      FrameMade(w, b1, u);
      HostMissingSafe(WrapAll(w, w.ctxs[u.c].ptr, u.cells).0, b1, u.c, FrameHandles(w, u), u.missing);
    }
  }

  lemma MissingIs(w: World, b: Busy, u: Upcall)
    requires Inv(w, b) && Open(w, u.c) && u.id !in w.fns
    ensures var (w1, ps) := WrapAll(w, w.ctxs[u.c].ptr, u.cells);
      && FrameHandles(w, u) == ps && w1.answers == w.answers && u.c in w1.ctxs && Open(w1, u.c)
      && HostCall(w, b, u) == HostMissing(w1, u.c, w1.ctxs[u.c].ptr, ps, u.missing)
  {
    EnteredOpen(w, b, u);
    OpenBusy(w, b, u);
    hide Inv, HostMissing, WrapAll, Grown, Loose, Unseen, Keeps;
    FrameMade(w, Inside(b, u.c), u);
  }

  // A host function that returns its i-th argument gives JavaScript that very value, whatever its body has done,
  // as long as the view on the argument still points somewhere.
  lemma ReturnedArgument(w: World, b: Busy, u: Upcall, i: nat, hint: Addr)
    requires Inv(w, b) && PinsSound(w, b) && Open(w, u.c) && u.id in w.fns && !HostCall(w, b, u).rogue && i < |u.cells|
    requires var v := BeforeBody(w, u).1;
      i < |v| && u.ret == RetValue(v[i], hint) && v[i] in AfterBody(w, b, u).vals && AfterBody(w, b, u).vals[v[i]].ptr != 0
    ensures HostCall(w, b, u).answers == AfterBody(w, b, u).answers + [Gives(u.cells[i].js)]
  {
    var b1 := Inside(b, u.c);
    var (w2, vs) := BeforeBody(w, u);
    var w3 := AfterBody(w, b, u);
    OpenBusy(w, b, u);
    hide *;
    HostCallFrame(w, b, u);
    ViewSees(w, b1, u, i);
    ViewKept(w2, w3, b1, vs[i]);
    HostCallAnswers(w, b, u);
    MeansItsValue(w3, vs[i], hint);
  }

  lemma MeansItsValue(w: World, v: Ref, hint: Addr)
    requires Nameable(w, v) && w.vals[v].ptr != 0
    ensures Meant(w, RetValue(v, hint)) == Gives(w.vals[v].born)
  {
  }

  lemma OpenBusy(w: World, b: Busy, u: Upcall)
    requires Inv(w, b) && Open(w, u.c)
    ensures Inv(w, Inside(b, u.c)) && u.c in Inside(b, u.c).ctxs
  {
    InvWeaken(w, b, Inside(b, u.c));
  }

  lemma ViewKept(w2: World, w3: World, b: Busy, v: Ref)
    requires Inv(w2, b) && Inv(w3, b) && Keeps(w2, w3, b, {}, {}) && v in w2.vals && w2.vals[v].borrowed && v !in w2.hidden
    ensures v in w3.vals && v !in w3.hidden && w3.vals[v].born == w2.vals[v].born && w3.vals[v].borrowed && v !in w3.orphans
  {
    assert SameWrapper(w2, w3, v) && SameStanding(w2, w3, v);
  }
}
