/** The loops over handles: receiver and arguments of a host call, and temporary arguments of a Go call. */
module HandleLists {
  import opened Handles
  import opened HandleInvariants
  import opened Framing
  import opened FramingPrimitives
  import opened Programs

  ghost function Elems<T(!new)>(s: seq<T>): set<T> {
    set x | x in s
  }

  lemma ElemsCons<T(!new)>(x: T, s: seq<T>)
    ensures Elems([x] + s) == {x} + Elems(s)
  {
  }

  ghost predicate Distinct<T>(s: seq<T>) {
    forall i, j :: 0 <= i < j < |s| ==> s[i] != s[j]
  }

  // Every cell of ps is allocated outside all indexes, in the native context ca.
  ghost predicate Loose(w: World, ca: Addr, ps: seq<Addr>) {
    forall p {:trigger p in ps} :: p in ps ==> LooseCell(w, p) && w.heap[p].ctx == ca
  }

  // what WrapAll adds to the heap
  ghost predicate Grown(heap: map<Addr, NativeValue>, heap': map<Addr, NativeValue>, ca: Addr, ps: seq<Addr>) {
    && (forall p {:trigger p in heap} :: p in heap ==> p in heap' && heap'[p] == heap[p])
    && (forall p {:trigger p in heap'} :: p in heap' ==> p in heap || p in ps)
    && (forall p {:trigger p in ps} :: p in ps ==> p !in heap && p in heap' && heap'[p].id == 0 && heap'[p].ctx == ca)
  }

  lemma GrownCons(h: map<Addr, NativeValue>, h1: map<Addr, NativeValue>, h2: map<Addr, NativeValue>, ca: Addr, p: Addr, ps: seq<Addr>)
    requires p !in h && p in h1 && h1 == h[p := h1[p]] && h1[p].id == 0 && h1[p].ctx == ca
    requires Grown(h1, h2, ca, ps) && Distinct(ps)
    ensures Grown(h, h2, ca, [p] + ps) && Distinct([p] + ps)
  {
    var all := [p] + ps;
    forall q {:trigger q in h} | q in h ensures q in h2 && h2[q] == h[q] {
      assert q in h1;
    }
    forall q {:trigger q in h2} | q in h2 ensures q in h || q in all {
      assert q in h1 || q in ps;
      assert q in ps ==> q in all;
      assert p in all;
    }
    forall q {:trigger q in all} | q in all ensures q !in h && q in h2 && h2[q].id == 0 && h2[q].ctx == ca {
      assert q == p || q in ps;
    }
    assert p !in ps;
  }

  lemma {:induction false} WrapAllSound(w: World, b: Busy, ca: Addr, cells: seq<Cell>)
    requires Inv(w, b) && ca in w.nctxs && w.nctxs[ca].ref in b.ctxs
    ensures var (w', ps) := WrapAll(w, ca, cells);
      && Inv(w', b) && SameGo(w, w') && w'.nctxs == w.nctxs
      && |ps| == |cells| && Distinct(ps) && Grown(w.heap, w'.heap, ca, ps)
    decreases |cells|
  {
    hide Inv;
    if cells != [] {
      var (w1, p) := WrapBorrowed(w, ca, cells[0].js, cells[0].hint);
      WrapBorrowedKeepsInv(w, b, ca, cells[0].js, cells[0].hint);
      WrapAllSound(w1, b, ca, cells[1..]);
      var (w2, ps) := WrapAll(w1, ca, cells[1..]);
      GrownCons(w.heap, w1.heap, w2.heap, ca, p, ps);
    }
  }

  lemma WrapAllKeeps(w: World, w': World, b: Busy, ca: Addr, ps: seq<Addr>)
    requires SameGo(w, w') && Grown(w.heap, w'.heap, ca, ps)
    ensures Keeps(w, w', b, Elems(ps), {}) && Loose(w', ca, ps)
  {
    HeapOnly(w, w', b, Elems(ps));
  }

  // Fresh borrowed wrappers, one for each cell.
  ghost predicate Views(w: World, c: CtxRef, ps: seq<Addr>, vs: seq<Ref>) {
    && |vs| == |ps|
    && forall i {:trigger vs[i]} :: 0 <= i < |vs| ==>
        && vs[i] in w.vals && w.vals[vs[i]].borrowed && w.vals[vs[i]].ptr == ps[i] && w.vals[vs[i]].ctx == c
        && vs[i] !in w.hidden
  }

  // nothing but the wrappers vs, and those are new
  ghost predicate OnlyViews(w: World, w': World, vs: seq<Ref>) {
    && SameNative(w, w') && w'.ctxs == w.ctxs && w'.ctxSeq == w.ctxSeq && w'.fns == w.fns && w'.fnSeq == w.fnSeq
    && w'.hidden == w.hidden && w'.orphans == w.orphans && w.nextRef <= w'.nextRef
    && w'.fault == w.fault && w'.rogue == w.rogue
    && (forall r {:trigger r in w.vals} :: r in w.vals ==> r in w'.vals && w'.vals[r] == w.vals[r])
    && (forall r {:trigger r in w'.vals} :: r in w'.vals ==> r in w.vals || r in vs)
    && (forall r {:trigger r in vs} :: r in vs ==> r in w'.vals && r >= w.nextRef && w'.vals[r].borrowed && r !in w.hidden)
  }

  lemma {:induction false} ViewAllSound(w: World, b: Busy, c: CtxRef, ps: seq<Addr>)
    requires Inv(w, b) && Open(w, c) && Loose(w, w.ctxs[c].ptr, ps)
    ensures var (w', vs) := ViewAll(w, c, ps);
      && Inv(w', b) && OnlyViews(w, w', vs) && Views(w', c, ps, vs)
    decreases |ps|
  {
    if ps != [] {
      var p := ps[0];
      assert p in ps && LooseCell(w, p);
      var js := w.heap[p].js;
      var (w1, v) := NewBorrowed(w, c, p, js);
      NewBorrowedKeepsInv(w, b, c, p, js);
      var rest := ps[1..];
      forall q | q in rest ensures LooseCell(w1, q) && w1.heap[q].ctx == w1.ctxs[c].ptr {
        assert q in ps && LooseCell(w, q);
      }
      ViewAllSound(w1, b, c, rest);
      var (w2, vs) := ViewAll(w1, c, rest);
      ViewsCons(w, w1, w2, c, ps, v, vs);
    }
  }

  lemma ViewsCons(w: World, w1: World, w2: World, c: CtxRef, ps: seq<Addr>, v: Ref, vs: seq<Ref>)
    requires ps != [] && ps[0] != 0 && ValueInv(w) && ps[0] in w.heap
    requires (w1, v) == NewBorrowed(w, c, ps[0], w.heap[ps[0]].js)
    requires OnlyViews(w1, w2, vs) && Views(w2, c, ps[1..], vs)
    ensures OnlyViews(w, w2, [v] + vs) && Views(w2, c, ps, [v] + vs)
  {
    var all := [v] + vs;
    assert v == w.nextRef && v !in w.hidden && v !in w.vals;
    forall r {:trigger r in w.vals} | r in w.vals ensures r in w2.vals && w2.vals[r] == w.vals[r] {
      assert r in w1.vals;
    }
    forall r {:trigger r in w2.vals} | r in w2.vals ensures r in w.vals || r in all {
      assert r in w1.vals || r in vs;
      assert all[0] == v;
      assert r in vs ==> r in all;
    }
    assert v in w1.vals && w2.vals[v] == w1.vals[v];
    forall r {:trigger r in all} | r in all
      ensures r in w2.vals && r >= w.nextRef && w2.vals[r].borrowed && r !in w.hidden
    {
      if r != v { assert r in vs; }
    }
    forall i | 0 <= i < |all|
      ensures all[i] in w2.vals && w2.vals[all[i]].borrowed && w2.vals[all[i]].ptr == ps[i] && w2.vals[all[i]].ctx == c
              && all[i] !in w2.hidden
    {
      if i > 0 { assert all[i] == vs[i - 1] && ps[i] == ps[1..][i - 1]; }
    }
  }

  lemma ViewAllKeeps(w: World, w': World, b: Busy, vs: seq<Ref>)
    requires OnlyViews(w, w', vs)
    ensures Keeps(w, w', b, {}, Elems(vs))
  {
    RefsOnly(w, w', b, {}, Elems(vs));
  }

  // No wrapper that user code can reach points at a cell of ps.
  ghost predicate Unseen(w: World, ps: seq<Addr>) {
    forall r {:trigger r in w.vals} :: r in w.vals && r !in w.orphans ==> w.vals[r].ptr !in ps
  }

  lemma ReleaseFirst(w: World, b: Busy, ps: seq<Addr>)
    requires Inv(w, b) && ps != [] && Distinct(ps) && Unseen(w, ps)
    requires forall p {:trigger p in ps} :: p in ps ==> p in w.heap
    ensures var w1 := NativeRelease(w, ps[0]);
      && Inv(w1, b) && Dropped(w, w1, {ps[0]})
      && Distinct(ps[1..]) && Unseen(w1, ps[1..])
      && forall q {:trigger q in ps[1..]} :: q in ps[1..] ==> q in w1.heap
  {
    var p := ps[0];
    assert p in ps;
    NativeReleaseKeepsInv(w, b, p);
    var rest := ps[1..];
    forall q | q in rest ensures q in ps && q != p {}
  }

  lemma {:induction false} NativeReleaseAllKeepsInv(w: World, b: Busy, ps: seq<Addr>)
    requires Inv(w, b) && Distinct(ps) && Unseen(w, ps)
    requires forall p {:trigger p in ps} :: p in ps ==> p in w.heap
    ensures Inv(NativeReleaseAll(w, ps), b)
    decreases |ps|
  {
    hide Inv, Distinct, Unseen, NativeRelease;
    if ps != [] {
      ReleaseFirst(w, b, ps);
      NativeReleaseAllKeepsInv(NativeRelease(w, ps[0]), b, ps[1..]);
    }
  }

  lemma {:induction false} NativeReleaseAllDrops(w: World, b: Busy, ps: seq<Addr>)
    requires Inv(w, b) && Distinct(ps) && Unseen(w, ps)
    requires forall p {:trigger p in ps} :: p in ps ==> p in w.heap
    ensures Dropped(w, NativeReleaseAll(w, ps), Elems(ps))
    decreases |ps|
  {
    DroppedRefl(w);
    hide Inv, Dropped, Distinct, Unseen, NativeRelease;
    if ps == [] {
      assert Elems<Addr>([]) == {};
    } else {
      var p, rest := ps[0], ps[1..];
      var w1 := NativeRelease(w, p);
      ReleaseFirst(w, b, ps);
      NativeReleaseAllDrops(w1, b, rest);
      assert ps == [p] + rest;
      ElemsCons(p, rest);
      DroppedCons(w, w1, NativeReleaseAll(w1, rest), p, Elems(rest));
    }
  }

  ghost predicate Dropped(w: World, w': World, gone: set<Addr>) {
    SameGo(w, w') && w'.heap == w.heap - gone
  }

  lemma DroppedRefl(w: World)
    ensures Dropped(w, w, {})
  {
  }

  lemma DroppedCons(w: World, w1: World, w2: World, p: Addr, gone: set<Addr>)
    requires Dropped(w, w1, {p}) && Dropped(w1, w2, gone)
    ensures Dropped(w, w2, {p} + gone)
  {
  }

  lemma NativeReleaseAllKeeps(w: World, w': World, b: Busy, ps: seq<Addr>)
    requires Dropped(w, w', Elems(ps))
    ensures Keeps(w, w', b, Elems(ps), {})
  {
    HeapOnly(w, w', b, Elems(ps));
  }

  ghost predicate OnlyNulled(w: World, w': World, vs: seq<Ref>) {
    && SameNative(w, w') && w'.ctxs == w.ctxs && w'.ctxSeq == w.ctxSeq && w'.fns == w.fns && w'.fnSeq == w.fnSeq
    && w'.hidden == w.hidden && w'.orphans == w.orphans && w'.nextRef == w.nextRef
    && w'.fault == w.fault && w'.rogue == w.rogue
    && w'.vals.Keys == w.vals.Keys
    && (forall r {:trigger r in w.vals} {:trigger r in w'.vals} :: r in w.vals ==>
          w'.vals[r] == if r in vs then w.vals[r].(ptr := 0) else w.vals[r])
  }

  lemma NulledRefl(w: World)
    ensures OnlyNulled(w, w, [])
  {
  }

  lemma NulledCons(w: World, w1: World, w2: World, v: Ref, vs: seq<Ref>)
    requires v in w.vals && w1 == Invalidate(w, v) && OnlyNulled(w1, w2, vs)
    ensures OnlyNulled(w, w2, [v] + vs)
  {
    forall r | r in w.vals
      ensures w2.vals[r] == if r in [v] + vs then w.vals[r].(ptr := 0) else w.vals[r]
    {
      assert r in w1.vals;
      assert r in [v] + vs <==> r == v || r in vs;
    }
  }

  // The views end up pointing nowhere; nothing else changes.
  lemma {:induction false} InvalidateAllSound(w: World, b: Busy, vs: seq<Ref>)
    requires Inv(w, b)
    requires forall v {:trigger v in vs} :: v in vs ==> v in w.vals && w.vals[v].borrowed
    ensures var w' := InvalidateAll(w, vs);
      Inv(w', b) && OnlyNulled(w, w', vs)
    decreases |vs|
  {
    NulledRefl(w);
    hide Inv, OnlyNulled;
    if vs != [] {
      var v := vs[0];
      assert v in vs;
      var w1 := Invalidate(w, v);
      InvalidateKeepsInv(w, b, v);
      forall u | u in vs[1..] ensures u in w1.vals && w1.vals[u].borrowed { assert u in vs; }
      InvalidateAllSound(w1, b, vs[1..]);
      assert vs == [v] + vs[1..];
      NulledCons(w, w1, InvalidateAll(w1, vs[1..]), v, vs[1..]);
    }
  }

  lemma InvalidateAllKeeps(w: World, w': World, b: Busy, vs: seq<Ref>)
    requires OnlyNulled(w, w', vs)
    requires forall v {:trigger v in vs} :: v in vs ==> v in w.vals && w.vals[v].borrowed
    ensures Keeps(w, w', b, {}, Elems(vs))
  {
    RefsOnly(w, w', b, {}, Elems(vs));
  }

  lemma {:induction false} ReleaseAllSound(w: World, b: Busy, vs: seq<Ref>)
    requires Inv(w, b)
    requires forall v {:trigger v in vs} :: v in vs ==> v !in w.orphans
    ensures Inv(ReleaseAll(w, vs), b) && Keeps(w, ReleaseAll(w, vs), b, {}, Elems(vs))
    decreases |vs|
  {
    hide Inv, Keeps;
    if vs == [] {
      KeepsRefl(w, b);
      assert Elems(vs) == {};
    } else {
      var v := vs[0];
      assert v in vs;
      var rest := vs[1..];
      var w1 := Release(w, v);
      ReleaseKeepsInv(w, b, v);
      ReleaseKeeps(w, b, v);
      forall u | u in rest ensures u !in w1.orphans { assert u in vs; }
      ReleaseAllSound(w1, b, rest);
      KeepsTrans(w, w1, ReleaseAll(w1, rest), b, {}, {v}, {}, Elems(rest));
      assert vs == [v] + rest;
      ElemsCons(v, rest);
      KeepsWeaken(w, ReleaseAll(w, vs), b, b, {} + {}, {v} + Elems(rest), {}, Elems(vs));
    }
  }

  /* ---- what none of this touches ---- */

  // Contexts, apart from what they track, and the function registry are as before.
  ghost predicate SameTables(w: World, w': World) {
    && w'.fns == w.fns && w'.fnSeq == w.fnSeq && w'.ctxSeq == w.ctxSeq && w'.functions == w.functions
    && w'.ctxs.Keys == w.ctxs.Keys
    && forall c {:trigger c in w.ctxs} {:trigger c in w'.ctxs} :: c in w.ctxs ==> SameContext(w.ctxs[c], w'.ctxs[c])
  }

  ghost predicate SameContext(g: GoContext, g': GoContext) {
    g'.ptr == g.ptr && g'.closed == g.closed && g'.fns == g.fns
  }

  lemma TablesTrans(w: World, w1: World, w2: World)
    requires SameTables(w, w1) && SameTables(w1, w2)
    ensures SameTables(w, w2)
  {
    forall c {:trigger c in w.ctxs} | c in w.ctxs ensures SameContext(w.ctxs[c], w2.ctxs[c]) {
      assert c in w1.ctxs && SameContext(w1.ctxs[c], w2.ctxs[c]);
    }
  }

  lemma NativeTables(w: World, w': World)
    requires GoUnchanged(w, w')
    ensures SameTables(w, w')
  {
  }

  lemma UntrackTables(w: World, v: Ref)
    requires v in w.vals
    ensures SameTables(w, Untrack(w, v))
  {
  }

  lemma ReleaseTables(w: World, v: Ref)
    ensures SameTables(w, Release(w, v)) && Release(w, v).hidden == w.hidden
  {
    if v in w.vals && w.vals[v].ptr != 0 && !w.vals[v].borrowed {
      var w1 := Untrack(w, v);
      var w2 := NativeRelease(w1, w.vals[v].ptr);
      UntrackTables(w, v);
      NativeTables(w1, w2);
      ReleaseIs(w, v);
      hide NativeRelease, Untrack, Release;
      TablesTrans(w, w1, w2);
      TablesTrans(w, w2, Invalidate(w2, v));
    }
  }

  lemma NewValueTables(w: World, c: CtxRef, p: Addr, js: Js)
    ensures SameTables(w, NewValue(w, c, p, js).0)
  {
  }

  lemma HandoffTables(w: World, v: Ref, hint: Addr)
    ensures SameTables(w, Handoff(w, v, hint).0) && Handoff(w, v, hint).0.hidden == w.hidden
  {
    if v in w.vals && w.vals[v].ptr != 0 {
      var w1 := NativeRetain(w, w.vals[v].ptr, hint).0;
      hide NativeRetain, Release, SameTables;
      NativeTables(w, w1);
      ReleaseTables(w1, v);
      InvalidateTables(w1, v);
      TablesTrans(w, w1, Release(w1, v));
      TablesTrans(w, w1, Invalidate(w1, v));
    } else {
      NativeTables(w, w);
    }
  }

  lemma InvalidateTables(w: World, v: Ref)
    ensures SameTables(w, Invalidate(w, v))
  {
  }

  // the pointers of vs are cleared, and no other
  ghost predicate PointersCleared(w: World, w': World, vs: seq<Ref>) {
    && w'.vals.Keys == w.vals.Keys
    && forall r {:trigger r in w.vals} {:trigger r in w'.vals} :: r in w.vals ==>
         w'.vals[r] == if r in vs then w.vals[r].(ptr := 0) else w.vals[r]
  }

  lemma {:induction false} InvalidateAllExact(w: World, vs: seq<Ref>)
    ensures var w' := InvalidateAll(w, vs);
      w'.heap == w.heap && w'.hidden == w.hidden && SameTables(w, w') && PointersCleared(w, w', vs)
    decreases |vs|
  {
    hide SameTables, PointersCleared;
    if vs == [] {
      NativeTables(w, w);
      NothingCleared(w);
    } else {
      var w1 := Invalidate(w, vs[0]);
      InvalidateTables(w, vs[0]);
      InvalidateAllExact(w1, vs[1..]);
      TablesTrans(w, w1, InvalidateAll(w, vs));
      ClearedCons(w, InvalidateAll(w, vs), vs);
    }
  }

  lemma NothingCleared(w: World)
    ensures PointersCleared(w, w, [])
  {
  }

  lemma ClearedCons(w: World, w': World, vs: seq<Ref>)
    requires vs != [] && PointersCleared(Invalidate(w, vs[0]), w', vs[1..])
    ensures PointersCleared(w, w', vs)
  {
    forall r {:trigger r in w.vals} | r in w.vals ensures w'.vals[r] == if r in vs then w.vals[r].(ptr := 0) else w.vals[r] {
      assert r in Invalidate(w, vs[0]).vals && (r in vs <==> r == vs[0] || r in vs[1..]);
    }
  }

  lemma {:induction false} NativeReleaseAllGo(w: World, ps: seq<Addr>)
    ensures GoUnchanged(w, NativeReleaseAll(w, ps))
    decreases |ps|
  {
    if ps != [] {
      NativeReleaseAllGo(NativeRelease(w, ps[0]), ps[1..]);
    }
  }

  lemma {:induction false} ReleaseAllTables(w: World, vs: seq<Ref>)
    ensures SameTables(w, ReleaseAll(w, vs)) && ReleaseAll(w, vs).hidden == w.hidden
    decreases |vs|
  {
    if vs == [] {
      NativeTables(w, w);
    } else {
      hide SameTables, Release;
      ReleaseTables(w, vs[0]);
      ReleaseAllTables(Release(w, vs[0]), vs[1..]);
      TablesTrans(w, Release(w, vs[0]), ReleaseAll(w, vs));
    }
  }
}
