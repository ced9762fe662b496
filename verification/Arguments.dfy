/**
 materializeArgs and its cleanups: which handles a Go call makes for its
 arguments, and that it gives back exactly those.
 */
module Arguments {
  import opened Handles
  import opened HandleInvariants
  import opened Framing
  import opened FramingPrimitives
  import opened Programs
  import opened HandleLists
  import opened HostCalls
  import opened HostReturns
  import opened ProgramSafety
  import opened Runs
  import opened Conservation

  // The cells that the wrappers vs own.
  ghost function OwnCells(w: World, vs: seq<Ref>): set<Addr> {
    set v | v in vs && v in w.vals && w.vals[v].ptr != 0 && !w.vals[v].borrowed :: w.vals[v].ptr
  }

  // Argument i of the native call is the caller's own handle, or a temporary for the value it converts.
  ghost predicate ArgRight(m: Materialized, i: nat, a: Arg)
    requires i < |m.argv|
  {
    match a
    case Given(v) => m.argv[i] == v
    case Temp(js, _) =>
      var t := m.argv[i];
      && t in m.temps && t in m.w.vals && m.w.vals[t].ptr in m.w.heap && m.w.heap[m.w.vals[t].ptr].js == js
      && m.w.vals[t].born == js && !m.w.vals[t].borrowed
    case Failing => false
  }

  ghost predicate AnyFails(args: seq<Arg>) {
    exists i :: 0 <= i < |args| && args[i] == Failing
  }

  // what materializing adds: one cell for each temporary, owned by it
  ghost predicate Added(w: World, m: Materialized) {
    && Distinct(m.temps)
    && (forall p {:trigger p in m.w.heap} :: p in w.heap ==> p in m.w.heap && m.w.heap[p] == w.heap[p])
    && m.w.heap.Keys == w.heap.Keys + OwnCells(m.w, m.temps)
    && OwnCells(m.w, m.temps) !! w.heap.Keys
    && w.nextRef <= m.w.nextRef
    && (forall t {:trigger t in m.temps} :: t in m.temps ==> w.nextRef <= t)
  }

  /* ---- giving back ---- */

  lemma ReleaseExact(w: World, b: Busy, v: Ref)
    requires Inv(w, b) && v !in w.orphans
    ensures var w' := Release(w, v);
      && Inv(w', b) && w'.orphans == w.orphans && w'.vals.Keys == w.vals.Keys
      && w'.heap == w.heap - OwnCells(w, [v])
      && (forall r {:trigger r in w'.vals} :: r in w.vals ==> w'.vals[r] == if r == v then w.vals[r].(ptr := 0) else w.vals[r])
  {
    hide Inv, Release, OwnCells;
    ReleaseKeepsInv(w, b, v);
    NullNotAllocated(w, b);
    OwnCellGone(w, v);
    ReleaseWrappers(w, v);
  }

  lemma OwnCellGone(w: World, v: Ref)
    requires 0 !in w.heap
    ensures w.heap - OwnCells(w, [v]) == if v in w.vals && !w.vals[v].borrowed then w.heap - {w.vals[v].ptr} else w.heap
  {
    hide OwnCells;
    OwnCell(w, v);
    WithoutNull(w.heap, {});
  }

  lemma OwnCell(w: World, v: Ref)
    ensures OwnCells(w, [v]) == if v in w.vals && w.vals[v].ptr != 0 && !w.vals[v].borrowed then {w.vals[v].ptr} else {}
  {
    assert v in [v];
  }

  lemma OwnCellsCons(w: World, w1: World, v: Ref, rest: seq<Ref>)
    requires w1.vals.Keys == w.vals.Keys
    requires forall r {:trigger r in w1.vals} :: r in w.vals ==> w1.vals[r] == if r == v then w.vals[r].(ptr := 0) else w.vals[r]
    ensures OwnCells(w, [v] + rest) == OwnCells(w, [v]) + OwnCells(w1, rest)
  {
    forall p | p in OwnCells(w, [v] + rest) ensures p in OwnCells(w, [v]) + OwnCells(w1, rest) {
      var u :| u in [v] + rest && u in w.vals && w.vals[u].ptr != 0 && !w.vals[u].borrowed && w.vals[u].ptr == p;
      if u == v { assert u in [v]; } else { assert u in rest && u in w1.vals; }
    }
    forall p | p in OwnCells(w, [v]) + OwnCells(w1, rest) ensures p in OwnCells(w, [v] + rest) {
      if p in OwnCells(w, [v]) {
        var u :| u in [v] && u in w.vals && w.vals[u].ptr != 0 && !w.vals[u].borrowed && w.vals[u].ptr == p;
        assert u in [v] + rest;
      } else {
        var u :| u in rest && u in w1.vals && w1.vals[u].ptr != 0 && !w1.vals[u].borrowed && w1.vals[u].ptr == p;
        assert u in [v] + rest && u in w.vals;
      }
    }
  }

  // Releasing a list of wrappers deletes their own cells and clears their pointers, and touches nothing else.
  lemma {:induction false} ReleaseAllExact(w: World, b: Busy, vs: seq<Ref>)
    requires Inv(w, b) && forall v {:trigger v in vs} :: v in vs ==> v !in w.orphans
    ensures var w' := ReleaseAll(w, vs);
      && Inv(w', b) && w'.vals.Keys == w.vals.Keys
      && w'.heap == w.heap - OwnCells(w, vs)
      && (forall r {:trigger r in w'.vals} :: r in w.vals ==> w'.vals[r] == if r in vs then w.vals[r].(ptr := 0) else w.vals[r])
    decreases |vs|
  {
    hide Inv, OwnCells, Release;
    if vs == [] {
      NoCells(w);
    } else {
      var v, rest := vs[0], vs[1..];
      assert v in vs && vs == [v] + rest;
      forall u {:trigger u in rest} | u in rest ensures u !in w.orphans { assert u in vs; }
      var w1 := Release(w, v);
      ReleaseExact(w, b, v);
      ReleaseAllExact(w1, b, rest);
      OwnCellsCons(w, w1, v, rest);
      var w' := ReleaseAll(w, vs);
      forall r {:trigger r in w'.vals} | r in w.vals
        ensures w'.vals[r] == if r in vs then w.vals[r].(ptr := 0) else w.vals[r]
      {
        assert r in w1.vals && (r in vs <==> r == v || r in rest);
      }
    }
  }

  lemma NoCells(w: World)
    ensures OwnCells(w, []) == {}
  {
  }

  lemma {:induction false} ReleaseAllAged(w: World, vs: seq<Ref>)
    ensures Aged(w, ReleaseAll(w, vs))
    decreases |vs|
  {
    AgedSame(w, w);
    if vs != [] {
      hide Aged, Release;
      ReleaseAged(w, vs[0]);
      ReleaseAllAged(Release(w, vs[0]), vs[1..]);
      AgedTrans(w, Release(w, vs[0]), ReleaseAll(w, vs));
    }
  }

  /* ---- making ---- */

  lemma TempShape(w: World, b: Busy, c: CtxRef, js: Js, hint: Addr)
    requires Inv(w, b) && Open(w, c)
    ensures var (w1, p) := Wrap(w, w.ctxs[c].ptr, js, hint);
      var (w2, t) := NewHidden(w1, c, p, js);
      && t == w.nextRef && w2.nextRef == t + 1 && p != 0 && p !in w.heap
      && t in w2.vals && w2.vals[t] == GoValue(p, c, false, js)
      && p in w2.heap && w2.heap[p].js == js && w2.heap == w.heap[p := w2.heap[p]]
  {
    OpenNative(w, b, c);
    assert 0 < w.nextRef;
    hide Inv;
  }

  // One temporary in front.
  lemma AddedCons(w: World, w2: World, m: Materialized, c: CtxRef, t: Ref, p: Addr)
    requires Added(w2, m) && p !in w.heap && w2.heap.Keys == w.heap.Keys + {p} && t == w.nextRef && w2.nextRef == t + 1
    requires forall q {:trigger q in w.heap} :: q in w.heap ==> q in w2.heap && w2.heap[q] == w.heap[q]
    requires t in m.w.vals && m.w.vals[t].ptr == p && p != 0 && !m.w.vals[t].borrowed
    ensures Added(w, Materialized(m.w, [t] + m.argv, [t] + m.temps, m.ok))
  {
    var all := [t] + m.temps;
    assert OwnCells(m.w, all) == {p} + OwnCells(m.w, m.temps) by {
      assert t in all && forall u {:trigger u in m.temps} :: u in m.temps ==> u in all;
    }
    forall q {:trigger q in m.w.heap} | q in w.heap ensures q in m.w.heap && m.w.heap[q] == w.heap[q] {
      assert q in w2.heap;
    }
    forall u {:trigger u in all} | u in all ensures w.nextRef <= u { assert u == t || u in m.temps; }
    forall i, j | 0 <= i < j < |all| ensures all[i] != all[j] {
      if i == 0 { assert all[j] in m.temps; }
    }
  }

  lemma NothingAdded(w: World, argv: seq<Ref>, ok: bool)
    ensures Added(w, Materialized(w, argv, [], ok))
  {
    NoCells(w);
  }

  lemma GivenAdded(w: World, m: Materialized, v: Ref)
    requires Added(w, m)
    ensures Added(w, Materialized(m.w, [v] + m.argv, m.temps, m.ok))
  {
  }

  // Materialize, one argument at a time, on a context that stays open
  lemma MaterializeCons(w: World, b: Busy, c: CtxRef, args: seq<Arg>)
    requires Inv(w, b) && Open(w, c) && args != []
    ensures args[0].Given? ==>
      var m := Materialize(w, c, args[1..]);
      Materialize(w, c, args) == Materialized(m.w, [args[0].v] + m.argv, m.temps, m.ok)
    ensures args[0].Failing? ==> Materialize(w, c, args) == Materialized(w, [], [], false)
    ensures args[0].Temp? ==>
      var (w1, p) := Wrap(w, w.ctxs[c].ptr, args[0].js, args[0].hint);
      var (w2, t) := NewHidden(w1, c, p, args[0].js);
      && Open(w2, c)
      && var m := Materialize(w2, c, args[1..]);
         Materialize(w, c, args) == Materialized(m.w, [t] + m.argv, [t] + m.temps, m.ok)
  {
    if args[0].Temp? {
      hide Inv, Wrap, NewHidden, Keeps;
      NewHiddenSafe(w, b, c, args[0].js, args[0].hint);
    }
  }

  lemma {:induction false} MaterializeExact(w: World, b: Busy, c: CtxRef, args: seq<Arg>)
    requires Inv(w, b) && Open(w, c)
    ensures Added(w, Materialize(w, c, args))
    decreases |args|
  {
    hide *;
    OpenKnown(w, c);
    if args == [] {
      MaterializeNil(w, c);
      NothingAdded(w, [], true);
    } else {
      MaterializeCons(w, b, c, args);
      match args[0]
      case Failing => NothingAdded(w, [], false);
      case Given(v) =>
        MaterializeExact(w, b, c, args[1..]);
        GivenAdded(w, Materialize(w, c, args[1..]), v);
      case Temp(js, hint) =>
        var (w1, p) := Wrap(w, w.ctxs[c].ptr, js, hint);
        var (w2, t) := NewHidden(w1, c, p, js);
        NewHiddenSafe(w, b, c, js, hint);
        TempShape(w, b, c, js, hint);
        MaterializeSafe(w2, b, c, args[1..]);
        MaterializeExact(w2, b, c, args[1..]);
        KeptWrapper(w2, Materialize(w2, c, args[1..]), c, t);
        AddedCons(w, w2, Materialize(w2, c, args[1..]), c, t, p);
    }
  }

  lemma MaterializeNil(w: World, c: CtxRef)
    requires Open(w, c)
    ensures Materialize(w, c, []) == Materialized(w, [], [], true)
  {
  }

  lemma KeptWrapper(w: World, m: Materialized, c: CtxRef, t: Ref)
    requires ArgsMade(w, m, c) && t in w.vals
    ensures t in m.w.vals && m.w.vals[t] == w.vals[t]
  {
  }

  lemma OpenKnown(w: World, c: CtxRef)
    requires Open(w, c)
    ensures c in w.ctxs
  {
  }

  // Materializing fails exactly if some conversion fails; if none does, argument i of the native call is
  // the caller's own handle or a temporary that refers to the value it converts.
  lemma {:induction false} MaterializeRight(w: World, b: Busy, c: CtxRef, args: seq<Arg>)
    requires Inv(w, b) && Open(w, c)
    ensures var m := Materialize(w, c, args);
      && (m.ok <==> !AnyFails(args))
      && (m.ok ==> |m.argv| == |args| && forall i {:trigger args[i]} :: 0 <= i < |args| ==> ArgRight(m, i, args[i]))
    decreases |args|
  {
    hide Inv, Wrap, NewHidden, Keeps, Materialize, ArgsMade, Added, Open, Owns;
    OpenKnown(w, c);
    if args == [] {
      MaterializeNil(w, c);
    } else {
      MaterializeCons(w, b, c, args);
      FailsTail(args);
      match args[0]
      case Failing =>
      case Given(v) =>
        MaterializeRight(w, b, c, args[1..]);
        RightCons(Materialize(w, c, args[1..]), Materialize(w, c, args), args, v);
      case Temp(js, hint) =>
        var (w1, p) := Wrap(w, w.ctxs[c].ptr, js, hint);
        var (w2, t) := NewHidden(w1, c, p, js);
        var m := Materialize(w2, c, args[1..]);
        NewHiddenSafe(w, b, c, js, hint);
        TempShape(w, b, c, js, hint);
        MaterializeRight(w2, b, c, args[1..]);
        MaterializeSafe(w2, b, c, args[1..]);
        MaterializeExact(w2, b, c, args[1..]);
        KeptWrapper(w2, m, c, t);
        KeptCell(w2, m, p);
        RightCons(m, Materialize(w, c, args), args, t);
    }
  }

  // How many temporaries are made before the first conversion that fails.
  ghost function Conversions(args: seq<Arg>): nat {
    if args == [] || args[0].Failing? then 0 else (if args[0].Temp? then 1 else 0) + Conversions(args[1..])
  }

  // Materializing makes one temporary for each conversion up to the first that fails, tells JavaScript nothing, and
  // leaves contexts and the registry alone.
  lemma {:induction false} MaterializeCounts(w: World, b: Busy, c: CtxRef, args: seq<Arg>)
    requires Inv(w, b) && Open(w, c)
    ensures var m := Materialize(w, c, args);
      && |m.temps| == Conversions(args) && m.w.nextSerial == w.nextSerial + Conversions(args)
      && SameTables(w, m.w) && m.w.hidden == w.hidden + Elems(m.temps)
    decreases |args|
  {
    hide Inv, Wrap, NewHidden, Keeps, Materialize, Open, Owns, SameTables, Elems;
    OpenKnown(w, c);
    NativeTables(w, w);
    NoElems();
    if args == [] {
      MaterializeNil(w, c);
    } else {
      MaterializeCons(w, b, c, args);
      match args[0]
      case Failing =>
      case Given(v) => MaterializeCounts(w, b, c, args[1..]);
      case Temp(js, hint) =>
        var (w1, p) := Wrap(w, w.ctxs[c].ptr, js, hint);
        var (w2, t) := NewHidden(w1, c, p, js);
        NewHiddenSafe(w, b, c, js, hint);
        TempTables(w, b, c, js, hint);
        MaterializeCounts(w2, b, c, args[1..]);
        var m := Materialize(w2, c, args[1..]);
        TablesTrans(w, w2, m.w);
        ElemsCons(t, m.temps);
    }
  }

  lemma NoElems()
    ensures Elems<Ref>([]) == {}
  {
  }

  lemma TempTables(w: World, b: Busy, c: CtxRef, js: Js, hint: Addr)
    requires Inv(w, b) && Open(w, c)
    ensures var (w1, p) := Wrap(w, w.ctxs[c].ptr, js, hint);
      var w2 := NewHidden(w1, c, p, js).0;
      SameTables(w, w2) && w2.nextSerial == w.nextSerial + 1
  {
    OpenNative(w, b, c);
    assert 0 < w.nextRef;
    hide Inv, SameTables;
    WrapNewTables(w, w.ctxs[c].ptr, c, js, hint);
    HiddenTables(w, NewValue(Wrap(w, w.ctxs[c].ptr, js, hint).0, c, Wrap(w, w.ctxs[c].ptr, js, hint).1, js).0, w.nextRef);
  }

  lemma HiddenTables(w: World, w1: World, v: Ref)
    requires SameTables(w, w1)
    ensures SameTables(w, w1.(hidden := w1.hidden + {v}))
  {
  }

  lemma KeptCell(w: World, m: Materialized, p: Addr)
    requires Added(w, m) && p in w.heap
    ensures p in m.w.heap && m.w.heap[p] == w.heap[p]
  {
  }

  lemma FailsTail(args: seq<Arg>)
    requires args != []
    ensures AnyFails(args) <==> args[0] == Failing || AnyFails(args[1..])
  {
    var rest := args[1..];
    if AnyFails(args) && args[0] != Failing {
      var i :| 0 <= i < |args| && args[i] == Failing;
      assert rest[i - 1] == Failing;
    }
    if AnyFails(rest) {
      var i :| 0 <= i < |rest| && rest[i] == Failing;
      assert args[i + 1] == Failing;
    }
  }

  lemma RightCons(m: Materialized, m0: Materialized, args: seq<Arg>, r: Ref)
    requires args != [] && m0.w == m.w && m0.argv == [r] + m.argv && m0.ok == m.ok
    requires m0.temps == if args[0].Temp? then [r] + m.temps else m.temps
    requires m.ok ==> |m.argv| == |args[1..]| && forall i {:trigger args[1..][i]} :: 0 <= i < |args[1..]| ==> ArgRight(m, i, args[1..][i])
    requires ArgRight(Materialized(m.w, [r], m0.temps, true), 0, args[0])
    ensures m0.ok ==> |m0.argv| == |args| && forall i {:trigger args[i]} :: 0 <= i < |args| ==> ArgRight(m0, i, args[i])
  {
    if m.ok {
      forall i {:trigger args[i]} | 0 <= i < |args| ensures ArgRight(m0, i, args[i]) {
        if i > 0 {
          assert args[1..][i - 1] == args[i] && ArgRight(m, i - 1, args[i]);
          assert forall t {:trigger t in m.temps} :: t in m.temps ==> t in m0.temps;
        }
      }
    }
  }

  /* ---- conservation ---- */

  // Whether materializing succeeds or fails, at any position, releasing the temporaries made so far puts
  // the heap and every wrapper that was there before back exactly as they were.
  lemma TemporariesGivenBack(w: World, b: Busy, c: CtxRef, args: seq<Arg>)
    requires Inv(w, b) && Open(w, c)
    ensures var m := Materialize(w, c, args);
      var w' := ReleaseAll(m.w, m.temps);
      && w'.heap == w.heap && Inv(w', b)
      && (forall r {:trigger r in w.vals} :: r in w.vals ==> r in w'.vals && w'.vals[r] == w.vals[r])
      && (forall t {:trigger t in m.temps} :: t in m.temps ==> t !in w.vals && t in w'.vals && w'.vals[t].ptr == 0)
  {
    hide Inv, Keeps, ReleaseAll, Materialize;
    var m := Materialize(w, c, args);
    MaterializeSafe(w, b, c, args);
    MaterializeExact(w, b, c, args);
    ReleaseAllExact(m.w, b, m.temps);
    BackAgain(w.heap, m.w.heap, OwnCells(m.w, m.temps));
    var w' := ReleaseAll(m.w, m.temps);
    forall r {:trigger r in w.vals} | r in w.vals ensures r in w'.vals && w'.vals[r] == w.vals[r] {
      assert r in m.w.vals && r !in m.temps;
    }
  }

  lemma BackAgain(heap: map<Addr, NativeValue>, more: map<Addr, NativeValue>, added: set<Addr>)
    requires forall p {:trigger p in more} :: p in heap ==> p in more && more[p] == heap[p]
    requires more.Keys == heap.Keys + added && added !! heap.Keys
    ensures more - added == heap
  {
    assert (more - added).Keys == heap.Keys;
  }

  // Whatever ran in between, the cleanup of a call deletes each cell that the temporaries still own, once,
  // and touches no wrapper but them: nothing the caller supplied is released.
  lemma CleanupIsExact(w: World, b: Busy, temps: seq<Ref>)
    requires Inv(w, b)
    requires forall t {:trigger t in temps} :: t in temps ==> t in w.vals && t !in w.orphans && !w.vals[t].borrowed
    ensures var w' := ReleaseAll(w, temps);
      && (forall t {:trigger t in temps} :: t in temps ==> t in w'.vals && w'.vals[t].ptr == 0)
      && (forall r {:trigger r in w.vals} :: r in w.vals && r !in temps ==> r in w'.vals && w'.vals[r] == w.vals[r])
      && (forall p {:trigger p in w.heap} :: p in w.heap && p !in OwnCells(w, temps) ==> p in w'.heap && w'.heap[p] == w.heap[p])
      && (forall p {:trigger p in OwnCells(w, temps)} :: p in OwnCells(w, temps) ==>
            && p in w.heap && p !in w'.heap
            && w.freed[w.heap[p].serial] == 0 && w'.freed[w.heap[p].serial] == 1)
  {
    hide *;
    var w' := ReleaseAll(w, temps);
    ReleaseAllExact(w, b, temps);
    ReleaseAllAged(w, temps);
    forall p {:trigger p in OwnCells(w, temps)} | p in OwnCells(w, temps)
      ensures p in w.heap && p !in w'.heap
      ensures w.freed[w.heap[p].serial] == 0 && w'.freed[w.heap[p].serial] == 1
    {
      OwnCellAllocated(w, b, temps, p);
      GoneIsFreedOnce(w, b, w', b, p);
    }
  }

  lemma OwnCellAllocated(w: World, b: Busy, temps: seq<Ref>, p: Addr)
    requires Inv(w, b) && p in OwnCells(w, temps)
    requires forall t {:trigger t in temps} :: t in temps ==> t in w.vals && t !in w.orphans && !w.vals[t].borrowed
    ensures p in w.heap
  {
    var t :| t in temps && t in w.vals && w.vals[t].ptr != 0 && !w.vals[t].borrowed && w.vals[t].ptr == p;
    assert Backed(w.vals[t], t, w.heap, w.ctxs);
  }

  // While the native call runs, its temporaries stay as they were made, whatever JavaScript does.
  lemma TemporariesOutlastTheCall(w: World, b: Busy, v: Ref, args: seq<Arg>, inner: seq<Upcall>, t: Ref)
    requires Inv(w, b) && PinsSound(w, b) && Nameable(w, v) && Valid(w, v)
    requires t in Materialize(w, w.vals[v].ctx, args).temps
    requires !Upcalls(Materialize(w, w.vals[v].ctx, args).w, Pin(w, b, v), inner).rogue
    ensures var m := Materialize(w, w.vals[v].ctx, args);
      var w1 := Upcalls(m.w, Pin(w, b, v), inner);
      t in m.w.vals && t in w1.vals && w1.vals[t] == m.w.vals[t] && w1.vals[t].ptr in w1.heap
  {
    var c := w.vals[v].ctx;
    var m := Materialize(w, c, args);
    var b1 := Pin(w, b, v);
    var w1 := Upcalls(m.w, b1, inner);
    PinnedIn(w, b, v);
    hide *;
    MaterializeSafe(w, b, c, args);
    MaterializeTemps(w, b, c, args);
    PinnedArgs(w, m, b, c, v);
    UpcallsSafe(m.w, b1, inner);
    SafeParts(m.w, w1, b1);
    TempPinned(w, m, b1, c, t);
    StaysPut(m.w, w1, b1, t);
  }

  lemma PinnedIn(w: World, b: Busy, v: Ref)
    requires Valid(w, v)
    ensures v in w.vals && Open(w, w.vals[v].ctx) && w.vals[v].ctx in Pin(w, b, v).ctxs
  {
  }

  // Each temporary is a wrapper of the call's context that points somewhere.
  ghost predicate TempsOf(m: Materialized, c: CtxRef) {
    forall t {:trigger t in m.temps} :: t in m.temps ==> t in m.w.vals && m.w.vals[t].ctx == c && m.w.vals[t].ptr != 0
  }

  lemma {:induction false} MaterializeTemps(w: World, b: Busy, c: CtxRef, args: seq<Arg>)
    requires Inv(w, b) && Open(w, c)
    ensures TempsOf(Materialize(w, c, args), c)
    decreases |args|
  {
    hide Inv, Wrap, NewHidden, Keeps, Materialize, ArgsMade, Open, Owns;
    OpenKnown(w, c);
    if args == [] {
      MaterializeNil(w, c);
    } else {
      MaterializeCons(w, b, c, args);
      match args[0]
      case Failing =>
      case Given(v) => MaterializeTemps(w, b, c, args[1..]);
      case Temp(js, hint) =>
        var (w1, p) := Wrap(w, w.ctxs[c].ptr, js, hint);
        var (w2, t) := NewHidden(w1, c, p, js);
        NewHiddenSafe(w, b, c, js, hint);
        TempShape(w, b, c, js, hint);
        MaterializeSafe(w2, b, c, args[1..]);
        MaterializeTemps(w2, b, c, args[1..]);
        KeptWrapper(w2, Materialize(w2, c, args[1..]), c, t);
    }
  }

  lemma TempPinned(w: World, m: Materialized, b1: Busy, c: CtxRef, t: Ref)
    requires ArgsMade(w, m, c) && TempsOf(m, c) && t in m.temps && c in b1.ctxs
    ensures Guarded(m.w, b1, t) && m.w.vals[t].ptr != 0
  {
  }

  lemma StaysPut(w: World, w1: World, b1: Busy, t: Ref)
    requires Inv(w, b1) && Inv(w1, b1) && Keeps(w, w1, b1, {}, {}) && Guarded(w, b1, t) && w.vals[t].ptr != 0
    ensures t in w1.vals && w1.vals[t] == w.vals[t] && w1.vals[t].ptr in w1.heap
  {
    assert SameWrapper(w, w1, t) && SameStanding(w, w1, t);
    assert Backed(w1.vals[t], t, w1.heap, w1.ctxs);
  }
}
