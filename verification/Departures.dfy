/**
 Where the source departs from a clean conservation law, stated exactly, and why
 the obligations that `rogue` records are needed.
 */
module Departures {
  import opened Handles
  import opened HandleInvariants
  import opened Framing
  import opened Programs
  import opened HandleLists
  import opened HostCalls
  import opened HostReturns
  import opened ProgramSafety
  import opened Moments
  import opened Runs
  import opened Obligations
  import opened Arguments
  import opened Calls

  // A callback that is not found leaves a wrapper that Go tracks and believes to own a cell, although
  // native code has deleted the cell.
  lemma MissingCallbackDangles(w: World, b: Busy, c: CtxRef, ps: seq<Addr>, missing: Cell)
    requires Inv(w, b) && Open(w, c)
    requires Distinct(ps) && Loose(w, w.ctxs[c].ptr, ps) && Unseen(w, ps)
    ensures var w' := HostMissing(w, c, w.ctxs[c].ptr, ps, missing);
      var v := w.nextRef;
      && w'.orphans == w.orphans + {v} && v in w'.vals && v in w'.hidden
      && w'.vals[v].ptr != 0 && w'.vals[v].ptr !in w'.heap
      && c in w'.ctxs && v in w'.ctxs[c].live
  {
    hide *;
    OpenKnown(w, c);
    var (w1, p) := Wrap(w, w.ctxs[c].ptr, missing.js, missing.hint);
    var (w2, v) := NewHidden(w1, c, p, missing.js);
    var w3 := NativeReleaseAll(Touch(w2, p), ps);
    MissingUnfold(w, c, ps, missing);
    MissingFront(w, b, c, ps, missing);
    ErrorContext(w, b, c, ps, missing);
    MissingBack(w, w3, b, Elems(ps), v, p);
    OrphanTracked(w3, b, c, v, p);
    AnsweredFields(NativeRelease(w3.(orphans := w3.orphans + {v}), p), Reads(w2, p, true));
  }

  // The error value is made in the context of the callback.
  lemma ErrorContext(w: World, b: Busy, c: CtxRef, ps: seq<Addr>, missing: Cell)
    requires Inv(w, b) && Open(w, c)
    ensures var (w1, p) := Wrap(w, w.ctxs[c].ptr, missing.js, missing.hint);
      var (w2, v) := NewHidden(w1, c, p, missing.js);
      var w3 := NativeReleaseAll(Touch(w2, p), ps);
      v in w3.vals && w3.vals[v].ctx == c
  {
    hide Inv, Wrap, NewHidden, NativeReleaseAll;
    var (w1, p) := Wrap(w, w.ctxs[c].ptr, missing.js, missing.hint);
    var (w2, v) := NewHidden(w1, c, p, missing.js);
    TempShape(w, b, c, missing.js, missing.hint);
    NativeReleaseAllGo(Touch(w2, p), ps);
  }

  lemma OrphanTracked(w3: World, b: Busy, c: CtxRef, v: Ref, p: Addr)
    requires Inv(w3, b) && Owns(w3, v, p) && p != 0 && w3.vals[v].ctx == c
    ensures var w' := NativeRelease(w3.(orphans := w3.orphans + {v}), p);
      v in w'.vals && w'.vals[v].ptr == p && c in w'.ctxs && v in w'.ctxs[c].live && w'.hidden == w3.hidden
  {
    assert Backed(w3.vals[v], v, w3.heap, w3.ctxs);
  }

  /* ---- the handle of a looked-up method ---- */

  // The end of the call leaves the handle of the method alone.
  lemma HandleKept(m: Materialized, w1: World, w2: World, w3: World, w': World, c: CtxRef, ca: Addr, h: Addr, js: Js, out: Outcome)
    requires OneMore(w1, w2, ca, h, js) && Unmoved(w2, w3, h) && OwnCells(m.w, m.temps) <= w1.heap.Keys
    requires Finished(m, w3, w', c, out)
    ensures h in w'.heap && w'.heap[h] == w2.heap[h] && !Owned(w', h)
  {
    assert h !in OwnCells(m.w, m.temps);
    hide OwnCells, Valid;
    forall r ensures !Owns(w', r, h) {
      assert !Owns(w3, r, h);
      if r in w'.vals && w'.vals[r].ptr == h && r !in m.temps {
        assert r in w3.vals || (out.Yields? && r == w3.nextRef);
      }
    }
  }

  // CallMethod leaves the handle of the method it has looked up, whatever the getter and the method do and
  // however they end: a new cell for the value found, in the index of its context, that no wrapper owns.
  // There is one if and only if no argument fails and the lookup yields.
  lemma LookupLeavesAHandle(w: World, b: Busy, cmd: Cmd)
    requires Inv(w, b) && PinsSound(w, b) && cmd.CallMethod? && Nameable(w, cmd.v) && Valid(w, cmd.v) && !Step(w, b, cmd).rogue
    ensures var w' := Step(w, b, cmd);
      var h := MethodHandle(w, b, cmd);
      var ca := w.ctxs[w.vals[cmd.v].ctx].ptr;
      && (h in w'.heap <==> !AnyFails(cmd.args) && cmd.found.Yields?)
      && (h in w'.heap ==>
            && h !in AfterGetter(w, b, cmd).heap && w'.heap[h].js == cmd.found.js && !Owned(w', h)
            && ca in w'.nctxs && w'.heap[h].id in w'.nctxs[ca].values && w'.nctxs[ca].values[w'.heap[h].id] == h)
  {
    hide *;
    PinnedIn(w, b, cmd.v);
    OpenKnown(w, w.vals[cmd.v].ctx);
    StepIs(w, b, cmd);
    HandleIs(w, b, cmd);
    var c := w.vals[cmd.v].ctx;
    var m := Args(w, cmd);
    var w' := Step(w, b, cmd);
    StepSafe(w, b, cmd);
    SafeParts(w, w', b);
    NullUnallocated(w', b);
    MaterializeRight(w, b, c, cmd.args);
    ArgsAre(w, cmd);
    if m.ok {
      MaterializeSafe(w, b, c, cmd.args);
      MaterializeTemps(w, b, c, cmd.args);
      MethodIs(w, b, cmd);
      MethodEnds(w, m, b, cmd);
      if cmd.found.Yields? {
        var h := MethodHandle(w, b, cmd);
        HandleKept(m, AfterGetter(w, b, cmd), Lookup(w, b, cmd).0, AfterMethod(w, b, cmd), w', c, w.ctxs[c].ptr, h, cmd.found.js, cmd.out);
        HandleIndexed(AfterGetter(w, b, cmd), Lookup(w, b, cmd).0, w', b, w.ctxs[c].ptr, h, cmd.found.js);
      }
    }
  }

  lemma HandleIndexed(w1: World, w2: World, w': World, b: Busy, ca: Addr, h: Addr, js: Js)
    requires OneMore(w1, w2, ca, h, js) && Inv(w', b) && h in w'.heap && w'.heap[h] == w2.heap[h]
    ensures h !in w1.heap && w'.heap[h].js == js
    ensures ca in w'.nctxs && w'.heap[h].id in w'.nctxs[ca].values && w'.nctxs[ca].values[w'.heap[h].id] == h
  {
    assert CellSound(w'.heap[h], h, w'.nctxs, b);
  }

  lemma NullUnallocated(w: World, b: Busy)
    requires Inv(w, b)
    ensures 0 !in w.heap
  {
  }

  // With no JavaScript in getter and method, the net change of a call is that handle and the result's.
  lemma QuietMethodNet(w: World, b: Busy, cmd: Cmd)
    requires Inv(w, b) && PinsSound(w, b) && cmd.CallMethod? && Nameable(w, cmd.v) && Valid(w, cmd.v) && !Step(w, b, cmd).rogue
    requires !AnyFails(cmd.args) && cmd.found.Yields? && cmd.getter == [] && cmd.inner == []
    ensures var w' := Step(w, b, cmd);
      var h, u := MethodHandle(w, b, cmd), Lookup(w, b, cmd).0.nextRef;
      && h !in w.heap
      && (cmd.out.NoValue? ==> w'.heap.Keys == w.heap.Keys + {h})
      && (cmd.out.Yields? ==>
            && u in w'.vals && w'.vals[u].ptr !in w.heap.Keys + {h}
            && w'.heap.Keys == w.heap.Keys + {h, w'.vals[u].ptr})
  {
    var c := w.vals[cmd.v].ctx;
    var m := Args(w, cmd);
    PinnedIn(w, b, cmd.v);
    assert AfterGetter(w, b, cmd) == m.w && AfterMethod(w, b, cmd) == Lookup(w, b, cmd).0;
    ArgsAre(w, cmd);
    hide *;
    MaterializeExact(w, b, c, cmd.args);
    MethodNet(w, b, cmd);
    QuietHeaps(w, m, Lookup(w, b, cmd).0, Step(w, b, cmd), c, w.ctxs[c].ptr, MethodHandle(w, b, cmd), cmd.found.js, cmd.out);
  }

  lemma QuietHeaps(w: World, m: Materialized, w2: World, w': World, c: CtxRef, ca: Addr, h: Addr, js: Js, out: Outcome)
    requires Added(w, m) && OneMore(m.w, w2, ca, h, js) && Finished(m, w2, w', c, out)
    ensures h !in w.heap
    ensures out.NoValue? ==> w'.heap.Keys == w.heap.Keys + {h}
    ensures out.Yields? ==>
      var u := w2.nextRef;
      && u in w'.vals && w'.vals[u].ptr !in w.heap.Keys + {h}
      && w'.heap.Keys == w.heap.Keys + {h, w'.vals[u].ptr}
  {
    hide OwnCells, TempsGone, Valid;
    var gone := OwnCells(m.w, m.temps);
    assert w2.heap.Keys == w.heap.Keys + gone + {h} && h !in gone;
    if out.NoValue? {
      assert w'.heap.Keys == w2.heap.Keys - gone;
    } else {
      var q := w'.vals[w2.nextRef].ptr;
      assert w'.heap.Keys == w2.heap.Keys + {q} - gone;
    }
  }

  // Until its context is closed, nothing deletes a cell that no wrapper owns: it is still there after any
  // program that runs while the context is in use, unless that breaks an obligation.
  lemma StaysUntilClose(w: World, b: Busy, c: CtxRef, h: Addr, cmds: seq<Cmd>)
    requires Inv(w, b) && PinsSound(w, b) && Open(w, c) && h in w.heap && w.heap[h].ctx == w.ctxs[c].ptr && !Owned(w, h)
    requires !Exec(w, Inside(b, c), cmds).rogue
    ensures var w' := Exec(w, Inside(b, c), cmds);
      h in w'.heap && w'.heap[h] == w.heap[h] && !Owned(w', h)
  {
    var b1 := Inside(b, c);
    InvWeaken(w, b, b1);
    ExecSafe(w, b1, cmds);
    HeldUnmoved(w, Exec(w, b1, cmds), b1, c, h);
  }

  /* ---- an exception without a message ---- */

  // A NewFunction whose exception has no text returns no error, no function, and leaves the id registered:
  // only Close takes it out again.
  lemma EmptyMessageLeavesAnId(w: World, b: Busy, c: CtxRef)
    requires Inv(w, b) && Open(w, c)
    ensures var w' := NewFunction(w, c, NoValue(false));
      var id := w.fnSeq + 1;
      && id !in w.fns && id in w'.fns && w'.fns[id] == c && w'.vals == w.vals && w'.heap == w.heap
      && Inv(w', b) && Open(w', c)
      && (c !in b.ctxs ==> id !in Close(w', c).fns)
  {
    hide Inv, Keeps, Safe, NewFunction, Close, Closed, NativeInv, ValueInv, SerialInv, LinkInv, LiveInv, FnInv;
    var w' := NewFunction(w, c, NoValue(false));
    NewFunctionNet(w, b, c, NoValue(false));
    NewFnSafe(w, b, c, NoValue(false));
    NewFunctionQuiet(w, c);
    NoFault(w, b);
    SafeParts(w, w', b);
    if c !in b.ctxs {
      CloseKeepsInv(w', b, c);
      Unregisters(w', c, w.fnSeq + 1);
    }
  }

  lemma NewFunctionQuiet(w: World, c: CtxRef)
    requires Open(w, c)
    ensures Open(NewFunction(w, c, NoValue(false)), c) && NewFunction(w, c, NoValue(false)).rogue == w.rogue
  {
  }

  lemma Unregisters(w: World, c: CtxRef, id: nat)
    requires c in w.ctxs && id in w.ctxs[c].fns && Closed(w, Close(w, c), c)
    ensures id !in Close(w, c).fns
  {
    hide Close;
  }

  /* ---- a receiver that does not stay ---- */

  // In a sound state, native code is at fault exactly if it reads, retains or deletes a cell that is not allocated, or
  // wraps in or disposes of a context that is not.  The null pointer may be retained, deleted and disposed of.
  lemma FaultsExactly(w: World, b: Busy, p: Addr, js: Js, hint: Addr)
    requires Inv(w, b)
    ensures Touch(w, p).fault <==> p !in w.heap
    ensures NativeRetain(w, p, hint).0.fault <==> p != 0 && p !in w.heap
    ensures NativeRelease(w, p).fault <==> p != 0 && p !in w.heap
    ensures Wrap(w, p, js, hint).0.fault <==> p !in w.nctxs
    ensures ContextDispose(w, p).fault <==> p != 0 && p !in w.nctxs
  {
    Parts(w, b);
    NoFault(w, b);
    StillReadable(w, b, p);
    hide Inv, NativeInv, ContextInv, ValueInv, SerialInv, IndexSound, Serials;
    if p in w.nctxs { IndexIsSound(w, b, p); }
  }

  // A native call reads its receiver at the start, and a second time if and only if it has a value to wrap.  So it is
  // at fault exactly if the receiver's cell was not there, or JavaScript was at fault, or there is a value and the
  // receiver's cell, or its native context, is gone when JavaScript is done.
  lemma NativeCallFaults(w: World, b: Busy, p: Addr, inner: seq<Upcall>, out: Outcome)
    ensures var w1 := Upcalls(w, b, inner);
      NativeUse(w, b, p, inner, out).0.fault <==>
        p !in w.heap || w1.fault || (out.Yields? && (p !in w1.heap || w1.heap[p].ctx !in w1.nctxs))
  {
    if p in w.heap {
      assert Touch(w, p) == w;
    } else {
      UseLater(w, b, p, inner, out);
      assert Later(Touch(w, p), Upcalls(Touch(w, p), b, inner));
    }
  }

  // GV8ValueCall reads its arguments, its receiver and the function, each before any JavaScript runs.
  lemma EveryHandleIsRead(w: World, b: Busy, c: CtxRef, p: Addr, fn: Addr, m: Materialized, inner: seq<Upcall>, out: Outcome)
    requires ReadArgs(w, m.argv).fault || p !in w.heap || fn !in w.heap
    ensures MethodCall(w, b, c, p, fn, m, inner, out).fault
  {
    var w1 := ArgsRead(w, m.argv);
    var w2 := Touch(w1, p);
    OnlyRecords(w, m.argv);
    NativeCallFaults(w2, b, fn, inner, out);
    assert Later(w2, Upcalls(w2, b, inner));
    hide NativeUse, ReadArgs, FinishCall, Upcalls, Usable;
    assert MethodCall(w, b, c, p, fn, m, inner, out) == FinishCall(NativeUse(w2, b, fn, inner, out).0, c, NativeUse(w2, b, fn, inner, out).1, out, m.temps);
  }

  // Reading arguments changes nothing but the record.
  lemma OnlyRecords(w: World, argv: seq<Ref>)
    ensures ArgsRead(w, argv).heap == w.heap && (ReadArgs(w, argv).fault ==> ArgsRead(w, argv).fault)
  {
    hide ReadArgs, Usable;
    ReadsNothingElse(w, argv);
    ReadsNothingElse(w.(rogue := true), argv);
    BlamedReads(w, argv);
  }

  lemma {:induction false} ReadsNothingElse(w: World, argv: seq<Ref>)
    ensures ReadArgs(w, argv).heap == w.heap
    decreases |argv|
  {
    if argv != [] {
      var p := if argv[0] in w.vals then w.vals[argv[0]].ptr else 0;
      ReadsNothingElse(Touch(w, p), argv[1..]);
    }
  }

  lemma {:induction false} BlamedReads(w: World, argv: seq<Ref>)
    ensures ReadArgs(w.(rogue := true), argv) == ReadArgs(w, argv).(rogue := true)
    decreases |argv|
  {
    if argv != [] {
      var p := if argv[0] in w.vals then w.vals[argv[0]].ptr else 0;
      BlamedReads(Touch(w, p), argv[1..]);
      assert Touch(w.(rogue := true), p) == Touch(w, p).(rogue := true);
    }
  }

  lemma NoFault(w: World, b: Busy)
    requires Inv(w, b)
    ensures !w.fault && !w.rogue
  {
  }

  // v is called without arguments and calls one function back.
  lemma CallAround(w: World, b: Busy, v: Ref, u: Upcall, out: Outcome)
    requires Inv(w, b) && Nameable(w, v) && Valid(w, v)
    ensures var w1 := HostCall(w, Pin(w, b, v), u);
      var p := w.vals[v].ptr;
      var w' := Step(w, b, Use(v, [], [u], out));
      && w'.rogue == w1.rogue
      && (w'.fault <==> w1.fault || (out.Yields? && (p !in w1.heap || w1.heap[p].ctx !in w1.nctxs)))
  {
    var b1, p := Pin(w, b, v), w.vals[v].ptr;
    hide Inv, NativeUse, HostCall, Pin;
    ReceiverContext(w, b, v);
    OneCall(w, b1, u);
    assert Touch(w, p) == w;
    NativeCallFaults(w, b1, p, [u], out);
    CalledRecord(w, b1, p, [u], out);
    UseOfNothing(w, b, v, [u], out);
  }

  lemma ReceiverContext(w: World, b: Busy, v: Ref)
    requires Inv(w, b) && Nameable(w, v) && Valid(w, v)
    ensures w.vals[v].ptr in w.heap && w.heap[w.vals[v].ptr].ctx == w.ctxs[w.vals[v].ctx].ptr && v !in w.orphans
  {
    assert Backed(w.vals[v], v, w.heap, w.ctxs);
  }

  lemma OneCall(w: World, b1: Busy, u: Upcall)
    ensures Upcalls(w, b1, [u]) == HostCall(w, b1, u)
  {
    assert Upcalls(HostCall(w, b1, u), b1, []) == HostCall(w, b1, u);
  }

  lemma UseOfNothing(w: World, b: Busy, v: Ref, inner: seq<Upcall>, out: Outcome)
    requires Nameable(w, v) && Valid(w, v) && w.vals[v].ptr in w.heap
    ensures var w1 := NativeUse(w, Pin(w, b, v), w.vals[v].ptr, inner, out).0;
      var w' := Step(w, b, Use(v, [], inner, out));
      w'.fault == w1.fault && w'.rogue == w1.rogue
  {
    var c := w.vals[v].ctx;
    var m := Materialize(w, c, []);
    hide NativeUse, NewValue;
    assert m == Materialized(w, [], [], true) && ArgsRead(w, []) == w;
    var (w1, q) := NativeUse(w, Pin(w, b, v), w.vals[v].ptr, inner, out);
    assert FinishCall(w1, c, q, out, []) == NewValue(w1, c, q, Born(out)).0;
    assert StepUse(w, b, Use(v, [], inner, out)) == FinishCall(w1, c, q, out, []);
  }

  // The function that is called back gets nothing, does one thing and returns nothing.
  ghost function Callback(c: CtxRef, id: nat, missing: Cell, cmd: Cmd): Upcall {
    Upcall(c, id, [], missing, [cmd], RetNil)
  }

  lemma CallbackIs(w: World, b: Busy, b1: Busy, c: CtxRef, id: nat, missing: Cell, cmd: Cmd)
    requires Inv(w, b) && Open(w, c) && id in w.fns
    ensures HostCall(w, b1, Callback(c, id, missing, cmd)) == Answered(Step(w, Inside(b1, c), cmd), NoAnswer)
  {
    hide Inv, Step, HostCall, Inside;
    EnteredOpen(w, b, Callback(c, id, missing, cmd));
    PlainCall(w, b1, Callback(c, id, missing, cmd));
    ExecOne(w, Inside(b1, c), cmd);
    ReturnNothing(Step(w, Inside(b1, c), cmd), b1, c);
  }

  // a host call without receiver and arguments
  lemma PlainCall(w: World, b: Busy, u: Upcall)
    requires Open(w, u.c) && Entered(w, u) == w && u.id in w.fns && u.cells == []
    ensures HostCall(w, b, u) == HostReturn(Exec(w, Inside(b, u.c), u.body), b, u.c, [], [], u.ret)
  {
    assert WrapAll(w, w.ctxs[u.c].ptr, []) == (w, []) && ViewAll(w, u.c, []) == (w, []);
    assert BeforeBody(w, u) == (w, []) && FrameHandles(w, u) == [];
    hide HostReturn, Exec, WrapAll, ViewAll;
  }

  lemma ReturnNothing(w: World, b: Busy, c: CtxRef)
    ensures HostReturn(w, b, c, [], [], RetNil) == Answered(w, NoAnswer)
  {
  }

  lemma ExecOne(w: World, b: Busy, cmd: Cmd)
    ensures Exec(w, b, [cmd]) == Step(w, b, cmd)
  {
    hide Step;
    assert [cmd][1..] == [];
    assert Exec(Step(w, b, cmd), b, []) == Step(w, b, cmd);
  }

  // While v is called, r is in use: by this call, or by one further up the stack.
  ghost predicate InUse(w: World, b: Busy, v: Ref, r: Ref) {
    r in b.refs || (r == v && v in w.vals && !w.vals[v].borrowed)
  }

  // From any state: a callback may release any wrapper but the receiver of a call in progress.  Releasing that one
  // breaks an obligation, and the call is at fault exactly if it yields; one that yields nothing, like Object.Set or
  // a call that throws, is not.
  lemma ReleasedInside(w: World, b: Busy, v: Ref, r: Ref, c: CtxRef, id: nat, missing: Cell, out: Outcome)
    requires Inv(w, b) && Nameable(w, v) && Valid(w, v) && Nameable(w, r) && Open(w, c) && id in w.fns
    ensures var w' := Step(w, b, Use(v, [], [Callback(c, id, missing, ReleaseValue(r))], out));
      && (w'.rogue <==> InUse(w, b, v, r))
      && (w'.fault <==> out.Yields? && r == v && !w.vals[v].borrowed)
  {
    hide *;
    UsedBy(w, b, v, c);
    var b1, w1 := Pin(w, b, v), Release(w, r);
    CallAround(w, b, v, Callback(c, id, missing, ReleaseValue(r)), out);
    CallbackIs(w, b, b1, c, id, missing, ReleaseValue(r));
    BlamedReleaseStep(w, Inside(b1, c), r);
    NotOrphaned(w, b, r);
    ReleaseKeepsInv(w, b, r);
    BlamedRelease(w, r);
    NoFault(w1, b);
    CellAfterRelease(w, b, v, r);
    StillReadable(w1, b, w.vals[v].ptr);
    BlamedSame(w1, NoAnswer);
  }

  lemma BlamedReleaseStep(w: World, b: Busy, r: Ref)
    requires Nameable(w, r)
    ensures Step(w, b, ReleaseValue(r)) == Release(if r in b.refs then w.(rogue := true) else w, r)
  {
    hide Release;
  }

  lemma UsedBy(w: World, b: Busy, v: Ref, c: CtxRef)
    requires Valid(w, v)
    ensures v in w.vals && Open(w, w.vals[v].ctx)
    ensures forall r {:trigger InUse(w, b, v, r)} :: InUse(w, b, v, r) <==> r in Inside(Pin(w, b, v), c).refs
    ensures Inside(Pin(w, b, v), c).ctxs == b.ctxs + {w.vals[v].ctx} + {c}
  {
  }

  lemma NotOrphaned(w: World, b: Busy, r: Ref)
    requires Inv(w, b) && Nameable(w, r)
    ensures r in w.vals && r !in w.orphans
  {
  }

  // The cell that v points at goes if and only if v, its owner, is what is released.
  lemma CellAfterRelease(w: World, b: Busy, v: Ref, r: Ref)
    requires Inv(w, b) && Nameable(w, v) && Valid(w, v) && Nameable(w, r)
    ensures w.vals[v].ptr in Release(w, r).heap <==> !(r == v && !w.vals[v].borrowed)
  {
    assert Backed(w.vals[v], v, w.heap, w.ctxs);
    ReleaseKeepsInv(w, b, r);
    hide Release;
    if w.vals[r].ptr == w.vals[v].ptr && !w.vals[r].borrowed {
      assert Backed(w.vals[r], r, w.heap, w.ctxs);
      assert Owns(w, r, w.vals[v].ptr) && Owns(w, v, w.vals[v].ptr);
    }
  }

  lemma StillReadable(w: World, b: Busy, p: Addr)
    requires Inv(w, b)
    ensures p in w.heap ==> w.heap[p].ctx in w.nctxs
  {
    if p in w.heap { assert CellSound(w.heap[p], p, w.nctxs, b); }
  }

  lemma BlamedSame(w: World, a: Answer)
    ensures var w' := Answered(w.(rogue := true), a);
      w'.heap == w.heap && w'.nctxs == w.nctxs && w'.fault == w.fault && w'.rogue
    ensures var w' := Answered(w, a);
      w'.heap == w.heap && w'.nctxs == w.nctxs && w'.fault == w.fault && w'.rogue == w.rogue
  {
  }

  lemma BlamedRelease(w: World, v: Ref)
    ensures Release(w.(rogue := true), v) == Release(w, v).(rogue := true)
  {
    var w0 := w.(rogue := true);
    if v in w.vals && w.vals[v].ptr != 0 && !w.vals[v].borrowed {
      hide NativeRelease;
      var p := w.vals[v].ptr;
      var w1 := Untrack(w, v);
      ReleaseIs(w, v);
      ReleaseIs(w0, v);
      assert Untrack(w0, v) == w1.(rogue := true);
      BlamedNativeRelease(w1, p);
    } else {
      hide NativeRelease, Untrack;
    }
  }

  lemma BlamedNativeRelease(w: World, p: Addr)
    ensures NativeRelease(w.(rogue := true), p) == NativeRelease(w, p).(rogue := true)
  {
  }

  // The same if the function returns a wrapper instead of releasing it.
  lemma ReturnedInside(w: World, b: Busy, v: Ref, r: Ref, c: CtxRef, id: nat, missing: Cell, hint: Addr, out: Outcome)
    requires Inv(w, b) && Nameable(w, v) && Valid(w, v) && Nameable(w, r) && Open(w, c) && id in w.fns
    ensures var w' := Step(w, b, Use(v, [], [Upcall(c, id, [], missing, [], RetValue(r, hint))], out));
      && (w'.rogue <==> InUse(w, b, v, r))
      && (w'.fault <==> out.Yields? && r == v && !w.vals[v].borrowed)
  {
    hide *;
    UsedBy(w, b, v, c);
    var b1 := Pin(w, b, v);
    var u := Upcall(c, id, [], missing, [], RetValue(r, hint));
    CallAround(w, b, v, u, out);
    EnteredOpen(w, b, u);
    PlainCall(w, b1, u);
    NotOrphaned(w, b, r);
    InsideRefs(b1, c);
    GivenBack(w, b, b1, v, r, c, hint);
    ExecNothing(w, Inside(b1, c));
    NoFault(w, b);
  }

  lemma InsideRefs(b: Busy, c: CtxRef)
    ensures Inside(b, c).refs == b.refs
  {
  }

  lemma ExecNothing(w: World, b: Busy)
    ensures Exec(w, b, []) == w
  {
  }

  // returning r from a call without a frame of its own
  lemma GivenBack(w: World, b: Busy, b1: Busy, v: Ref, r: Ref, c: CtxRef, hint: Addr)
    requires Inv(w, b) && Nameable(w, v) && Valid(w, v) && Nameable(w, r)
    ensures var w' := HostReturn(w, b1, c, [], [], RetValue(r, hint));
      && w'.rogue == (r in b1.refs) && !w'.fault
      && (w.vals[v].ptr in w'.heap <==> !(r == v && !w.vals[v].borrowed))
      && (w.vals[v].ptr in w'.heap ==> w'.heap[w.vals[v].ptr].ctx in w'.nctxs)
  {
    hide *;
    NoFault(w, b);
    NotOrphaned(w, b, r);
    ReceiverContext(w, b, v);
    UsedBy(w, b, v, c);
    var (w1, h) := Handoff(w, r, hint);
    HandedBack(w, b1, r, c, hint);
    if w.vals[r].ptr == 0 {
      HandoffNothing(w, r, hint);
      NoCellGoes(w, b, v, r);
      StillReadable(w, b, w.vals[v].ptr);
    } else {
      HandoffShape(w, b, r, hint);
      NullUnallocated(w1, b);
      EndOfHandoff(w1, b, h);
      NoFault(NativeRelease(w1, h), b);
      CellAfterHandoff(w, b, v, r, h, w1.heap, NativeRelease(w1, h).heap);
      StillReadable(NativeRelease(w1, h), b, w.vals[v].ptr);
    }
  }

  lemma NoCellGoes(w: World, b: Busy, v: Ref, r: Ref)
    requires Inv(w, b) && Nameable(w, v) && Valid(w, v) && Nameable(w, r) && w.vals[r].ptr == 0
    ensures r != v && w.vals[v].ptr in w.heap
  {
    assert Backed(w.vals[v], v, w.heap, w.ctxs);
  }

  lemma CellAfterHandoff(w: World, b: Busy, v: Ref, r: Ref, h: Addr, heap1: map<Addr, NativeValue>, heap2: map<Addr, NativeValue>)
    requires Inv(w, b) && Nameable(w, v) && Valid(w, v) && Nameable(w, r) && w.vals[r].ptr != 0
    requires h !in w.heap && h in heap1 && heap2 == heap1 - {h}
    requires heap1 == w.heap[h := heap1[h]] - (if w.vals[r].borrowed then {} else {w.vals[r].ptr})
    ensures w.vals[v].ptr in heap2 <==> !(r == v && !w.vals[v].borrowed)
  {
    assert Backed(w.vals[v], v, w.heap, w.ctxs);
    if w.vals[r].ptr == w.vals[v].ptr && !w.vals[r].borrowed {
      assert Backed(w.vals[r], r, w.heap, w.ctxs);
      assert Owns(w, r, w.vals[v].ptr) && Owns(w, v, w.vals[v].ptr);
    }
  }

  lemma HandedBack(w: World, b1: Busy, r: Ref, c: CtxRef, hint: Addr)
    requires Nameable(w, r) && !w.rogue
    ensures var (w1, h) := Handoff(w, r, hint);
      var w' := HostReturn(w, b1, c, [], [], RetValue(r, hint));
      var w2 := if h == 0 then w1 else NativeRelease(w1, h);
      && (h == 0 || h in w1.heap ==>
            w'.rogue == (r in b1.refs) && w'.fault == w2.fault && w'.heap == w2.heap && w'.nctxs == w2.nctxs)
  {
    hide Handoff, NativeRelease;
    var w0 := if r in b1.refs then w.(rogue := true) else w;
    var (w1, h) := Handoff(w, r, hint);
    BlamedHandoff(w, r, hint);
    BlamedNativeRelease(w1, h);
    var (w3, h3) := Handoff(w0, r, hint);
    assert InvalidateAll(w3, []) == w3 && NativeReleaseAll(w3, []) == w3;
    assert Handed(w, b1, c, [], RetValue(r, hint)) == (w3, h);
    HostReturnIs(w, b1, c, [], [], RetValue(r, hint));
    HostEndUnfold(w3, [], h);
  }

  lemma EndOfHandoff(w1: World, b: Busy, h: Addr)
    requires Inv(w1, b) && h in w1.heap && Unpointed(w1, h)
    ensures Inv(NativeRelease(w1, h), b) && NativeRelease(w1, h).heap == w1.heap - {h}
  {
    NativeReleaseKeepsInv(w1, b, h);
  }

  lemma BlamedHandoff(w: World, v: Ref, hint: Addr)
    ensures var (w1, h) := Handoff(w, v, hint);
      Handoff(w.(rogue := true), v, hint) == (w1.(rogue := true), h)
  {
    if v in w.vals && w.vals[v].ptr != 0 {
      hide Release, NativeRetain, Handoff;
      var (w1, h) := NativeRetain(w, w.vals[v].ptr, hint);
      HandoffUnfold(w, v, hint);
      HandoffUnfold(w.(rogue := true), v, hint);
      BlamedRetain(w, w.vals[v].ptr, hint);
      BlamedRelease(w1, v);
    } else {
      hide Release, NativeRetain;
    }
  }

  lemma BlamedRetain(w: World, p: Addr, hint: Addr)
    ensures NativeRetain(w.(rogue := true), p, hint) == (NativeRetain(w, p, hint).0.(rogue := true), NativeRetain(w, p, hint).1)
  {
  }

  // From any state: a callback may close any context but those of calls in progress, its own among them.  Closing the
  // receiver's puts the call at fault exactly if it yields.
  lemma ClosedInside(w: World, b: Busy, v: Ref, d: CtxRef, c: CtxRef, id: nat, missing: Cell, out: Outcome)
    requires Inv(w, b) && Nameable(w, v) && Valid(w, v) && Open(w, c) && id in w.fns
    ensures var w' := Step(w, b, Use(v, [], [Callback(c, id, missing, CloseCtx(d))], out));
      && (w'.rogue <==> d in b.ctxs || d == w.vals[v].ctx || d == c)
      && (w'.fault <==> out.Yields? && d == w.vals[v].ctx)
  {
    hide *;
    UsedBy(w, b, v, c);
    var b1, p := Pin(w, b, v), w.vals[v].ptr;
    CallAround(w, b, v, Callback(c, id, missing, CloseCtx(d)), out);
    CallbackIs(w, b, b1, c, id, missing, CloseCtx(d));
    ReceiverContext(w, b, v);
    CloseAnywhere(w, b, Inside(b1, c), d, NoAnswer);
    StillReadable(w, b, p);
    OnlyItsOwn(w, b, w.vals[v].ctx, d);
  }

  // Closing the context of a running script in a callback: the result would be wrapped in the deleted gv8_ctx,
  // so the call is at fault exactly if the script yields.  Other contexts are as above.
  lemma ClosedScript(w: World, b: Busy, s: CtxRef, d: CtxRef, c: CtxRef, id: nat, missing: Cell, out: Outcome, kept: bool)
    requires Inv(w, b) && Open(w, s) && Open(w, c) && id in w.fns
    ensures var w' := Step(w, b, Create(s, [Callback(c, id, missing, CloseCtx(d))], out, kept));
      && (w'.rogue <==> d in b.ctxs || d == s || d == c)
      && (w'.fault <==> out.Yields? && d == s)
  {
    hide *;
    OpenKnown(w, s);
    var b1 := Inside(b, s);
    var u := Callback(c, id, missing, CloseCtx(d));
    CreateEnds(w, b, s, u, out, kept);
    OneCall(w, b1, u);
    CallbackIs(w, b, b1, c, id, missing, CloseCtx(d));
    InsideBoth(b, s, c);
    CloseAnywhere(w, b, Inside(b1, c), d, NoAnswer);
    OpenNative(w, b, s);
    OnlyItsOwn(w, b, s, d);
  }

  lemma InsideBoth(b: Busy, s: CtxRef, c: CtxRef)
    ensures Inside(Inside(b, s), c).ctxs == b.ctxs + {s} + {c}
  {
  }

  // Different open contexts have different native contexts.
  lemma OnlyItsOwn(w: World, b: Busy, c: CtxRef, d: CtxRef)
    requires Inv(w, b) && Open(w, c)
    ensures Open(w, d) && d != c ==> d in w.ctxs && w.ctxs[d].ptr != w.ctxs[c].ptr
    ensures Open(w, d) && d == c ==> d in w.ctxs && w.ctxs[d].ptr == w.ctxs[c].ptr
    ensures d == c ==> Open(w, d)
  {
    if Open(w, d) {
      assert ContextSound(w.ctxs[c], c, w.nctxs) && ContextSound(w.ctxs[d], d, w.nctxs);
    }
  }

  // the end of a creating call: the result is wrapped in the gv8_ctx found at the start
  lemma CreateEnds(w: World, b: Busy, d: CtxRef, u: Upcall, out: Outcome, kept: bool)
    requires Open(w, d)
    ensures var w1 := Upcalls(w, Inside(b, d), [u]);
      var w' := Step(w, b, Create(d, [u], out, kept));
      && w'.rogue == w1.rogue
      && (w'.fault <==> w1.fault || (out.Yields? && w.ctxs[d].ptr !in w1.nctxs))
  {
    var w1 := Upcalls(w, Inside(b, d), [u]);
    assert Step(w, b, Create(d, [u], out, kept)) == StepCreate(w, b, Create(d, [u], out, kept));
    hide NewValue, Upcalls;
  }

  // Close, even of a context that is in use: its gv8_ctx goes, with cells of its own only; no other does.
  lemma CloseAnywhere(w: World, b: Busy, b2: Busy, d: CtxRef, a: Answer)
    requires Inv(w, b)
    ensures var w' := Answered(Step(w, b2, CloseCtx(d)), a);
      && (w'.rogue <==> d in b2.ctxs) && !w'.fault
      && (Open(w, d) ==> d in w.ctxs && w'.nctxs == w.nctxs - {w.ctxs[d].ptr})
      && (!Open(w, d) ==> w'.nctxs == w.nctxs)
      && (forall p {:trigger p in w'.heap} :: p in w'.heap ==> p in w.heap && w'.heap[p] == w.heap[p])
      && (forall p {:trigger p in w'.heap} {:trigger p in w.heap} ::
            p in w.heap && (Open(w, d) ==> w.heap[p].ctx != w.ctxs[d].ptr) ==> p in w'.heap)
  {
    Parts(w, b);
    NoFault(w, b);
    BlamedStep(w, b2, d);
    BlamedClose(w, d);
    hide Inv, NativeInv, ContextInv, ValueInv, SerialInv, IndexSound, Serials, Close, Step;
    if Open(w, d) {
      OpenNative(w, b, d);
      IndexIsSound(w, b, w.ctxs[d].ptr);
      CloseUnfold(w, d, w.ctxs[d].ptr);
    } else {
      NotOpenedClosed(w, b, d);
    }
  }

  lemma NotOpenedClosed(w: World, b: Busy, d: CtxRef)
    requires Inv(w, b) && !Open(w, d)
    ensures Close(w, d) == w
  {
    if d in w.ctxs { assert ContextSound(w.ctxs[d], d, w.nctxs); }
  }

  lemma BlamedStep(w: World, b: Busy, d: CtxRef)
    ensures Step(w, b, CloseCtx(d)) == Close(if d in b.ctxs then w.(rogue := true) else w, d)
  {
    hide Close;
  }

  lemma BlamedClose(w: World, c: CtxRef)
    ensures Close(w.(rogue := true), c) == Close(w, c).(rogue := true)
  {
    hide IndexSound, Serials, NullIn;
  }

  // An argument must point somewhere: if none is an orphan, reading them is at fault exactly if one does not.
  lemma {:induction false} ReadArgsFaults(w: World, b: Busy, argv: seq<Ref>)
    requires Inv(w, b) && forall v {:trigger v in argv} :: v in argv ==> v !in w.orphans
    ensures ReadArgs(w, argv).fault <==> !Usable(w, argv)
    decreases |argv|
  {
    if Usable(w, argv) {
      ReadArgsOk(w, b, argv);
      NoFault(w, b);
    } else {
      var v, rest := argv[0], argv[1..];
      assert v in argv;
      var p := if v in w.vals then w.vals[v].ptr else 0;
      NullUnallocated(w, b);
      if p == 0 {
        assert Later(Touch(w, p), ReadArgs(w, argv));
      } else {
        assert Backed(w.vals[v], v, w.heap, w.ctxs);
        forall u {:trigger u in rest} | u in rest ensures u !in w.orphans { assert u in argv; }
        ReadArgsFaults(w, b, rest);
        if Usable(w, rest) {
          forall i | 0 <= i < |argv| ensures argv[i] in w.vals && w.vals[argv[i]].ptr != 0 && argv[i] !in w.orphans {
            if i > 0 { assert argv[i] == rest[i - 1]; }
          }
        }
      }
    }
  }

  // A whole program that is at fault: make a context and a function, call the function, and release it in the
  // callback.  Without a result to wrap the same program is not at fault.
  lemma FaultyRun(ctxHint: Addr, fnJs: Js, fnHint: Addr, missing: Cell, out: Outcome)
    ensures var prog := [NewCtx(ctxHint), NewFn(1, Yields(fnJs, fnHint)), Use(1, [], [Callback(1, 1, missing, ReleaseValue(1))], out)];
      Run(prog).rogue && (Run(prog).fault <==> out.Yields?)
  {
    var call := Use(1, [], [Callback(1, 1, missing, ReleaseValue(1))], out);
    var w1 := NewContext(EMPTY, ctxHint);
    var w2 := NewFunction(w1, 1, Yields(fnJs, fnHint));
    RunOfThree(NewCtx(ctxHint), NewFn(1, Yields(fnJs, fnHint)), call);
    FirstContext(ctxHint);
    hide Inv, Step, NewContext, NewFunction, Exec, Wrap, Safe;
    EmptyInv();
    NewContextKeepsInv(EMPTY, IDLE, ctxHint);
    FirstFunction(w1, fnJs, fnHint);
    ReleasedInside(w2, IDLE, 1, 1, 1, 1, missing, out);
  }

  lemma RunOfThree(x: Cmd, y: Cmd, z: Cmd)
    ensures Run([x, y, z]) == Step(Step(Step(EMPTY, IDLE, x), IDLE, y), IDLE, z)
  {
    var w1 := Step(EMPTY, IDLE, x);
    var w2 := Step(w1, IDLE, y);
    hide Step;
    assert [x, y, z][1..] == [y, z] && [y, z][1..] == [z] && [z][1..] == [];
    assert Exec(w2, IDLE, [z]) == Exec(Step(w2, IDLE, z), IDLE, []);
    assert Exec(w1, IDLE, [y, z]) == Exec(w2, IDLE, [z]);
    assert Exec(EMPTY, IDLE, [x, y, z]) == Exec(w1, IDLE, [y, z]);
  }

  lemma FirstContext(hint: Addr)
    ensures Step(EMPTY, IDLE, NewCtx(hint)) == NewContext(EMPTY, hint)
    ensures var w := NewContext(EMPTY, hint);
      Open(w, 1) && w.nextRef == 1 && w.fnSeq == 0 && w.hidden == {}
  {
  }

  lemma FirstFunction(w: World, js: Js, hint: Addr)
    requires Inv(w, IDLE) && Open(w, 1) && w.nextRef == 1 && w.fnSeq == 0 && w.hidden == {}
    ensures var w' := NewFunction(w, 1, Yields(js, hint));
      && w' == Step(w, IDLE, NewFn(1, Yields(js, hint)))
      && Inv(w', IDLE) && Nameable(w', 1) && Valid(w', 1) && !w'.vals[1].borrowed && Open(w', 1) && 1 in w'.fns
  {
    assert w.ctxSeq >= 0 && !w.rogue;
    hide Inv, Keeps;
    NewFunctionNet(w, IDLE, 1, Yields(js, hint));
    NewFnSafe(w, IDLE, 1, Yields(js, hint));
    FunctionVisible(w, 1, js, hint);
  }

  lemma FunctionVisible(w: World, c: CtxRef, js: Js, hint: Addr)
    requires Open(w, c)
    ensures NewFunction(w, c, Yields(js, hint)).hidden == w.hidden
    ensures NewFunction(w, c, Yields(js, hint)).rogue == w.rogue
  {
  }
}
