/**
 Every program, under every choice of the engine and the allocator, keeps the
 handle invariant and leaves alone what belongs to enclosing native frames,
 unless the caller breaks an obligation on the way.
 */
module ProgramSafety {
  import opened Handles
  import opened HandleInvariants
  import opened Framing
  import opened FramingPrimitives
  import opened Programs
  import opened HandleLists
  import opened HostCalls
  import opened HostReturns

  ghost predicate Safe(w: World, w': World, b: Busy) {
    w'.rogue || (Inv(w', b) && Keeps(w, w', b, {}, {}))
  }

  lemma KeepsThen(w: World, w1: World, w2: World, b: Busy)
    requires Inv(w, b) && Inv(w1, b) && Keeps(w, w1, b, {}, {}) && Keeps(w1, w2, b, {}, {})
    ensures Keeps(w, w2, b, {}, {})
  {
    hide Inv, Keeps;
    KeepsTrans(w, w1, w2, b, {}, {}, {}, {});
    KeepsWeaken(w, w2, b, b, {} + {}, {} + {}, {}, {});
  }

  lemma SafeTrans(w: World, w1: World, w2: World, b: Busy)
    requires Inv(w, b) && Safe(w, w1, b) && (w1.rogue ==> w2.rogue)
    requires !w1.rogue ==> Safe(w1, w2, b)
    ensures Safe(w, w2, b)
  {
    hide Inv, Keeps;
    if !w2.rogue { KeepsThen(w, w1, w2, b); }
  }

  lemma PinsStay(w: World, w': World, b: Busy)
    requires PinsSound(w, b) && Keeps(w, w', b, {}, {})
    ensures PinsSound(w', b)
  {
    forall r {:trigger r in b.refs} | r in b.refs ensures r in w'.vals && w'.vals[r].ctx in b.ctxs {
      assert SameWrapper(w, w', r);
    }
  }

  /* ---- arguments ---- */

  // The temporaries are new, hidden, owned by nobody else's frame, and everything older is untouched.
  ghost predicate ArgsMade(w: World, m: Materialized, c: CtxRef) {
    && m.w.orphans == w.orphans && w.hidden <= m.w.hidden
    && c in w.ctxs && Open(m.w, c) && m.w.ctxs[c].ptr == w.ctxs[c].ptr
    && (forall r {:trigger r in w.vals} :: r in w.vals ==> r in m.w.vals && m.w.vals[r] == w.vals[r])
    && (forall t {:trigger t in m.temps} :: t in m.temps ==>
          t !in w.vals && t in m.w.vals && !m.w.vals[t].borrowed && t in m.w.hidden && t !in m.w.orphans)
  }

  lemma {:induction false} MaterializeSafe(w: World, b: Busy, c: CtxRef, args: seq<Arg>)
    requires Inv(w, b) && Open(w, c)
    ensures var m := Materialize(w, c, args);
      Inv(m.w, b) && Keeps(w, m.w, b, {}, {}) && ArgsMade(w, m, c)
    decreases |args|
  {
    hide Inv, Keeps;
    KeepsRefl(w, b);
    if args != [] {
      match args[0]
      case Given(v) => MaterializeSafe(w, b, c, args[1..]);
      case Failing =>
      case Temp(js, hint) =>
        var (w1, p) := Wrap(w, w.ctxs[c].ptr, js, hint);
        var (w2, t) := NewHidden(w1, c, p, js);
        NewHiddenSafe(w, b, c, js, hint);
        MaterializeSafe(w2, b, c, args[1..]);
        var m := Materialize(w2, c, args[1..]);
        KeepsTrans(w, w2, m.w, b, {}, {}, {}, {});
        KeepsWeaken(w, m.w, b, b, {} + {}, {} + {}, {}, {});
        ArgsMadeCons(w, w2, m, c, t);
    }
  }

  lemma ArgsMadeCons(w: World, w2: World, m: Materialized, c: CtxRef, t: Ref)
    requires c in w.ctxs && Open(w2, c) && w2.ctxs[c].ptr == w.ctxs[c].ptr
    requires t !in w.vals && t in w2.vals && !w2.vals[t].borrowed && t !in w2.orphans && t in w2.hidden
    requires w2.vals == w.vals[t := w2.vals[t]]
    requires w2.orphans == w.orphans && w.hidden <= w2.hidden && ArgsMade(w2, m, c)
    ensures ArgsMade(w, Materialized(m.w, [t] + m.argv, [t] + m.temps, m.ok), c)
  {
    forall r {:trigger r in w.vals} | r in w.vals ensures r in m.w.vals && m.w.vals[r] == w.vals[r] {
      assert r in w2.vals;
    }
    forall u {:trigger u in [t] + m.temps} | u in [t] + m.temps
      ensures u !in w.vals && u in m.w.vals && !m.w.vals[u].borrowed && u in m.w.hidden && u !in m.w.orphans
    {
      assert u == t || u in m.temps;
    }
  }

  // Usable arguments are read without a fault.
  lemma {:induction false} ReadArgsOk(w: World, b: Busy, argv: seq<Ref>)
    requires Inv(w, b) && Usable(w, argv)
    ensures ReadArgs(w, argv) == w
    decreases |argv|
  {
    if argv != [] {
      var v := argv[0];
      assert Backed(w.vals[v], v, w.heap, w.ctxs);
      hide Inv;
      forall i | 0 <= i < |argv[1..]|
        ensures argv[1..][i] in w.vals && w.vals[argv[1..][i]].ptr != 0 && argv[1..][i] !in w.orphans
      {
        assert argv[1..][i] == argv[i + 1];
      }
      ReadArgsOk(w, b, argv[1..]);
    }
  }

  // the deferred cleanup of a Go call
  lemma CleanupSafe(w: World, w1: World, b: Busy, temps: seq<Ref>)
    requires Inv(w, b) && Inv(w1, b) && Keeps(w, w1, b, {}, {})
    requires forall t {:trigger t in temps} :: t in temps ==> t !in w.vals && t !in w1.orphans && t in w1.vals && !w1.vals[t].borrowed
    ensures Inv(ReleaseAll(w1, temps), b) && Keeps(w, ReleaseAll(w1, temps), b, {}, {})
  {
    hide Inv, Keeps;
    var w2 := ReleaseAll(w1, temps);
    ReleaseAllSound(w1, b, temps);
    KeepsTrans(w, w1, w2, b, {}, {}, {}, Elems(temps));
    forall t {:trigger t in temps} | t in temps ensures !View(w2, t) {
      NotView(w1, w2, b, temps, t);
    }
    KeepsForget(w, w2, b, {} + {}, {} + Elems(temps), {}, {});
  }

  lemma NotView(w1: World, w2: World, b: Busy, temps: seq<Ref>, t: Ref)
    requires Keeps(w1, w2, b, {}, Elems(temps)) && t in w1.vals && !w1.vals[t].borrowed
    ensures !View(w2, t)
  {
    assert SameWrapper(w1, w2, t);
  }

  /* ---- a native call in progress ---- */

  // The cell at p cannot go away while the frames b are active: nobody owns it, or its owner is pinned.
  ghost predicate Held(w: World, b: Busy, c: CtxRef, p: Addr, v: Ref) {
    && c in b.ctxs && c in w.ctxs && p in w.heap && w.heap[p].ctx == w.ctxs[c].ptr
    && (if v == 0 then !Owned(w, p) else v in b.refs && Owns(w, v, p))
  }

  lemma HeldStays(w: World, w': World, b: Busy, c: CtxRef, p: Addr, v: Ref)
    requires Inv(w, b) && Inv(w', b) && Keeps(w, w', b, {}, {}) && Held(w, b, c, p, v)
    ensures Held(w', b, c, p, v)
  {
    assert Open(w, c);
    assert ContextSound(w.ctxs[c], c, w.nctxs);
    if v == 0 {
      assert Stuck(w, b, p);
      assert Still(w, w', p);
    } else {
      assert Guarded(w, b, v) && SameWrapper(w, w', v) && SameStanding(w, w', v);
      assert Owns(w', v, p);
      assert Backed(w'.vals[v], v, w'.heap, w'.ctxs);
      assert Backed(w.vals[v], v, w.heap, w.ctxs);
    }
  }

  /* ---- programs ---- */

  // the caller's own wrapper that a native call pins
  ghost function Owner(w: World, v: Ref): Ref
    requires v in w.vals
  {
    if w.vals[v].borrowed then 0 else v
  }

  lemma PinSound(w: World, m: World, b: Busy, v: Ref)
    requires Inv(w, b) && Inv(m, b) && PinsSound(w, b) && Nameable(w, v) && Valid(w, v)
    requires forall r {:trigger r in w.vals} :: r in w.vals ==> r in m.vals && m.vals[r] == w.vals[r]
    requires m.orphans == w.orphans && Open(m, w.vals[v].ctx)
    ensures var b1 := Pin(w, b, v);
      && Inv(m, b1) && PinsSound(m, b1)
      && Held(m, b1, w.vals[v].ctx, w.vals[v].ptr, Owner(w, v))
  {
    hide Inv, Held, NativeInv, ContextInv, ValueInv, SerialInv;
    Parts(w, b);
    Parts(m, b);
    PinHeld(w, m, b, v);
    InvWeaken(m, b, Pin(w, b, v));
  }

  lemma PinHeld(w: World, m: World, b: Busy, v: Ref)
    requires ValueInv(w) && ValueInv(m) && v in w.vals && v !in w.hidden && w.vals[v].ptr != 0
    requires v in m.vals && m.vals[v] == w.vals[v] && m.orphans == w.orphans
    ensures Held(m, Pin(w, b, v), w.vals[v].ctx, w.vals[v].ptr, Owner(w, v))
  {
    assert v !in w.orphans;
    var p := m.vals[v].ptr;
    assert Backed(m.vals[v], v, m.heap, m.ctxs);
    if w.vals[v].borrowed {
      forall r ensures !Owns(m, r, p) {
        if r in m.vals && r !in m.orphans && m.vals[r].ptr == p { assert Backed(m.vals[r], r, m.heap, m.ctxs); }
      }
    }
  }

  // A frame that has come back: what holds with it busy holds for the frames below.
  lemma Unpin(w: World, w': World, b: Busy, b1: Busy)
    requires Inv(w, b) && Inv(w', b1) && Keeps(w, w', b1, {}, {})
    requires b.refs <= b1.refs && b.ctxs <= b1.ctxs
    ensures Inv(w', b) && Keeps(w, w', b, {}, {})
  {
    KeepsWeaken(w, w', b, b1, {}, {}, {}, {});
    InvNarrow(w, w', b, b1);
  }

  lemma {:induction false} ExecSafe(w: World, b: Busy, cmds: seq<Cmd>)
    requires Inv(w, b) && PinsSound(w, b)
    ensures Safe(w, Exec(w, b, cmds), b)
    decreases cmds, 0
  {
    if cmds == [] {
      KeepsRefl(w, b);
    } else {
      var w1 := Step(w, b, cmds[0]);
      StepSafe(w, b, cmds[0]);
      if !w1.rogue {
        PinsStay(w, w1, b);
        ExecSafe(w1, b, cmds[1..]);
      }
      hide Safe;
      SafeTrans(w, w1, Exec(w1, b, cmds[1..]), b);
    }
  }

  lemma {:induction false} UpcallsSafe(w: World, b: Busy, ups: seq<Upcall>)
    requires Inv(w, b) && PinsSound(w, b)
    ensures Safe(w, Upcalls(w, b, ups), b)
    decreases ups, 0
  {
    if ups == [] {
      KeepsRefl(w, b);
    } else {
      var w1 := HostCall(w, b, ups[0]);
      HostCallSafe(w, b, ups[0]);
      if !w1.rogue {
        PinsStay(w, w1, b);
        UpcallsSafe(w1, b, ups[1..]);
      }
      hide Safe;
      SafeTrans(w, w1, Upcalls(w1, b, ups[1..]), b);
    }
  }

  // A native call on a held cell: both reads of the cell succeed.
  lemma {:induction false} NativeUseSafe(w: World, b: Busy, p: Addr, inner: seq<Upcall>, out: Outcome, c: CtxRef, v: Ref)
    requires Inv(w, b) && PinsSound(w, b) && Held(w, b, c, p, v)
    ensures var w1 := Upcalls(w, b, inner);
      && Safe(w, w1, b)
      && (!w1.rogue ==> Held(w1, b, c, p, v) && Open(w1, c))
      && (!w1.rogue && out.Yields? ==> NativeUse(w, b, p, inner, out) == Wrap(w1, w1.ctxs[c].ptr, out.js, out.hint))
      && (out.NoValue? ==> NativeUse(w, b, p, inner, out) == (w1, 0))
    decreases inner, 1
  {
    var w1 := Upcalls(w, b, inner);
    assert Touch(w, p) == w;
    UpcallsSafe(w, b, inner);
    if !w1.rogue {
      HeldStays(w, w1, b, c, p, v);
      assert Open(w1, c);
    }
  }

  /* ---- host calls ---- */

  lemma FreshUnseen(w: World, b: Busy, w1: World, ca: Addr, ps: seq<Addr>)
    requires Inv(w, b) && SameGo(w, w1) && Grown(w.heap, w1.heap, ca, ps) && Inv(w1, b)
    ensures Unseen(w1, ps)
  {
    forall r {:trigger r in w1.vals} | r in w1.vals && r !in w1.orphans ensures w1.vals[r].ptr !in ps {
      assert r in w.vals;
      if w.vals[r].ptr == 0 {
        assert 0 in ps ==> 0 in w1.heap;
      } else {
        assert Backed(w.vals[r], r, w.heap, w.ctxs);
      }
    }
  }

  // what the frame made and took down is forgotten
  lemma CloseFrame(w: World, w1: World, w': World, b: Busy, b1: Busy, ca: Addr, ps: seq<Addr>, vs: seq<Ref>)
    requires Inv(w, b) && Inv(w, b1) && Inv(w1, b1) && b.refs <= b1.refs && b.ctxs <= b1.ctxs
    requires Keeps(w, w1, b1, Elems(ps), {}) && Grown(w.heap, w1.heap, ca, ps) && w1.vals == w.vals
    requires Returned(w1, w', b1, ps, vs)
    requires forall v {:trigger v in vs} :: v in vs ==> v !in w.vals
    ensures Inv(w', b) && Keeps(w, w', b, {}, {})
  {
    forall p {:trigger p in ps} | p in ps ensures p !in w.heap && !LooseCell(w', p) {}
    hide Inv, Keeps, Grown;
    KeepsTrans(w, w1, w', b1, Elems(ps), {}, Elems(ps), Elems(vs));
    KeepsForget(w, w', b1, Elems(ps) + Elems(ps), {} + Elems(vs), {}, {});
    Unpin(w, w', b, b1);
  }

  lemma NilReturned(w: World, w': World, b: Busy, ps: seq<Addr>)
    requires Inv(w', b) && Keeps(w, w', b, Elems(ps), {}) && w'.heap.Keys == w.heap.Keys - Elems(ps)
    ensures Returned(w, w', b, ps, [])
  {
    hide Inv, Keeps;
    assert Elems<Ref>([]) == {};
  }

  // Until the body runs: the frame is set up.
  lemma FrameMade(w: World, b1: Busy, u: Upcall)
    requires Inv(w, b1) && Open(w, u.c) && u.c in b1.ctxs
    ensures var ca := w.ctxs[u.c].ptr;
      var (w1, ps) := WrapAll(w, ca, u.cells);
      && Inv(w1, b1) && Keeps(w, w1, b1, Elems(ps), {}) && Grown(w.heap, w1.heap, ca, ps) && SameGo(w, w1)
      && Distinct(ps) && Loose(w1, ca, ps) && Unseen(w1, ps)
  {
    var ca := w.ctxs[u.c].ptr;
    assert ContextSound(w.ctxs[u.c], u.c, w.nctxs);
    hide Inv, Keeps;
    var (w1, ps) := WrapAll(w, ca, u.cells);
    WrapAllSound(w, b1, ca, u.cells);
    WrapAllKeeps(w, w1, b1, ca, ps);
    FreshUnseen(w, b1, w1, ca, ps);
  }

  lemma ViewsMade(w: World, b1: Busy, c: CtxRef, ps: seq<Addr>)
    requires Inv(w, b1) && Open(w, c) && c in b1.ctxs
    requires Distinct(ps) && Loose(w, w.ctxs[c].ptr, ps) && Unseen(w, ps)
    ensures var (w2, vs) := ViewAll(w, c, ps);
      && Inv(w2, b1) && Keeps(w, w2, b1, {}, Elems(vs)) && FrameOk(w2, b1, c, ps, vs)
      && Views(w2, c, ps, vs) && OnlyViews(w, w2, vs)
  {
    var (w2, vs) := ViewAll(w, c, ps);
    ViewAllSound(w, b1, c, ps);
    ViewAllKeeps(w, w2, b1, vs);
    forall p {:trigger p in ps} | p in ps ensures LooseCell(w2, p) && w2.heap[p].ctx == w2.ctxs[c].ptr {
      assert LooseCell(w, p);
    }
    forall r {:trigger r in w2.vals} | r in w2.vals && r !in w2.orphans && r !in vs ensures w2.vals[r].ptr !in ps {
      assert r in w.vals;
    }
  }

  // after the body
  lemma HostReturnSafe(w: World, b: Busy, b1: Busy, c: CtxRef, ps: seq<Addr>, vs: seq<Ref>, ret: Ret)
    requires Inv(w, b1) && FrameOk(w, b1, c, ps, vs) && b1.refs == b.refs
    ensures var w' := HostReturn(w, b, c, ps, vs, ret);
      w'.rogue || Returned(w, w', b1, ps, vs)
  {
    hide Inv, Returned, FrameOk, Handoff, HostEnd, InvalidateAll, NativeReleaseAll, Reads, Answered;
    var (w1, h) := Handed(w, b, c, vs, ret);
    HostEndBlamed(w, b, c, ps, vs, ret);
    if !w1.rogue {
      ReturnsSafe(w, b, b1, c, ps, vs, ret);
      AnsweredReturned(w, HostEnd(w1, ps, h), b1, ps, vs, Reads(w1, h, ret.RetErr?));
    }
  }

  lemma HostEndBlamed(w: World, b: Busy, c: CtxRef, ps: seq<Addr>, vs: seq<Ref>, ret: Ret)
    ensures HostReturn(w, b, c, ps, vs, ret).rogue == Handed(w, b, c, vs, ret).0.rogue
  {
    hide Handed;
  }

  lemma ReturnsSafe(w: World, b: Busy, b1: Busy, c: CtxRef, ps: seq<Addr>, vs: seq<Ref>, ret: Ret)
    requires Inv(w, b1) && FrameOk(w, b1, c, ps, vs) && b1.refs == b.refs && !Handed(w, b, c, vs, ret).0.rogue
    ensures var (w1, h) := Handed(w, b, c, vs, ret);
      Returned(w, HostEnd(w1, ps, h), b1, ps, vs)
  {
    hide Inv, Returned, FrameOk, Handoff, HostEnd, InvalidateAll, NativeReleaseAll;
    match ret
    case RetNil =>
      ReturnNilSafe(w, b1, c, ps, vs);
      HostEndUnfold(InvalidateAll(w, vs), ps, 0);
    case RetValue(v, hint) =>
      if !Nameable(w, v) {
        ReturnNilSafe(w, b1, c, ps, vs);
        HostEndUnfold(InvalidateAll(w, vs), ps, 0);
      } else if v !in b.refs {
        ReturnValueSafe(w, b1, c, ps, vs, v, hint);
      }
    case RetErr(js, hint, retained) =>
      ReturnErrSafe(w, b1, c, ps, vs, js, hint, retained);
      assert Handed(w, b, c, vs, ret) == Handed(w, b1, c, vs, ret);
  }

  // from the views to the end of the call
  lemma {:induction false} HostBodySafe(w: World, b: Busy, b1: Busy, u: Upcall, ps: seq<Addr>)
    requires Inv(w, b1) && PinsSound(w, b1) && Open(w, u.c) && u.c in b1.ctxs && b1 == Busy(b.refs, b.ctxs + {u.c})
    requires Distinct(ps) && Loose(w, w.ctxs[u.c].ptr, ps) && Unseen(w, ps)
    ensures var (w2, vs) := ViewAll(w, u.c, ps);
      var w' := HostReturn(Exec(w2, b1, u.body), b, u.c, ps, vs, u.ret);
      && (w'.rogue || Returned(w, w', b1, ps, vs))
      && (forall v {:trigger v in vs} :: v in vs ==> v !in w.vals)
    decreases u, 0
  {
    var (w2, vs) := ViewAll(w, u.c, ps);
    ViewsMade(w, b1, u.c, ps);
    forall v {:trigger v in vs} | v in vs ensures v !in w.vals {}
    forall r {:trigger r in b1.refs} | r in b1.refs ensures r in w2.vals && w2.vals[r].ctx in b1.ctxs {
      assert r in w.vals;
    }
    var w3 := Exec(w2, b1, u.body);
    ExecSafe(w2, b1, u.body);
    if !w3.rogue {
      FrameStays(w2, w3, b1, u.c, ps, vs, {});
      HostReturnSafe(w3, b, b1, u.c, ps, vs, u.ret);
      var w' := HostReturn(w3, b, u.c, ps, vs, u.ret);
      if !w'.rogue { JoinReturn(w, w2, w3, w', b1, ps, vs); }
    }
  }

  lemma JoinReturn(w: World, w2: World, w3: World, w': World, b1: Busy, ps: seq<Addr>, vs: seq<Ref>)
    requires Inv(w, b1) && Inv(w2, b1) && Inv(w3, b1)
    requires Keeps(w, w2, b1, {}, Elems(vs)) && Keeps(w2, w3, b1, {}, {}) && Returned(w3, w', b1, ps, vs)
    ensures Returned(w, w', b1, ps, vs)
  {
    hide Inv, Keeps, View;
    KeepsTrans(w, w2, w3, b1, {}, Elems(vs), {}, {});
    KeepsTrans(w, w3, w', b1, {} + {}, Elems(vs) + {}, Elems(ps), Elems(vs));
    KeepsWeaken(w, w', b1, b1, {} + {} + Elems(ps), Elems(vs) + {} + Elems(vs), Elems(ps), Elems(vs));
  }

  // Entering a host function of an open context reads its gv8_ctx and nothing else.
  lemma EnteredOpen(w: World, b: Busy, u: Upcall)
    requires Inv(w, b) && Open(w, u.c)
    ensures Entered(w, u) == w
  {
    OpenNative(w, b, u.c);
  }

  lemma EnteredClosed(w: World, b: Busy, u: Upcall)
    requires u.c in w.ctxs && !Open(w, u.c)
    ensures HostCall(w, b, u) == Answered(HostClosed(Entered(w, u), u), NoAnswer) && HostCall(w, b, u).rogue
  {
  }

  lemma {:induction false} HostCallSafe(w: World, b: Busy, u: Upcall)
    requires Inv(w, b) && PinsSound(w, b)
    ensures Safe(w, HostCall(w, b, u), b)
    decreases u, 2
  {
    if u.c !in w.ctxs {
      KeepsRefl(w, b);
    } else if !Open(w, u.c) {
      EnteredClosed(w, b, u);
      BrokenIsSafe(w, HostCall(w, b, u), b);
    } else {
      EnteredOpen(w, b, u);
      OpenCallSafe(w, b, u);
    }
  }

  lemma {:induction false} OpenCallSafe(w: World, b: Busy, u: Upcall)
    requires Inv(w, b) && PinsSound(w, b) && Open(w, u.c) && Entered(w, u) == w
    ensures Safe(w, HostCall(w, b, u), b)
    decreases u, 1
  {
    var ca := w.ctxs[u.c].ptr;
    var (w1, ps) := WrapAll(w, ca, u.cells);
    var b1 := Busy(b.refs, b.ctxs + {u.c});
    InvWeaken(w, b, b1);
    FrameMade(w, b1, u);
    if u.id !in w.fns {
      HostMissingSafe(w1, b1, u.c, ps, u.missing);
      var w' := HostMissing(w1, u.c, ca, ps, u.missing);
      NilReturned(w1, w', b1, ps);
      CloseFrame(w, w1, w', b, b1, ca, ps, []);
    } else {
      HostBodySafe(w1, b, b1, u, ps);
      var (w2, vs) := ViewAll(w1, u.c, ps);
      var w' := HostReturn(Exec(w2, b1, u.body), b, u.c, ps, vs, u.ret);
      assert w' == HostCall(w, b, u);
      if !w'.rogue { CloseFrame(w, w1, w', b, b1, ca, ps, vs); }
    }
  }

  /* ---- API calls ---- */

  lemma RegisteredContexts(w: World, c: CtxRef)
    requires ContextInv(w) && Open(w, c)
    ensures ContextInv(Registered(w, c))
  {
    var w' := Registered(w, c);
    forall d, r {:trigger r in w'.ctxs[d].live} | d in w'.ctxs && r in w'.ctxs[d].live
      ensures r in w'.vals && LiveSound(w'.vals[r], d, r in w'.orphans)
    {
      assert r in w.ctxs[d].live;
    }
    forall d, id {:trigger id in w'.ctxs[d].fns} | d in w'.ctxs && id in w'.ctxs[d].fns
      ensures id <= w'.fnSeq && FnOwner(w'.fns, id, d)
    {
      assert id in w.ctxs[d].fns || (d == c && id == w.fnSeq + 1);
    }
  }

  lemma RegisteredSafe(w: World, b: Busy, c: CtxRef)
    requires Inv(w, b) && Open(w, c)
    ensures Inv(Registered(w, c), b) && Keeps(w, Registered(w, c), b, {}, {})
  {
    RegisteredContexts(w, c);
    SameWrappers(w, Registered(w, c), b);
  }

  // a step that changes neither cells nor wrappers
  lemma SameWrappers(w: World, w': World, b: Busy)
    requires Inv(w, b) && ContextInv(w') && SameNative(w, w') && w'.vals == w.vals && w'.fault == w.fault && w'.rogue == w.rogue
    requires w'.nextRef == w.nextRef && w'.hidden == w.hidden && w'.orphans == w.orphans && w'.ctxSeq == w.ctxSeq
    requires w'.ctxs.Keys == w.ctxs.Keys
    requires forall c {:trigger c in w.ctxs} :: c in w.ctxs ==>
      (w'.ctxs[c].ptr == w.ctxs[c].ptr && w'.ctxs[c].closed == w.ctxs[c].closed && w'.ctxs[c].live == w.ctxs[c].live)
    ensures Inv(w', b) && Keeps(w, w', b, {}, {})
  {
    SameOwners(w, w');
    RefsOnly(w, w', b, {}, {});
    hide ContextInv, ValueInv, NativeInv, SerialInv, Keeps;
  }

  lemma SameOwners(w: World, w': World)
    requires ValueInv(w) && w'.heap == w.heap && w'.vals == w.vals && w'.ctxs.Keys == w.ctxs.Keys
    requires w'.nextRef == w.nextRef && w'.hidden == w.hidden && w'.orphans == w.orphans
    requires forall c {:trigger c in w.ctxs} :: c in w.ctxs ==>
      (w'.ctxs[c].ptr == w.ctxs[c].ptr && w'.ctxs[c].closed == w.ctxs[c].closed && w'.ctxs[c].live == w.ctxs[c].live)
    ensures ValueInv(w')
  {
    forall r {:trigger r in w'.vals} | r in w'.vals && r !in w'.orphans && w'.vals[r].ptr != 0
      ensures Backed(w'.vals[r], r, w'.heap, w'.ctxs)
    {
      assert Backed(w.vals[r], r, w.heap, w.ctxs);
    }
    forall r, s, p | p != 0 && Owns(w', r, p) && Owns(w', s, p) ensures r == s {
      assert Owns(w, r, p) && Owns(w, s, p);
    }
  }

  lemma UnregisteredContexts(w: World, id: nat)
    requires ContextInv(w) && forall f {:trigger f in w.functions} :: f in w.functions ==> f.id != id
    ensures ContextInv(w.(fns := w.fns - {id}))
  {
    var w' := w.(fns := w.fns - {id});
    forall d, i {:trigger i in w'.ctxs[d].fns} | d in w'.ctxs && i in w'.ctxs[d].fns
      ensures i <= w'.fnSeq && FnOwner(w'.fns, i, d)
    {
      assert i in w.ctxs[d].fns;
      assert FnOwner(w.fns, i, d);
    }
  }

  lemma UnregisterSafe(w: World, b: Busy, id: nat)
    requires Inv(w, b) && forall f {:trigger f in w.functions} :: f in w.functions ==> f.id != id
    ensures Inv(w.(fns := w.fns - {id}), b) && Keeps(w, w.(fns := w.fns - {id}), b, {}, {})
  {
    UnregisteredContexts(w, id);
    SameWrappers(w, w.(fns := w.fns - {id}), b);
  }

  lemma MadeContexts(w: World, c: CtxRef)
    requires ContextInv(w) && c in w.ctxs && w.fnSeq in w.fns && w.fns[w.fnSeq] == c
    ensures ContextInv(FunctionMade(w, c))
  {
  }

  lemma MadeSafe(w: World, b: Busy, c: CtxRef)
    requires Inv(w, b) && c in w.ctxs && w.fnSeq in w.fns && w.fns[w.fnSeq] == c
    ensures Inv(FunctionMade(w, c), b) && Keeps(w, FunctionMade(w, c), b, {}, {})
  {
    MadeContexts(w, c);
    SameWrappers(w, FunctionMade(w, c), b);
  }

  lemma LastIdIsNew(w: World, b: Busy, c: CtxRef)
    requires Inv(w, b) && Open(w, c)
    ensures var w1 := Registered(w, c);
      && w1.functions == w.functions && w1.fnSeq in w1.fns && w1.fns[w1.fnSeq] == c
      && forall f {:trigger f in w1.functions} :: f in w1.functions ==> f.id != w1.fnSeq
  {
  }

  lemma NewFnSafe(w: World, b: Busy, c: CtxRef, out: Outcome)
    requires Inv(w, b)
    ensures Safe(w, NewFunction(w, c, out), b)
  {
    KeepsRefl(w, b);
    if Open(w, c) {
      RegisteredSafe(w, b, c);
      NewFnTail(w, Registered(w, c), b, c, out);
    }
  }

  lemma NewFnTail(w: World, w1: World, b: Busy, c: CtxRef, out: Outcome)
    requires Inv(w, b) && Open(w, c) && w1 == Registered(w, c) && Inv(w1, b) && Keeps(w, w1, b, {}, {})
    ensures Safe(w, NewFunction(w, c, out), b)
  {
    assert Open(w1, c) && w1.ctxs[c].ptr == w.ctxs[c].ptr;
    LastIdIsNew(w, b, c);
    hide Inv, Keeps, Wrap, NewValue, Registered;
    match out
    case NoValue(message) =>
      UnregisterSafe(w1, b, w1.fnSeq);
      KeepsThen(w, w1, w1.(fns := w1.fns - {w1.fnSeq}), b);
    case Yields(js, hint) =>
      var w2 := FunctionMade(w1, c);
      MadeSafe(w1, b, c);
      KeepsThen(w, w1, w2, b);
      WrapNewSafe(w2, b, c, js, hint);
      var (w3, p) := Wrap(w2, w2.ctxs[c].ptr, js, hint);
      KeepsThen(w, w2, NewValue(w3, c, p, js).0, b);
  }

  lemma RetainGlobalSafe(w: World, b: Busy, v: Ref, hint: Addr)
    requires Inv(w, b)
    ensures Safe(w, NewGlobalValue(w, v, hint), b)
  {
    KeepsRefl(w, b);
    if Nameable(w, v) && Valid(w, v) {
      assert Backed(w.vals[v], v, w.heap, w.ctxs) && w.vals[v].ptr != 0;
      hide Inv, Keeps, Wrap, NewValue;
      WrapNewSafe(w, b, w.vals[v].ctx, w.vals[v].born, hint);
    }
  }

  lemma {:induction false} CreateSafe(w: World, b: Busy, cmd: Cmd)
    requires Inv(w, b) && PinsSound(w, b) && cmd.Create?
    ensures Safe(w, StepCreate(w, b, cmd), b)
    decreases cmd, 0
  {
    var Create(c, inner, out, kept) := cmd;
    KeepsRefl(w, b);
    if Open(w, c) {
      var b1 := Busy(b.refs, b.ctxs + {c});
      var w1 := Upcalls(w, b1, inner);
      InvWeaken(w, b, b1);
      UpcallsSafe(w, b1, inner);
      if !w1.rogue {
        assert c in b1.ctxs;
        assert Open(w1, c) && w1.ctxs[c].ptr == w.ctxs[c].ptr;
        hide Inv, Keeps, Wrap, NewValue, NewHidden;
        Unpin(w, w1, b, b1);
        CreateTail(w, w1, b, c, out, kept);
      }
    }
  }

  lemma CreateTail(w: World, w1: World, b: Busy, c: CtxRef, out: Outcome, kept: bool)
    requires Inv(w, b) && Inv(w1, b) && Keeps(w, w1, b, {}, {}) && Open(w1, c)
    ensures out.NoValue? ==> Safe(w, w1, b)
    ensures out.Yields? ==>
      var (w2, p) := Wrap(w1, w1.ctxs[c].ptr, out.js, out.hint);
      Safe(w, if kept then NewValue(w2, c, p, out.js).0 else NewHidden(w2, c, p, out.js).0, b)
  {
    hide Inv, Keeps, Wrap, NewValue, NewHidden;
    match out
    case NoValue(_) =>
    case Yields(js, hint) =>
      var (w2, p) := Wrap(w1, w1.ctxs[c].ptr, js, hint);
      if kept {
        WrapNewSafe(w1, b, c, js, hint);
        KeepsThen(w, w1, NewValue(w2, c, p, js).0, b);
      } else {
        NewHiddenSafe(w1, b, c, js, hint);
        KeepsThen(w, w1, NewHidden(w2, c, p, js).0, b);
      }
  }

  // The result of a native call becomes a wrapper, then the temporaries go.
  lemma FinishUse(w: World, m: Materialized, w1: World, b: Busy, c: CtxRef, out: Outcome, q: Addr, w2: World)
    requires Inv(w, b) && Inv(m.w, b) && Inv(w1, b) && Open(w, c)
    requires Keeps(w, m.w, b, {}, {}) && Keeps(m.w, w1, b, {}, {}) && ArgsMade(w, m, c) && Open(w1, c)
    requires out.NoValue? ==> (w2, q) == (w1, 0)
    requires out.Yields? ==> (w2, q) == Wrap(w1, w1.ctxs[c].ptr, out.js, out.hint)
    ensures Safe(w, FinishCall(w2, c, q, out, m.temps), b)
  {
    var w3 := NewValue(w2, c, q, Born(out)).0;
    hide Inv, Keeps, Wrap, NewValue, ArgsMade, ReleaseAll;
    if out.Yields? {
      WrapNewSafe(w1, b, c, out.js, out.hint);
      KeepsThen(m.w, w1, w3, b);
    } else {
      NewValueOfNil(w2, c, Born(out));
    }
    TempsStay(w, m, w3, b, c);
    KeepsThen(w, m.w, w3, b);
    CleanupSafe(w, w3, b, m.temps);
  }

  lemma NewValueOfNil(w: World, c: CtxRef, js: Js)
    ensures NewValue(w, c, 0, js) == (w, 0)
  {
  }

  lemma TempsStay(w: World, m: Materialized, w3: World, b: Busy, c: CtxRef)
    requires ArgsMade(w, m, c) && Keeps(m.w, w3, b, {}, {})
    ensures forall t {:trigger t in m.temps} :: t in m.temps ==>
      t !in w.vals && t !in w3.orphans && t in w3.vals && !w3.vals[t].borrowed
  {
    forall t {:trigger t in m.temps} | t in m.temps
      ensures t !in w.vals && t !in w3.orphans && t in w3.vals && !w3.vals[t].borrowed
    {
      assert SameWrapper(m.w, w3, t) && SameStanding(m.w, w3, t);
    }
  }

  // Whatever goes wrong after the arguments were made, the temporaries are released.
  lemma AbandonUse(w: World, m: Materialized, w1: World, b: Busy, c: CtxRef)
    requires Inv(w, b) && Inv(m.w, b) && Inv(w1, b) && Keeps(w, m.w, b, {}, {}) && Keeps(m.w, w1, b, {}, {}) && ArgsMade(w, m, c)
    ensures Safe(w, ReleaseAll(w1, m.temps), b)
  {
    hide Inv, Keeps, ArgsMade, ReleaseAll;
    TempsStay(w, m, w1, b, c);
    KeepsThen(w, m.w, w1, b);
    CleanupSafe(w, w1, b, m.temps);
  }

  lemma SafeParts(w: World, w': World, b: Busy)
    requires Safe(w, w', b) && !w'.rogue
    ensures Inv(w', b) && Keeps(w, w', b, {}, {})
  {
  }

  // What happened while JavaScript ran inside a native call is still on record at its end.
  lemma UseLater(w: World, b: Busy, p: Addr, inner: seq<Upcall>, out: Outcome)
    ensures Tidy(Upcalls(Touch(w, p), b, inner), NativeUse(w, b, p, inner, out).0)
  {
  }

  ghost function Args(w: World, cmd: Cmd): Materialized
    requires (cmd.Use? || cmd.CallMethod?) && Valid(w, cmd.v)
  {
    Materialize(w, w.vals[cmd.v].ctx, cmd.args)
  }

  // Function.Call and the like: fail in the arguments, break an obligation, or call.
  lemma UseIs(w: World, b: Busy, cmd: Cmd)
    requires cmd.Use? && Nameable(w, cmd.v) && Valid(w, cmd.v) && Inv(Args(w, cmd).w, b)
    ensures var m := Args(w, cmd);
      var w' := StepUse(w, b, cmd);
      var (w2, q) := NativeUse(m.w, Pin(w, b, cmd.v), w.vals[cmd.v].ptr, cmd.inner, cmd.out);
      && (!m.ok ==> w' == ReleaseAll(m.w, m.temps))
      && (m.ok && !Usable(m.w, m.argv) ==> w'.rogue)
      && (m.ok && Usable(m.w, m.argv) ==> w' == FinishCall(w2, w.vals[cmd.v].ctx, q, cmd.out, m.temps))
  {
    var m := Args(w, cmd);
    if Usable(m.w, m.argv) { ReadArgsOk(m.w, b, m.argv); }
    hide Inv, Usable, NativeUse, FinishCall, ReleaseAll, ReadArgs;
  }

  lemma {:induction false} UseSafe(w: World, b: Busy, cmd: Cmd)
    requires Inv(w, b) && PinsSound(w, b) && cmd.Use?
    ensures Safe(w, StepUse(w, b, cmd), b)
    decreases cmd, 0
  {
    var Use(v, args, inner, out) := cmd;
    KeepsRefl(w, b);
    if Nameable(w, v) && Valid(w, v) {
      var c := w.vals[v].ctx;
      var m := Args(w, cmd);
      hide Inv, Keeps, StepUse, FinishCall, NativeUse, ReleaseAll, ArgsMade, PinsSound, Usable, Materialize;
      MaterializeSafe(w, b, c, args);
      UseIs(w, b, cmd);
      if !m.ok {
        KeepsRefl(m.w, b);
        AbandonUse(w, m, m.w, b, c);
      } else if Usable(m.w, m.argv) {
        UseCore(w, m, b, c, v, inner, out);
      }
    }
  }

  // Function.Call and the like, once the arguments are there.
  lemma {:induction false} UseCore(w: World, m: Materialized, b: Busy, c: CtxRef, v: Ref, inner: seq<Upcall>, out: Outcome)
    requires Inv(w, b) && PinsSound(w, b) && Nameable(w, v) && Valid(w, v) && c == w.vals[v].ctx
    requires Inv(m.w, b) && Keeps(w, m.w, b, {}, {}) && ArgsMade(w, m, c)
    ensures var (w2, q) := NativeUse(m.w, Pin(w, b, v), w.vals[v].ptr, inner, out);
      Safe(w, FinishCall(w2, c, q, out, m.temps), b)
    decreases inner, 2
  {
    var b1 := Pin(w, b, v);
    var p := w.vals[v].ptr;
    PinnedArgs(w, m, b, c, v);
    var w1 := Upcalls(m.w, b1, inner);
    var (w2, q) := NativeUse(m.w, b1, p, inner, out);
    assert Touch(m.w, p) == m.w;
    UseLater(m.w, b1, p, inner, out);
    BrokenIsSafe(w, FinishCall(w2, c, q, out, m.temps), b);
    hide *;
    NativeUseSafe(m.w, b1, p, inner, out, c, Owner(w, v));
    if !w1.rogue {
      SafeParts(m.w, w1, b1);
      Unpin(m.w, w1, b, b1);
      FinishUse(w, m, w1, b, c, out, q, w2);
    }
  }

  lemma PinnedArgs(w: World, m: Materialized, b: Busy, c: CtxRef, v: Ref)
    requires Inv(w, b) && PinsSound(w, b) && Nameable(w, v) && Valid(w, v) && c == w.vals[v].ctx
    requires Inv(m.w, b) && ArgsMade(w, m, c)
    ensures var b1 := Pin(w, b, v);
      && Inv(m.w, b1) && PinsSound(m.w, b1) && b.refs <= b1.refs && b.ctxs <= b1.ctxs
      && Held(m.w, b1, c, w.vals[v].ptr, Owner(w, v))
    ensures Open(w, c) && w.vals[v].ptr in m.w.heap
  {
    PinSound(w, m.w, b, v);
  }

  // The handle of the looked-up method: nobody owns it, and it stays as long as the context is busy.
  lemma MethodHeld(w1: World, b1: Busy, c: CtxRef, p: Addr, owner: Ref, js: Js, hint: Addr)
    requires Inv(w1, b1) && PinsSound(w1, b1) && Held(w1, b1, c, p, owner) && Open(w1, c)
    ensures var (w2, fn) := Wrap(w1, w1.ctxs[c].ptr, js, hint);
      && fn != 0 && Inv(w2, b1) && Keeps(w1, w2, b1, {}, {}) && PinsSound(w2, b1)
      && Held(w2, b1, c, fn, 0) && Held(w2, b1, c, p, owner) && Open(w2, c)
  {
    assert ContextSound(w1.ctxs[c], c, w1.nctxs);
    WrapKeepsInv(w1, b1, w1.ctxs[c].ptr, js, hint);
    WrapKeeps(w1, b1, w1.ctxs[c].ptr, js, hint);
    var (w2, fn) := Wrap(w1, w1.ctxs[c].ptr, js, hint);
    HeldStays(w1, w2, b1, c, p, owner);
  }

  // the second half of CallMethod: break an obligation, or call
  lemma MethodCallIs(w: World, b: Busy, c: CtxRef, p: Addr, fn: Addr, m: Materialized, inner: seq<Upcall>, out: Outcome)
    requires Inv(w, b) && p in w.heap && fn in w.heap
    ensures var w' := MethodCall(w, b, c, p, fn, m, inner, out);
      var (w1, q) := NativeUse(w, b, fn, inner, out);
      && (!Usable(w, m.argv) ==> w'.rogue)
      && (Usable(w, m.argv) ==> w' == FinishCall(w1, c, q, out, m.temps))
      && (Upcalls(w, b, inner).rogue ==> w'.rogue)
  {
    assert Touch(w, p) == w && Touch(w, fn) == w;
    UseLater(w, b, fn, inner, out);
    if Usable(w, m.argv) { ReadArgsOk(w, b, m.argv); }
    hide Inv, Usable, NativeUse, FinishCall, ReadArgs;
  }

  lemma {:induction false} MethodCallSafe(w: World, m: Materialized, w2: World, b: Busy, b1: Busy, c: CtxRef,
                                          p: Addr, fn: Addr, inner: seq<Upcall>, out: Outcome, owner: Ref)
    requires Inv(w, b) && Inv(m.w, b) && Inv(m.w, b1) && Inv(w2, b1) && PinsSound(w2, b1) && Open(w, c)
    requires Keeps(w, m.w, b, {}, {}) && Keeps(m.w, w2, b1, {}, {}) && ArgsMade(w, m, c)
    requires b.refs <= b1.refs && b.ctxs <= b1.ctxs
    requires Held(w2, b1, c, fn, 0) && Held(w2, b1, c, p, owner)
    ensures Safe(w, MethodCall(w2, b1, c, p, fn, m, inner, out), b)
    decreases inner, 2
  {
    var w3 := Upcalls(w2, b1, inner);
    var (w4, q) := NativeUse(w2, b1, fn, inner, out);
    MethodCallIs(w2, b1, c, p, fn, m, inner, out);
    BrokenIsSafe(w, MethodCall(w2, b1, c, p, fn, m, inner, out), b);
    hide *;
    NativeUseSafe(w2, b1, fn, inner, out, c, 0);
    if !w3.rogue && Usable(w2, m.argv) {
      SafeParts(w2, w3, b1);
      KeepsThen(m.w, w2, w3, b1);
      Unpin(m.w, w3, b, b1);
      FinishUse(w, m, w3, b, c, out, q, w4);
    }
  }

  // Object.CallMethod: fail in the arguments, fail in the lookup, or call.
  lemma MethodIs(w: World, b: Busy, cmd: Cmd)
    requires cmd.CallMethod? && Nameable(w, cmd.v) && Valid(w, cmd.v)
    ensures var m := Args(w, cmd);
      var w' := StepMethod(w, b, cmd);
      var b1 := Pin(w, b, cmd.v);
      var (c, p) := (w.vals[cmd.v].ctx, w.vals[cmd.v].ptr);
      var (w2, fn) := NativeUse(m.w, b1, p, cmd.getter, cmd.found);
      && (!m.ok ==> w' == ReleaseAll(m.w, m.temps))
      && (m.ok ==>
            w' == if fn == 0 then ReleaseAll(w2, m.temps) else MethodCall(w2, b1, c, p, fn, m, cmd.inner, cmd.out))
  {
    hide Usable, NativeUse, MethodCall, ReleaseAll, Materialize;
  }

  lemma {:induction false} MethodSafe(w: World, b: Busy, cmd: Cmd)
    requires Inv(w, b) && PinsSound(w, b) && cmd.CallMethod?
    ensures Safe(w, StepMethod(w, b, cmd), b)
    decreases cmd, 1
  {
    KeepsRefl(w, b);
    if Nameable(w, cmd.v) && Valid(w, cmd.v) {
      var c := w.vals[cmd.v].ctx;
      var m := Args(w, cmd);
      hide Inv, Keeps, ArgsMade, PinsSound, ReleaseAll, StepMethod, MethodCall, NativeUse, Usable, Materialize;
      MaterializeSafe(w, b, c, cmd.args);
      MethodIs(w, b, cmd);
      if !m.ok {
        KeepsRefl(m.w, b);
        AbandonUse(w, m, m.w, b, c);
      } else {
        MethodCore(w, m, b, c, cmd);
      }
    }
  }

  // The lookup of the method, with whatever its getter runs.
  lemma {:induction false} LookupSafe(w: World, m: Materialized, b: Busy, c: CtxRef, cmd: Cmd)
    requires cmd.CallMethod?
    requires Inv(w, b) && PinsSound(w, b) && Nameable(w, cmd.v) && Valid(w, cmd.v) && c == w.vals[cmd.v].ctx
    requires Inv(m.w, b) && ArgsMade(w, m, c)
    ensures var b1 := Pin(w, b, cmd.v);
      var p := w.vals[cmd.v].ptr;
      var w1 := Upcalls(m.w, b1, cmd.getter);
      var (w2, fn) := NativeUse(m.w, b1, p, cmd.getter, cmd.found);
      && Later(w1, w2) && Touch(m.w, p) == m.w
      && (!w1.rogue ==>
            && Inv(w1, b1) && Keeps(m.w, w1, b1, {}, {}) && Open(w1, c)
            && (cmd.found.NoValue? ==> (w2, fn) == (w1, 0))
            && (cmd.found.Yields? ==>
                  && (w2, fn) == Wrap(w1, w1.ctxs[c].ptr, cmd.found.js, cmd.found.hint)
                  && fn != 0 && Inv(w2, b1) && PinsSound(w2, b1) && Keeps(m.w, w2, b1, {}, {})
                  && Held(w2, b1, c, fn, 0) && Held(w2, b1, c, p, Owner(w, cmd.v))))
    decreases cmd.getter, 2
  {
    var v := cmd.v;
    var b1 := Pin(w, b, v);
    var p := w.vals[v].ptr;
    PinnedArgs(w, m, b, c, v);
    var w1 := Upcalls(m.w, b1, cmd.getter);
    var (w2, fn) := NativeUse(m.w, b1, p, cmd.getter, cmd.found);
    assert Touch(m.w, p) == m.w;
    UseLater(m.w, b1, p, cmd.getter, cmd.found);
    hide *;
    NativeUseSafe(m.w, b1, p, cmd.getter, cmd.found, c, Owner(w, v));
    if !w1.rogue {
      SafeParts(m.w, w1, b1);
      if cmd.found.Yields? {
        PinsStay(m.w, w1, b1);
        MethodHeld(w1, b1, c, p, Owner(w, v), cmd.found.js, cmd.found.hint);
        KeepsThen(m.w, w1, w2, b1);
      }
    }
  }

  lemma LookupThen(w: World, b: Busy, c: CtxRef, p: Addr, fn: Addr, m: Materialized, cmd: Cmd)
    requires cmd.CallMethod?
    ensures Later(w, if fn == 0 then ReleaseAll(w, m.temps) else MethodCall(w, b, c, p, fn, m, cmd.inner, cmd.out))
  {
  }

  // Object.CallMethod, once the arguments are there.
  lemma {:induction false} MethodCore(w: World, m: Materialized, b: Busy, c: CtxRef, cmd: Cmd)
    requires cmd.CallMethod?
    requires Inv(w, b) && PinsSound(w, b) && Nameable(w, cmd.v) && Valid(w, cmd.v) && c == w.vals[cmd.v].ctx
    requires Inv(m.w, b) && Keeps(w, m.w, b, {}, {}) && ArgsMade(w, m, c)
    ensures var b1 := Pin(w, b, cmd.v);
      var p := w.vals[cmd.v].ptr;
      var (w2, fn) := NativeUse(m.w, b1, p, cmd.getter, cmd.found);
      Safe(w, if fn == 0 then ReleaseAll(w2, m.temps) else MethodCall(w2, b1, c, p, fn, m, cmd.inner, cmd.out), b)
    decreases cmd, 0
  {
    hide Inv, Keeps, ArgsMade, PinsSound, NativeUse, Upcalls, ReleaseAll, MethodCall, Safe, Held;
    var v := cmd.v;
    var b1 := Pin(w, b, v);
    var p := w.vals[v].ptr;
    var (w2, fn) := NativeUse(m.w, b1, p, cmd.getter, cmd.found);
    var w1 := Upcalls(m.w, b1, cmd.getter);
    var w' := if fn == 0 then ReleaseAll(w2, m.temps) else MethodCall(w2, b1, c, p, fn, m, cmd.inner, cmd.out);
    BrokenIsSafe(w, w', b);
    LookupThen(w2, b1, c, p, fn, m, cmd);
    PinnedArgs(w, m, b, c, v);
    LookupSafe(w, m, b, c, cmd);
    if !w1.rogue {
      if cmd.found.NoValue? {
        Unpin(m.w, w1, b, b1);
        AbandonUse(w, m, w1, b, c);
      } else {
        MethodCallSafe(w, m, w2, b, b1, c, p, fn, cmd.inner, cmd.out, Owner(w, v));
      }
    }
  }

  lemma ReleaseValueSafe(w: World, b: Busy, v: Ref)
    requires Inv(w, b) && Nameable(w, v) && v !in b.refs
    ensures Safe(w, Release(w, v), b)
  {
    assert v !in w.orphans && !Guarded(w, b, v);
    hide Inv, Keeps, Guarded;
    ReleaseKeepsInv(w, b, v);
    ReleaseKeeps(w, b, v);
    Unguarded(w, Release(w, v), b, v);
  }

  lemma CloseCtxSafe(w: World, b: Busy, c: CtxRef)
    requires Inv(w, b) && PinsSound(w, b) && c !in b.ctxs
    ensures Safe(w, Close(w, c), b)
  {
    KeepsRefl(w, b);
    if Open(w, c) {
      hide Inv, Keeps;
      CloseKeepsInv(w, b, c);
      CloseKeeps(w, b, c);
    }
  }

  lemma NewContextSafe(w: World, b: Busy, hint: Addr)
    requires Inv(w, b)
    ensures Safe(w, NewContext(w, hint), b)
  {
    hide Inv, Keeps;
    NewContextKeepsInv(w, b, hint);
    NewContextKeeps(w, b, hint);
  }

  lemma SafeRefl(w: World, b: Busy)
    requires Inv(w, b)
    ensures Safe(w, w, b)
  {
    KeepsRefl(w, b);
  }

  lemma BrokenIsSafe(w: World, w': World, b: Busy)
    ensures w'.rogue ==> Safe(w, w', b)
  {
  }

  lemma {:induction false} StepSafe(w: World, b: Busy, cmd: Cmd)
    requires Inv(w, b) && PinsSound(w, b)
    ensures Safe(w, Step(w, b, cmd), b)
    decreases cmd, 2
  {
    hide Inv, Keeps, Safe, PinsSound, StepUse, StepMethod, StepCreate, NewFunction, NewGlobalValue, Release, Close, NewContext;
    SafeRefl(w, b);
    BrokenIsSafe(w, Step(w, b, cmd), b);
    match cmd
    case NewCtx(hint) => NewContextSafe(w, b, hint);
    case NewFn(c, out) => NewFnSafe(w, b, c, out);
    case Create(_, _, _, _) => CreateSafe(w, b, cmd);
    case Use(_, _, _, _) => UseSafe(w, b, cmd);
    case CallMethod(_, _, _, _, _, _) => MethodSafe(w, b, cmd);
    case Retain(v, hint) => RetainGlobalSafe(w, b, v, hint);
    case ReleaseValue(v) => if Nameable(w, v) && v !in b.refs { ReleaseValueSafe(w, b, v); }
    case CloseCtx(c) => if c !in b.ctxs { CloseCtxSafe(w, b, c); }
  }
}
