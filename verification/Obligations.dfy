/**
 What the library asks of its callers without checking it, and that `rogue` records
 exactly the failures to do so.
 */
module Obligations {
  import opened Handles
  import opened HandleInvariants
  import opened Framing
  import opened Programs
  import opened HandleLists
  import opened ProgramSafety
  import opened Moments
  import opened Runs

  // A wrapper on which a native call is in progress must not be released or returned.
  ghost predicate Free(w: World, b: Busy, v: Ref) {
    Nameable(w, v) ==> v !in b.refs
  }

  ghost predicate CommandObeys(w: World, b: Busy, cmd: Cmd) {
    match cmd
    case ReleaseValue(v) => Free(w, b, v)
    case CloseCtx(c) => c !in b.ctxs
    case Use(v, _, _, _) =>
      Nameable(w, v) && Valid(w, v) && Args(w, cmd).ok ==> Usable(Args(w, cmd).w, Args(w, cmd).argv)
    case CallMethod(v, _, _, _, _, _) =>
      Nameable(w, v) && Valid(w, v) && Args(w, cmd).ok && Lookup(w, b, cmd).1 != 0 ==>
        Usable(Lookup(w, b, cmd).0, Args(w, cmd).argv)
    case _ => true
  }

  // A host function is called while its context is open, and returns no wrapper that is in use.
  ghost predicate CallObeys(w: World, b: Busy, u: Upcall) {
    u.c in w.ctxs ==>
      && Open(w, u.c)
      && (u.id in w.fns && u.ret.RetValue? ==> Free(AfterBody(Entered(w, u), b, u), b, u.ret.v))
  }

  // What is done at x keeps every obligation.
  ghost predicate Obeys(x: Moment) {
    match x
    case At(_, _) => true
    case Doing(w, b, cmd) => CommandObeys(w, b, cmd)
    case Calling(w, b, u) => CallObeys(w, b, u)
  }

  /* ---- obeying keeps the record clean ---- */

  lemma CreateRecord(w: World, b: Busy, cmd: Cmd)
    requires cmd.Create? && Open(w, cmd.c)
    ensures Step(w, b, cmd).rogue == Upcalls(w, Inside(b, cmd.c), cmd.inner).rogue
  {
    hide Wrap, NewValue, NewHidden;
  }

  lemma CalledRecord(w: World, b: Busy, p: Addr, inner: seq<Upcall>, out: Outcome)
    ensures NativeUse(w, b, p, inner, out).0.rogue == Upcalls(Touch(w, p), b, inner).rogue
  {
    hide Touch, Wrap;
  }

  lemma UseRecord(w: World, b: Busy, cmd: Cmd)
    requires cmd.Use? && Nameable(w, cmd.v) && Valid(w, cmd.v)
    ensures Args(w, cmd).ok ==> Step(w, b, cmd).rogue == Upcalls(UseStart(w, cmd), Pin(w, b, cmd.v), cmd.inner).rogue
    ensures Args(w, cmd).ok ==> UseStart(w, cmd).rogue == (w.rogue || !Usable(Args(w, cmd).w, Args(w, cmd).argv))
    ensures !Args(w, cmd).ok ==> Step(w, b, cmd).rogue == w.rogue
  {
    hide NativeUse, ReadArgs, FinishCall, ReleaseAll, Materialize, Pin, Usable;
    var m := Args(w, cmd);
    CalledRecord(ArgsRead(m.w, m.argv), Pin(w, b, cmd.v), w.vals[cmd.v].ptr, cmd.inner, cmd.out);
    assert Step(w, b, cmd) == StepUse(w, b, cmd);
  }

  lemma LookupRecord(w: World, b: Busy, cmd: Cmd)
    requires cmd.CallMethod? && Nameable(w, cmd.v) && Valid(w, cmd.v)
    ensures Lookup(w, b, cmd).0.rogue == Upcalls(Touch(Args(w, cmd).w, w.vals[cmd.v].ptr), Pin(w, b, cmd.v), cmd.getter).rogue
    ensures Args(w, cmd).w.rogue == w.rogue && Touch(Args(w, cmd).w, w.vals[cmd.v].ptr).rogue == w.rogue
  {
    hide Materialize, Pin, Wrap;
  }

  lemma MethodRecord(w: World, b: Busy, cmd: Cmd)
    requires cmd.CallMethod? && Nameable(w, cmd.v) && Valid(w, cmd.v)
    ensures var (w1, fn) := Lookup(w, b, cmd);
      && (!Args(w, cmd).ok ==> Step(w, b, cmd).rogue == w.rogue)
      && (Args(w, cmd).ok && fn == 0 ==> Step(w, b, cmd).rogue == w1.rogue)
      && (Args(w, cmd).ok && fn != 0 ==> Step(w, b, cmd).rogue == Upcalls(CallStart(w, b, cmd), Pin(w, b, cmd.v), cmd.inner).rogue)
      && CallStart(w, b, cmd).rogue == (w1.rogue || !Usable(w1, Args(w, cmd).argv))
  {
    var (w1, fn) := Lookup(w, b, cmd);
    var w2 := Touch(ArgsRead(w1, Args(w, cmd).argv), w.vals[cmd.v].ptr);
    hide NativeUse, Lookup, ReadArgs, FinishCall, ReleaseAll, Materialize, Pin, Usable, Wrap;
    MethodUnfolds(w, b, cmd);
    CalledRecord(w2, Pin(w, b, cmd.v), fn, cmd.inner, cmd.out);
  }

  lemma MethodUnfolds(w: World, b: Busy, cmd: Cmd)
    requires cmd.CallMethod? && Nameable(w, cmd.v) && Valid(w, cmd.v)
    ensures var (w1, fn) := Lookup(w, b, cmd);
      Step(w, b, cmd) ==
        if !Args(w, cmd).ok then ReleaseAll(Args(w, cmd).w, Args(w, cmd).temps)
        else if fn == 0 then ReleaseAll(w1, Args(w, cmd).temps)
        else MethodCall(w1, Pin(w, b, cmd.v), w.vals[cmd.v].ctx, w.vals[cmd.v].ptr, fn, Args(w, cmd), cmd.inner, cmd.out)
  {
    hide NativeUse, MethodCall, ReleaseAll, Materialize, Pin;
    assert Step(w, b, cmd) == StepMethod(w, b, cmd);
  }

  lemma {:induction false} ExecObeys(w: World, b: Busy, cmds: seq<Cmd>)
    requires !w.rogue && forall x {:trigger ExecPasses(w, b, cmds, x)} :: ExecPasses(w, b, cmds, x) ==> Obeys(x)
    ensures !Exec(w, b, cmds).rogue
    decreases cmds, 0
  {
    hide Obeys;
    if cmds != [] {
      var w1 := Step(w, b, cmds[0]);
      forall x {:trigger StepPasses(w, b, cmds[0], x)} | StepPasses(w, b, cmds[0], x) ensures Obeys(x) {
        assert ExecPasses(w, b, cmds, x);
      }
      forall x {:trigger ExecPasses(w1, b, cmds[1..], x)} | ExecPasses(w1, b, cmds[1..], x) ensures Obeys(x) {
        assert ExecPasses(w, b, cmds, x);
      }
      StepObeys(w, b, cmds[0]);
      ExecObeys(w1, b, cmds[1..]);
    }
  }

  lemma {:induction false} UpcallsObey(w: World, b: Busy, ups: seq<Upcall>)
    requires !w.rogue && forall x {:trigger UpcallsPass(w, b, ups, x)} :: UpcallsPass(w, b, ups, x) ==> Obeys(x)
    ensures !Upcalls(w, b, ups).rogue
    decreases ups, 0
  {
    hide Obeys;
    if ups != [] {
      var w1 := HostCall(w, b, ups[0]);
      forall x {:trigger HostCallPasses(w, b, ups[0], x)} | HostCallPasses(w, b, ups[0], x) ensures Obeys(x) {
        assert UpcallsPass(w, b, ups, x);
      }
      forall x {:trigger UpcallsPass(w1, b, ups[1..], x)} | UpcallsPass(w1, b, ups[1..], x) ensures Obeys(x) {
        assert UpcallsPass(w, b, ups, x);
      }
      HostCallObeys(w, b, ups[0]);
      UpcallsObey(w1, b, ups[1..]);
    }
  }

  lemma {:induction false} StepObeys(w: World, b: Busy, cmd: Cmd)
    requires !w.rogue && forall x {:trigger StepPasses(w, b, cmd, x)} :: StepPasses(w, b, cmd, x) ==> Obeys(x)
    ensures !Step(w, b, cmd).rogue
    decreases cmd, 1
  {
    assert StepPasses(w, b, cmd, Doing(w, b, cmd)) && Obeys(Doing(w, b, cmd));
    hide Obeys, Release, Close, NewContext, NewFunction, NewGlobalValue, StepCreate, StepUse, StepMethod, Lookup, UseStart, CallStart;
    match cmd
    case Create(c, inner, _, _) =>
      if Open(w, c) {
        forall x {:trigger UpcallsPass(w, Inside(b, c), inner, x)} | UpcallsPass(w, Inside(b, c), inner, x) ensures Obeys(x) {
          assert StepPasses(w, b, cmd, x);
        }
        UpcallsObey(w, Inside(b, c), inner);
        CreateRecord(w, b, cmd);
      }
    case Use(v, _, inner, _) =>
      if Nameable(w, v) && Valid(w, v) {
        UseRecord(w, b, cmd);
        if Args(w, cmd).ok {
          var w0 := UseStart(w, cmd);
          forall x {:trigger UpcallsPass(w0, Pin(w, b, v), inner, x)} | UpcallsPass(w0, Pin(w, b, v), inner, x) ensures Obeys(x) {
            assert StepPasses(w, b, cmd, x);
          }
          UpcallsObey(w0, Pin(w, b, v), inner);
        }
      }
    case CallMethod(v, _, _, _, _, _) =>
      if Nameable(w, v) && Valid(w, v) { MethodObeys(w, b, cmd); }
    case _ =>
  }

  lemma {:induction false} MethodObeys(w: World, b: Busy, cmd: Cmd)
    requires !w.rogue && cmd.CallMethod? && Nameable(w, cmd.v) && Valid(w, cmd.v) && CommandObeys(w, b, cmd)
    requires forall x {:trigger StepPasses(w, b, cmd, x)} :: StepPasses(w, b, cmd, x) ==> Obeys(x)
    ensures !Step(w, b, cmd).rogue
    decreases cmd, 0
  {
    hide Obeys, StepMethod, Lookup, CallStart;
    MethodRecord(w, b, cmd);
    LookupRecord(w, b, cmd);
    if Args(w, cmd).ok {
      var b1 := Pin(w, b, cmd.v);
      var w0 := Touch(Args(w, cmd).w, w.vals[cmd.v].ptr);
      forall x {:trigger UpcallsPass(w0, b1, cmd.getter, x)} | UpcallsPass(w0, b1, cmd.getter, x) ensures Obeys(x) {
        assert StepPasses(w, b, cmd, x);
      }
      UpcallsObey(w0, b1, cmd.getter);
      if Lookup(w, b, cmd).1 != 0 {
        var w2 := CallStart(w, b, cmd);
        forall x {:trigger UpcallsPass(w2, b1, cmd.inner, x)} | UpcallsPass(w2, b1, cmd.inner, x) ensures Obeys(x) {
          assert StepPasses(w, b, cmd, x);
        }
        UpcallsObey(w2, b1, cmd.inner);
      }
    }
  }

  lemma {:induction false} HostCallObeys(w: World, b: Busy, u: Upcall)
    requires !w.rogue && forall x {:trigger HostCallPasses(w, b, u, x)} :: HostCallPasses(w, b, u, x) ==> Obeys(x)
    ensures !HostCall(w, b, u).rogue
    decreases u
  {
    assert HostCallPasses(w, b, u, Calling(w, b, u)) && Obeys(Calling(w, b, u));
    hide Obeys, HostMissing, HostReturn, BeforeBody;
    if Open(w, u.c) {
      var w0 := Entered(w, u);
      if u.id in w.fns {
        var w1 := BeforeBody(w0, u).0;
        forall x {:trigger ExecPasses(w1, Inside(b, u.c), u.body, x)} | ExecPasses(w1, Inside(b, u.c), u.body, x) ensures Obeys(x) {
          assert HostCallPasses(w, b, u, x);
        }
        ExecObeys(w1, Inside(b, u.c), u.body);
        ReturnRecord(AfterBody(w0, b, u), b, u.c, FrameHandles(w0, u), BeforeBody(w0, u).1, u.ret);
      } else {
        MissingRecord(WrapAll(w0, w0.ctxs[u.c].ptr, u.cells).0, u.c, w0.ctxs[u.c].ptr, FrameHandles(w0, u), u.missing);
      }
    }
  }

  lemma MissingRecord(w: World, c: CtxRef, ca: Addr, ps: seq<Addr>, missing: Cell)
    ensures HostMissing(w, c, ca, ps, missing).rogue == w.rogue
  {
    hide Wrap, NewHidden, NativeReleaseAll, NativeRelease;
  }

  lemma ReturnRecord(w: World, b: Busy, c: CtxRef, ps: seq<Addr>, vs: seq<Ref>, ret: Ret)
    ensures HostReturn(w, b, c, ps, vs, ret).rogue == (w.rogue || (ret.RetValue? && !Free(w, b, ret.v)))
  {
    hide Wrap, NewValue, Handoff, InvalidateAll, HostEnd;
  }

  /* ---- and breaking one does not ---- */

  lemma BrokenIsRecorded(x: Moment)
    requires !Obeys(x)
    ensures After(x).rogue
  {
    match x
    case At(_, _) =>
    case Doing(w, b, cmd) => BrokenCommand(w, b, cmd);
    case Calling(w, b, u) => BrokenCall(w, b, u);
  }

  lemma BrokenCommand(w: World, b: Busy, cmd: Cmd)
    requires !CommandObeys(w, b, cmd)
    ensures Step(w, b, cmd).rogue
  {
    hide Release, Close, StepUse, StepMethod, Lookup, UseStart, CallStart, Usable;
    match cmd
    case Use(v, _, inner, _) =>
      UseRecord(w, b, cmd);
      assert Later(UseStart(w, cmd), Upcalls(UseStart(w, cmd), Pin(w, b, v), inner));
    case CallMethod(v, _, _, _, inner, _) =>
      MethodRecord(w, b, cmd);
      assert Later(CallStart(w, b, cmd), Upcalls(CallStart(w, b, cmd), Pin(w, b, v), inner));
    case _ =>
  }

  lemma BrokenCall(w: World, b: Busy, u: Upcall)
    requires !CallObeys(w, b, u)
    ensures HostCall(w, b, u).rogue
  {
    hide HostMissing, HostReturn, BeforeBody;
    if Open(w, u.c) {
      var w0 := Entered(w, u);
      ReturnRecord(AfterBody(w0, b, u), b, u.c, FrameHandles(w0, u), BeforeBody(w0, u).1, u.ret);
    }
  }

  // From any state, a program has a broken obligation on record if and only if there was one before, or one is
  // broken at some moment of it, at any depth.
  lemma BrokenExactly(w: World, b: Busy, cmds: seq<Cmd>)
    ensures Exec(w, b, cmds).rogue <==> w.rogue || exists x :: ExecPasses(w, b, cmds, x) && !Obeys(x)
  {
    hide Obeys, Exec, ExecPasses;
    if exists x :: ExecPasses(w, b, cmds, x) && !Obeys(x) {
      var x :| ExecPasses(w, b, cmds, x) && !Obeys(x);
      BrokenIsRecorded(x);
      ExecBetween(w, b, cmds, x);
    } else if !w.rogue {
      ExecObeys(w, b, cmds);
    } else {
      assert Later(w, Exec(w, b, cmds));
    }
  }

  // If every obligation is kept at every moment of a run, then whatever JavaScript, host functions and the
  // allocator do, the invariant holds at every moment, and nothing is ever at fault.
  lemma ObedientRunsAreSafe(prog: seq<Cmd>, x: Moment)
    requires forall y {:trigger Reached(prog, y)} :: Reached(prog, y) ==> Obeys(y)
    requires Reached(prog, x)
    ensures Inv(x.w, x.b) && PinsSound(x.w, x.b) && !x.w.fault && !x.w.rogue
  {
    hide Obeys, Exec, ExecPasses, Inv, PinsSound;
    forall y {:trigger ExecPasses(EMPTY, IDLE, prog, y)} | ExecPasses(EMPTY, IDLE, prog, y) ensures Obeys(y) {
      assert Reached(prog, y);
    }
    BrokenExactly(EMPTY, IDLE, prog);
    RunsAreSafe(prog, x);
    ExecBetween(EMPTY, IDLE, prog, x);
  }
}
