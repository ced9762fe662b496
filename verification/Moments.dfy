/**
 Every state that a program passes through, at any depth: between two API calls of
 a host function's body, between two host calls of a script, and where an API call
 or a host call is about to be made.
 */
module Moments {
  import opened Handles
  import opened HandleInvariants
  import opened Framing
  import opened Programs
  import opened HandleLists
  import opened HostCalls
  import opened HostReturns
  import opened ProgramSafety

  // `b` is what the native frames further up the stack still use.
  datatype Moment =
    | At(w: World, b: Busy)
    | Doing(w: World, b: Busy, cmd: Cmd)
    | Calling(w: World, b: Busy, u: Upcall)

  // the world once the moment is over
  ghost function After(x: Moment): World {
    match x
    case At(w, _) => w
    case Doing(w, b, cmd) => Step(w, b, cmd)
    case Calling(w, b, u) => HostCall(w, b, u)
  }

  // x lies between w and w', with all that is on record.
  ghost predicate Between(w: World, x: Moment, w': World) {
    Later(w, x.w) && Later(After(x), w')
  }

  /* ---- what a program passes through ---- */

  ghost predicate ExecPasses(w: World, b: Busy, cmds: seq<Cmd>, x: Moment)
    decreases cmds, 0
  {
    || x == At(w, b)
    || (cmds != [] && (StepPasses(w, b, cmds[0], x) || ExecPasses(Step(w, b, cmds[0]), b, cmds[1..], x)))
  }

  ghost predicate UpcallsPass(w: World, b: Busy, ups: seq<Upcall>, x: Moment)
    decreases ups, 0
  {
    || x == At(w, b)
    || (ups != [] && (HostCallPasses(w, b, ups[0], x) || UpcallsPass(HostCall(w, b, ups[0]), b, ups[1..], x)))
  }

  ghost predicate StepPasses(w: World, b: Busy, cmd: Cmd, x: Moment)
    decreases cmd, 1
  {
    || x == Doing(w, b, cmd)
    || match cmd
       case Create(c, inner, _, _) => Open(w, c) && UpcallsPass(w, Inside(b, c), inner, x)
       case Use(v, _, inner, _) =>
         && Nameable(w, v) && Valid(w, v) && Args(w, cmd).ok
         && UpcallsPass(UseStart(w, cmd), Pin(w, b, v), inner, x)
       case CallMethod(v, _, getter, _, inner, _) =>
         && Nameable(w, v) && Valid(w, v) && Args(w, cmd).ok
         && (|| UpcallsPass(Touch(Args(w, cmd).w, w.vals[v].ptr), Pin(w, b, v), getter, x)
             || (Lookup(w, b, cmd).1 != 0 && UpcallsPass(CallStart(w, b, cmd), Pin(w, b, v), inner, x)))
       case _ => false
  }

  ghost predicate HostCallPasses(w: World, b: Busy, u: Upcall, x: Moment)
    decreases u
  {
    || x == Calling(w, b, u)
    || (Open(w, u.c) && u.id in w.fns && ExecPasses(BeforeBody(Entered(w, u), u).0, Inside(b, u.c), u.body, x))
  }

  /* ---- where JavaScript starts, and where a host function ends ---- */

  ghost function AfterBody(w: World, b: Busy, u: Upcall): (w': World)
    requires u.c in w.ctxs
    ensures Later(w, w')
  {
    Exec(BeforeBody(w, u).0, Inside(b, u.c), u.body)
  }

  // Function.Call and the like: the arguments and the receiver have been read.
  ghost function UseStart(w: World, cmd: Cmd): (w': World)
    requires cmd.Use? && Valid(w, cmd.v)
    ensures Tidy(w, w')
  {
    Touch(ArgsRead(Args(w, cmd).w, Args(w, cmd).argv), w.vals[cmd.v].ptr)
  }

  // GV8ObjectGet of CallMethod: the handle of the method, or 0
  ghost function Lookup(w: World, b: Busy, cmd: Cmd): (r: (World, Addr))
    requires cmd.CallMethod? && Valid(w, cmd.v)
    ensures Later(w, r.0)
  {
    NativeUse(Args(w, cmd).w, Pin(w, b, cmd.v), w.vals[cmd.v].ptr, cmd.getter, cmd.found)
  }

  // GV8ValueCall of CallMethod: arguments, receiver and method have been read.
  ghost function CallStart(w: World, b: Busy, cmd: Cmd): (w': World)
    requires cmd.CallMethod? && Valid(w, cmd.v)
    ensures Tidy(Lookup(w, b, cmd).0, w') && Later(w, w')
  {
    var (w1, fn) := Lookup(w, b, cmd);
    Touch(Touch(ArgsRead(w1, Args(w, cmd).argv), w.vals[cmd.v].ptr), fn)
  }

  lemma CreateLater(w: World, b: Busy, cmd: Cmd)
    requires cmd.Create? && Open(w, cmd.c)
    ensures Tidy(Upcalls(w, Inside(b, cmd.c), cmd.inner), Step(w, b, cmd))
  {
    hide Wrap, NewValue, NewHidden;
  }

  lemma UseStepLater(w: World, b: Busy, cmd: Cmd)
    requires cmd.Use? && Nameable(w, cmd.v) && Valid(w, cmd.v) && Args(w, cmd).ok
    ensures Tidy(Upcalls(UseStart(w, cmd), Pin(w, b, cmd.v), cmd.inner), Step(w, b, cmd))
  {
    var w1 := ArgsRead(Args(w, cmd).w, Args(w, cmd).argv);
    UseLater(w1, Pin(w, b, cmd.v), w.vals[cmd.v].ptr, cmd.inner, cmd.out);
    hide NativeUse, Touch, ArgsRead, FinishCall, ReleaseAll, Materialize, Pin;
  }

  lemma LookupLater(w: World, b: Busy, cmd: Cmd)
    requires cmd.CallMethod? && Nameable(w, cmd.v) && Valid(w, cmd.v) && Args(w, cmd).ok
    ensures Tidy(Upcalls(Touch(Args(w, cmd).w, w.vals[cmd.v].ptr), Pin(w, b, cmd.v), cmd.getter), Lookup(w, b, cmd).0)
    ensures Later(Lookup(w, b, cmd).0, Step(w, b, cmd))
    ensures Lookup(w, b, cmd).1 == 0 ==> Tidy(Lookup(w, b, cmd).0, Step(w, b, cmd))
  {
    UseLater(Args(w, cmd).w, Pin(w, b, cmd.v), w.vals[cmd.v].ptr, cmd.getter, cmd.found);
    hide NativeUse, MethodCall, ReleaseAll, Materialize, Pin;
  }

  lemma MethodLater(w: World, b: Busy, cmd: Cmd)
    requires cmd.CallMethod? && Nameable(w, cmd.v) && Valid(w, cmd.v) && Args(w, cmd).ok && Lookup(w, b, cmd).1 != 0
    ensures Tidy(Upcalls(CallStart(w, b, cmd), Pin(w, b, cmd.v), cmd.inner), Step(w, b, cmd))
  {
    var (w1, fn) := Lookup(w, b, cmd);
    var w2 := Touch(ArgsRead(w1, Args(w, cmd).argv), w.vals[cmd.v].ptr);
    var (w3, q) := NativeUse(w2, Pin(w, b, cmd.v), fn, cmd.inner, cmd.out);
    UseLater(w2, Pin(w, b, cmd.v), fn, cmd.inner, cmd.out);
    hide NativeUse, Touch, ArgsRead, FinishCall, ReleaseAll, Materialize, Pin;
    assert StepMethod(w, b, cmd) ==
      MethodCall(w1, Pin(w, b, cmd.v), w.vals[cmd.v].ctx, w.vals[cmd.v].ptr, fn, Args(w, cmd), cmd.inner, cmd.out);
  }

  /* ---- what is on record ---- */

  lemma {:induction false} ExecBetween(w: World, b: Busy, cmds: seq<Cmd>, x: Moment)
    requires ExecPasses(w, b, cmds, x)
    ensures Between(w, x, Exec(w, b, cmds))
    decreases cmds, 0
  {
    if x != At(w, b) {
      var w1 := Step(w, b, cmds[0]);
      if StepPasses(w, b, cmds[0], x) {
        StepBetween(w, b, cmds[0], x);
      } else {
        ExecBetween(w1, b, cmds[1..], x);
      }
    }
  }

  lemma {:induction false} UpcallsBetween(w: World, b: Busy, ups: seq<Upcall>, x: Moment)
    requires UpcallsPass(w, b, ups, x)
    ensures Between(w, x, Upcalls(w, b, ups))
    decreases ups, 0
  {
    if x != At(w, b) {
      var w1 := HostCall(w, b, ups[0]);
      if HostCallPasses(w, b, ups[0], x) {
        HostCallBetween(w, b, ups[0], x);
      } else {
        UpcallsBetween(w1, b, ups[1..], x);
      }
    }
  }

  lemma {:induction false} StepBetween(w: World, b: Busy, cmd: Cmd, x: Moment)
    requires StepPasses(w, b, cmd, x)
    ensures Between(w, x, Step(w, b, cmd))
    decreases cmd, 1
  {
    if x == Doing(w, b, cmd) { return; }
    match cmd
    case Create(c, inner, _, _) =>
      UpcallsBetween(w, Inside(b, c), inner, x);
      CreateLater(w, b, cmd);
    case Use(v, _, inner, _) =>
      UpcallsBetween(UseStart(w, cmd), Pin(w, b, v), inner, x);
      UseStepLater(w, b, cmd);
    case CallMethod(v, _, getter, _, inner, _) =>
      LookupLater(w, b, cmd);
      if UpcallsPass(Touch(Args(w, cmd).w, w.vals[v].ptr), Pin(w, b, v), getter, x) {
        UpcallsBetween(Touch(Args(w, cmd).w, w.vals[v].ptr), Pin(w, b, v), getter, x);
      } else {
        MethodLater(w, b, cmd);
        UpcallsBetween(CallStart(w, b, cmd), Pin(w, b, v), inner, x);
      }
    case _ =>
  }

  lemma {:induction false} HostCallBetween(w: World, b: Busy, u: Upcall, x: Moment)
    requires HostCallPasses(w, b, u, x)
    ensures Between(w, x, HostCall(w, b, u))
    decreases u
  {
    if x != Calling(w, b, u) {
      ExecBetween(BeforeBody(Entered(w, u), u).0, Inside(b, u.c), u.body, x);
    }
  }

  /* ---- safety at every moment ---- */

  ghost predicate MomentSafe(x: Moment) {
    Inv(x.w, x.b) && PinsSound(x.w, x.b)
  }

  // The body of a host function starts in a state that satisfies the invariant.
  lemma BodyStarts(w: World, b: Busy, u: Upcall)
    requires Inv(w, b) && PinsSound(w, b) && Open(w, u.c)
    ensures Inv(BeforeBody(w, u).0, Inside(b, u.c)) && PinsSound(BeforeBody(w, u).0, Inside(b, u.c))
  {
    var b1 := Inside(b, u.c);
    var (w1, ps) := WrapAll(w, w.ctxs[u.c].ptr, u.cells);
    var w2 := BeforeBody(w, u).0;
    InvWeaken(w, b, b1);
    hide Inv, Keeps, FrameOk, Views, Grown, Loose, Unseen, ViewAll, WrapAll;
    FrameMade(w, b1, u);
    ViewsMade(w1, b1, u.c, ps);
    forall r {:trigger r in b1.refs} | r in b1.refs ensures r in w2.vals && w2.vals[r].ctx in b1.ctxs {
      assert r in w1.vals;
    }
  }

  lemma UseStarts(w: World, b: Busy, cmd: Cmd)
    requires Inv(w, b) && PinsSound(w, b) && cmd.Use? && Nameable(w, cmd.v) && Valid(w, cmd.v)
    ensures UseStart(w, cmd).rogue || MomentSafe(At(UseStart(w, cmd), Pin(w, b, cmd.v)))
  {
    var c := w.vals[cmd.v].ctx;
    var m := Args(w, cmd);
    assert UseStart(w, cmd) == Touch(ArgsRead(m.w, m.argv), w.vals[cmd.v].ptr);
    hide Inv, Keeps, PinsSound, ArgsMade, Materialize, Held, Usable, ReadArgs;
    MaterializeSafe(w, b, c, cmd.args);
    PinnedArgs(w, m, b, c, cmd.v);
    if Usable(m.w, m.argv) { ReadArgsOk(m.w, b, m.argv); }
  }

  lemma LookupStarts(w: World, b: Busy, cmd: Cmd)
    requires Inv(w, b) && PinsSound(w, b) && cmd.CallMethod? && Nameable(w, cmd.v) && Valid(w, cmd.v)
    ensures MomentSafe(At(Touch(Args(w, cmd).w, w.vals[cmd.v].ptr), Pin(w, b, cmd.v)))
  {
    var c := w.vals[cmd.v].ctx;
    var m := Args(w, cmd);
    hide Inv, Keeps, PinsSound, ArgsMade, Materialize, Held;
    MaterializeSafe(w, b, c, cmd.args);
    PinnedArgs(w, m, b, c, cmd.v);
  }

  lemma CallStarts(w: World, b: Busy, cmd: Cmd)
    requires Inv(w, b) && PinsSound(w, b) && cmd.CallMethod? && Nameable(w, cmd.v) && Valid(w, cmd.v)
    requires Lookup(w, b, cmd).1 != 0
    ensures CallStart(w, b, cmd).rogue || MomentSafe(At(CallStart(w, b, cmd), Pin(w, b, cmd.v)))
  {
    var c, p := w.vals[cmd.v].ctx, w.vals[cmd.v].ptr;
    var m := Args(w, cmd);
    var b1 := Pin(w, b, cmd.v);
    var (w1, fn) := Lookup(w, b, cmd);
    assert CallStart(w, b, cmd) == Touch(Touch(ArgsRead(w1, m.argv), p), fn);
    hide Inv, Keeps, PinsSound, ArgsMade, Materialize, Usable, ReadArgs, NativeUse, Upcalls, Wrap;
    MaterializeSafe(w, b, c, cmd.args);
    LookupSafe(w, m, b, c, cmd);
    if !w1.rogue && Usable(w1, m.argv) { ReadArgsOk(w1, b1, m.argv); }
  }

  lemma {:induction false} ExecMoments(w: World, b: Busy, cmds: seq<Cmd>, x: Moment)
    requires Inv(w, b) && PinsSound(w, b) && ExecPasses(w, b, cmds, x) && !x.w.rogue
    ensures MomentSafe(x)
    decreases cmds, 0
  {
    hide Inv, PinsSound, Safe, Keeps;
    if x == At(w, b) {
      Itself(w, b, x);
    } else if StepPasses(w, b, cmds[0], x) {
      StepMoments(w, b, cmds[0], x);
    } else {
      var w1 := Step(w, b, cmds[0]);
      ExecBetween(w1, b, cmds[1..], x);
      StepSafe(w, b, cmds[0]);
      SafeParts(w, w1, b);
      PinsStay(w, w1, b);
      ExecMoments(w1, b, cmds[1..], x);
    }
  }

  lemma Itself(w: World, b: Busy, x: Moment)
    requires Inv(w, b) && PinsSound(w, b) && x.w == w && x.b == b
    ensures MomentSafe(x)
  {
  }

  lemma {:induction false} UpcallsMoments(w: World, b: Busy, ups: seq<Upcall>, x: Moment)
    requires MomentSafe(At(w, b)) && UpcallsPass(w, b, ups, x) && !x.w.rogue
    ensures MomentSafe(x)
    decreases ups, 0
  {
    SafeStart(w, b);
    hide Inv, PinsSound, Safe, Keeps;
    if x == At(w, b) {
      Itself(w, b, x);
    } else if HostCallPasses(w, b, ups[0], x) {
      HostCallMoments(w, b, ups[0], x);
    } else {
      var w1 := HostCall(w, b, ups[0]);
      UpcallsBetween(w1, b, ups[1..], x);
      HostCallSafe(w, b, ups[0]);
      SafeParts(w, w1, b);
      PinsStay(w, w1, b);
      Itself(w1, b, At(w1, b));
      UpcallsMoments(w1, b, ups[1..], x);
    }
  }

  lemma SafeStart(w: World, b: Busy)
    requires MomentSafe(At(w, b))
    ensures Inv(w, b) && PinsSound(w, b)
  {
  }

  lemma {:induction false} StepMoments(w: World, b: Busy, cmd: Cmd, x: Moment)
    requires Inv(w, b) && PinsSound(w, b) && StepPasses(w, b, cmd, x) && !x.w.rogue
    ensures MomentSafe(x)
    decreases cmd, 1
  {
    hide Inv, PinsSound, MomentSafe, UseStart, CallStart, Lookup, Touch, Materialize;
    if x == Doing(w, b, cmd) {
      Itself(w, b, x);
      return;
    }
    match cmd
    case Create(c, inner, _, _) =>
      CreateStarts(w, b, c);
      UpcallsMoments(w, Inside(b, c), inner, x);
    case Use(v, _, inner, _) =>
      UseStarts(w, b, cmd);
      UpcallsBetween(UseStart(w, cmd), Pin(w, b, v), inner, x);
      UpcallsMoments(UseStart(w, cmd), Pin(w, b, v), inner, x);
    case CallMethod(v, _, getter, _, inner, _) =>
      if UpcallsPass(Touch(Args(w, cmd).w, w.vals[v].ptr), Pin(w, b, v), getter, x) {
        LookupStarts(w, b, cmd);
        UpcallsMoments(Touch(Args(w, cmd).w, w.vals[v].ptr), Pin(w, b, v), getter, x);
      } else {
        CallStarts(w, b, cmd);
        UpcallsBetween(CallStart(w, b, cmd), Pin(w, b, v), inner, x);
        UpcallsMoments(CallStart(w, b, cmd), Pin(w, b, v), inner, x);
      }
    case _ =>
  }

  lemma CreateStarts(w: World, b: Busy, c: CtxRef)
    requires Inv(w, b) && PinsSound(w, b) && Open(w, c)
    ensures MomentSafe(At(w, Inside(b, c)))
  {
    InvWeaken(w, b, Inside(b, c));
  }

  lemma {:induction false} HostCallMoments(w: World, b: Busy, u: Upcall, x: Moment)
    requires Inv(w, b) && PinsSound(w, b) && HostCallPasses(w, b, u, x) && !x.w.rogue
    ensures MomentSafe(x)
    decreases u
  {
    hide Inv, PinsSound, BeforeBody;
    if x == Calling(w, b, u) {
      Itself(w, b, x);
    } else {
      EnteredOpen(w, b, u);
      BodyStarts(w, b, u);
      ExecMoments(BeforeBody(w, u).0, Inside(b, u.c), u.body, x);
    }
  }
}
