/**
 Which host calls can go wrong: a function of an open context is always found, and
 a function of a closed context always reads freed memory.
 */
module Callbacks {
  import opened Handles
  import opened HandleInvariants
  import opened Framing
  import opened Programs
  import opened HandleLists
  import opened HostCalls
  import opened ProgramSafety
  import opened Moments
  import opened Orphans
  import opened Runs
  import opened Obligations
  import opened Conservation
  import opened Arguments
  import opened Calls
  import opened Departures

  /* ---- functions of open contexts ---- */

  // At every moment, the id of a function that was ever made is registered for the function's context if and
  // only if that context is open.
  lemma FunctionsAreFound(prog: seq<Cmd>, x: Moment, f: HostFn)
    requires Reached(prog, x) && !x.w.rogue && f in x.w.functions
    ensures f.id in x.w.fns && x.w.fns[f.id] == f.ctx <==> Open(x.w, f.ctx)
  {
    RunsAreSafe(prog, x);
    RegisteredIffOpen(x.w, x.b, f);
  }

  lemma RegisteredIffOpen(w: World, b: Busy, f: HostFn)
    requires Inv(w, b) && f in w.functions
    ensures f.id in w.fns && w.fns[f.id] == f.ctx <==> Open(w, f.ctx)
  {
    assert MadeSound(f, w.ctxs[f.ctx], w.fns);
    assert ContextSound(w.ctxs[f.ctx], f.ctx, w.nctxs);
  }

  // A function that NewFunction has yielded is found for as long as its context is open, at every moment of
  // every program that runs afterwards.
  lemma YieldedFunctionIsFound(w: World, b: Busy, c: CtxRef, out: Outcome, cmds: seq<Cmd>, x: Moment)
    requires Inv(w, b) && PinsSound(w, b) && Open(w, c) && out.Yields?
    requires ExecPasses(NewFunction(w, c, out), b, cmds, x) && !x.w.rogue
    ensures w.fnSeq + 1 in x.w.fns && x.w.fns[w.fnSeq + 1] == c <==> Open(x.w, c)
  {
    hide *;
    var w1 := NewFunction(w, c, out);
    NewFunctionNet(w, b, c, out);
    NewFnSafe(w, b, c, out);
    ExecBetween(w1, b, cmds, x);
    OnRecord(w1, x, Exec(w1, b, cmds), HostFn(w.fnSeq + 1, c));
    SafeParts(w, w1, b);
    PinsStay(w, w1, b);
    ExecMoments(w1, b, cmds, x);
    MomentParts(x);
    RegisteredIffOpen(x.w, x.b, HostFn(w.fnSeq + 1, c));
  }

  lemma OnRecord(w: World, x: Moment, w': World, f: HostFn)
    requires Between(w, x, w') && !x.w.rogue && f in w.functions
    ensures f in x.w.functions && !w.rogue
  {
  }

  lemma MomentParts(x: Moment)
    requires MomentSafe(x)
    ensures Inv(x.w, x.b) && PinsSound(x.w, x.b)
  {
  }

  // A host call calls a function that has been made.
  ghost predicate Genuine(x: Moment) {
    x.Calling? ==> HostFn(x.u.id, x.u.c) in x.w.functions
  }

  // A run that calls no function but those it has made, and breaks no obligation, orphans nothing.
  lemma GenuineRunsOrphanNothing(prog: seq<Cmd>)
    requires !Run(prog).rogue && forall x {:trigger Reached(prog, x)} :: Reached(prog, x) ==> Genuine(x)
    ensures Run(prog).orphans == {}
  {
    hide Run, Reached, Genuine, Found;
    OrphansOfARun(prog);
    forall x {:trigger Reached(prog, x)} | Reached(prog, x) ensures Found(x) {
      GenuineIsFound(prog, x);
    }
  }

  lemma GenuineIsFound(prog: seq<Cmd>, x: Moment)
    requires !Run(prog).rogue && Reached(prog, x) && Genuine(x)
    ensures Found(x)
  {
    ExecBetween(EMPTY, IDLE, prog, x);
    assert !x.w.rogue;
    hide Exec, ExecPasses, HostCall;
    if x.Calling? { FunctionsAreFound(prog, x, HostFn(x.u.id, x.u.c)); }
  }

  /* ---- functions of closed contexts ---- */

  // Entering a host function reads freed memory, and breaks an obligation, if and only if its context has been
  // closed.
  lemma EntryFaults(w: World, b: Busy, u: Upcall)
    requires Inv(w, b) && u.c in w.ctxs
    ensures Entered(w, u).fault <==> w.ctxs[u.c].closed
    ensures Entered(w, u).rogue <==> w.ctxs[u.c].closed
  {
    assert ContextSound(w.ctxs[u.c], u.c, w.nctxs);
  }

  // The serial numbers are in order, apart from the rest of the invariant.
  ghost predicate Balanced(w: World) {
    SerialInv(w.heap, w.nextSerial, w.freed) && |w.freed| + |w.heap| == w.nextSerial
  }

  // the frame of a host call, whether or not its native context is still there
  lemma {:induction false} WrapAllPlain(w: World, ca: Addr, cells: seq<Cell>)
    requires Balanced(w)
    ensures var (w', ps) := WrapAll(w, ca, cells);
      && SameGo(w, w') && w'.nctxs == w.nctxs && w'.nextSerial == w.nextSerial + |cells|
      && Distinct(ps) && Grown(w.heap, w'.heap, ca, ps) && 0 !in ps
      && Balanced(w')
    decreases |cells|
  {
    if cells != [] {
      var (w1, p) := WrapBorrowed(w, ca, cells[0].js, cells[0].hint);
      AllocKeepsSerials(w, w1, p);
      hide Balanced, WrapBorrowed, Distinct, Grown;
      WrapAllPlain(w1, ca, cells[1..]);
      var (w2, ps) := WrapAll(w1, ca, cells[1..]);
      GrownCons(w.heap, w1.heap, w2.heap, ca, p, ps);
    }
  }

  ghost predicate AllLoose(w: World, ps: seq<Addr>) {
    Distinct(ps) && 0 !in ps && forall p {:trigger p in ps} :: p in ps ==> LooseCell(w, p)
  }

  lemma LooseFirst(w: World, ps: seq<Addr>)
    requires ps != [] && AllLoose(w, ps) && Balanced(w)
    ensures var w1 := NativeRelease(w, ps[0]);
      Dropped(w, w1, {ps[0]}) && w1.nctxs == w.nctxs && AllLoose(w1, ps[1..]) && Balanced(w1)
  {
    var p, rest := ps[0], ps[1..];
    assert p in ps && LooseCell(w, p);
    FreeKeepsSerials(w, NativeRelease(w, p), p);
    hide SerialInv;
    forall q {:trigger q in rest} | q in rest ensures LooseCell(NativeRelease(w, p), q) {
      assert q in ps && q != p && LooseCell(w, q);
    }
  }

  lemma {:induction false} ReleaseLoose(w: World, ps: seq<Addr>)
    requires AllLoose(w, ps) && Balanced(w)
    ensures var w' := NativeReleaseAll(w, ps);
      Dropped(w, w', Elems(ps)) && w'.nctxs == w.nctxs && Balanced(w')
    decreases |ps|
  {
    hide Balanced, NativeRelease, AllLoose, Dropped;
    if ps == [] {
      DroppedRefl(w);
      assert Elems<Addr>([]) == {};
    } else {
      var p, rest := ps[0], ps[1..];
      var w1 := NativeRelease(w, p);
      LooseFirst(w, ps);
      ReleaseLoose(w1, rest);
      assert ps == [p] + rest;
      ElemsCons(p, rest);
      DroppedCons(w, w1, NativeReleaseAll(w1, rest), p, Elems(rest));
    }
  }

  // What a host call of a closed context does: native code finds no context, so there is no error value and
  // no orphan; receiver and arguments are deleted, once each; nothing else changes.  It is at fault all the same.
  lemma ClosedCallNet(w: World, b: Busy, u: Upcall)
    requires Inv(w, b) && u.c in w.ctxs && w.ctxs[u.c].closed
    ensures var w' := HostCall(w, b, u);
      && w'.fault && w'.rogue
      && w' == w.(fault := true, rogue := true, nextSerial := w'.nextSerial, freed := w'.freed, answers := w.answers + [NoAnswer])
      && w'.nextSerial == w.nextSerial + |u.cells|
      && (forall s: nat {:trigger w'.freed[s]} :: w.nextSerial <= s < w'.nextSerial ==> w'.freed[s] == 1)
  {
    hide Inv, NativeInv, ContextInv, ValueInv, SerialInv, Balanced, AllLoose, WrapAll, NativeReleaseAll, Grown, HostCall;
    var w0 := w.(fault := true, rogue := true);
    var ca := w.ctxs[u.c].ptr;
    Parts(w, b);
    EntryFaults(w, b, u);
    EnteredClosed(w, b, u);
    var (w1, ps) := WrapAll(w0, ca, u.cells);
    BalancedAtFirst(w, b);
    WrapAllPlain(w0, ca, u.cells);
    GrownLoose(w0, w1, ca, ps);
    ReleaseLoose(w1, ps);
    var w' := NativeReleaseAll(w1, ps);
    forall s: nat {:trigger w'.freed[s]} | w.nextSerial <= s < w'.nextSerial ensures w'.freed[s] == 1 {
      MadeAndFreed(w, b, w', s);
    }
  }

  // What a host call of an open context does if its function is not found, at the end: it throws the error made for it,
  // deletes receiver, arguments and the error's cell, once each, and leaves a hidden wrapper of the error that Go
  // tracks and believes to own a cell, although that is gone.  Nothing else changes.
  lemma MissingCallNet(w: World, b: Busy, u: Upcall)
    requires Inv(w, b) && PinsSound(w, b) && Open(w, u.c) && u.id !in w.fns
    ensures var w' := HostCall(w, b, u);
      var v := w.nextRef;
      && Inv(w', b) && w'.heap == w.heap && w'.answers == w.answers + [Throws(u.missing.js)]
      && w'.orphans == w.orphans + {v} && w'.hidden == w.hidden + {v} && SameTables(w, w')
      && v !in w.vals && v in w'.vals && w'.vals == w.vals[v := w'.vals[v]]
      && w'.vals[v].ptr != 0 && w'.vals[v].ptr !in w'.heap
      && u.c in w'.ctxs && v in w'.ctxs[u.c].live
      && w'.nextSerial == w.nextSerial + |u.cells| + 1
      && (forall s: nat {:trigger w'.freed[s]} :: w.nextSerial <= s < w'.nextSerial ==> w'.freed[s] == 1)
  {
    hide *;
    var b1 := Inside(b, u.c);
    OpenKnown(w, u.c);
    OpenBusy(w, b, u);
    var (w1, ps) := WrapAll(w, w.ctxs[u.c].ptr, u.cells);
    var w' := HostCall(w, b, u);
    MissingIs(w, b, u);
    FrameMade(w, b1, u);
    FrameForgotten(w, b, u);
    HostMissingSafe(w1, b1, u.c, ps, u.missing);
    MissingCallbackDangles(w1, b1, u.c, ps, u.missing);
    MissingTables(w1, b1, u.c, ps, u.missing);
    MissingRecord(w1, u.c, w1.ctxs[u.c].ptr, ps, u.missing);
    FrameTables(w, w1);
    TablesTrans(w, w1, w');
    HostCallSafe(w, b, u);
    NoFault(w, b);
    SafeParts(w, w', b);
    forall s: nat {:trigger w'.freed[s]} | w.nextSerial <= s < w'.nextSerial ensures w'.freed[s] == 1 {
      MadeIsFreedOnce(w, b, w', b, s);
    }
  }

  lemma FrameForgotten(w: World, b: Busy, u: Upcall)
    requires Inv(w, b) && Open(w, u.c)
    ensures u.c in w.ctxs
    ensures var (w1, ps) := WrapAll(w, w.ctxs[u.c].ptr, u.cells);
      && w1.nextSerial == w.nextSerial + |u.cells| && w1.heap - Elems(ps) == w.heap
      && SameGo(w, w1) && w1.ctxs == w.ctxs && w1.answers == w.answers && w1.nextRef == w.nextRef && w1.functions == w.functions
      && w1.rogue == w.rogue
  {
    hide Inv, WrapAll, Balanced, Grown;
    var (w1, ps) := WrapAll(w, w.ctxs[u.c].ptr, u.cells);
    Evenly(w, b);
    WrapAllPlain(w, w.ctxs[u.c].ptr, u.cells);
    GrownLoose(w, w1, w.ctxs[u.c].ptr, ps);
  }

  lemma Evenly(w: World, b: Busy)
    requires Inv(w, b)
    ensures Balanced(w)
  {
  }

  lemma FrameTables(w: World, w1: World)
    requires SameGo(w, w1) && w1.functions == w.functions
    ensures SameTables(w, w1) && w1.vals == w.vals && w1.hidden == w.hidden && w1.orphans == w.orphans
  {
  }

  lemma MissingTables(w: World, b: Busy, c: CtxRef, ps: seq<Addr>, missing: Cell)
    requires Inv(w, b) && Open(w, c)
    ensures c in w.ctxs
    ensures var w' := HostMissing(w, c, w.ctxs[c].ptr, ps, missing);
      SameTables(w, w') && w'.hidden == w.hidden + {w.nextRef} && w'.nextSerial == w.nextSerial + 1
  {
    hide Inv, SameTables, Wrap, NewHidden, NativeReleaseAll, NativeRelease, HostMissing, Reads;
    var (w1, p) := Wrap(w, w.ctxs[c].ptr, missing.js, missing.hint);
    var (w2, v) := NewHidden(w1, c, p, missing.js);
    var w3 := NativeReleaseAll(Touch(w2, p), ps);
    MissingUnfold(w, c, ps, missing);
    NewHiddenSafe(w, b, c, missing.js, missing.hint);
    TempTables(w, b, c, missing.js, missing.hint);
    NativeReleaseAllGo(Touch(w2, p), ps);
    GoTables(w2, w3, NativeRelease(w3.(orphans := w3.orphans + {v}), p), v, Reads(w2, p, true));
    TablesTrans(w, w2, HostMissing(w, c, w.ctxs[c].ptr, ps, missing));
  }

  lemma GoTables(w2: World, w3: World, w4: World, v: Ref, a: Answer)
    requires GoUnchanged(w2, w3) && GoUnchanged(w3.(orphans := w3.orphans + {v}), w4)
    ensures SameTables(w2, Answered(w4, a)) && Answered(w4, a).hidden == w2.hidden
  {
  }

  lemma BalancedAtFirst(w: World, b: Busy)
    requires Inv(w, b)
    ensures Balanced(w.(fault := true, rogue := true))
  {
  }

  lemma GrownLoose(w: World, w1: World, ca: Addr, ps: seq<Addr>)
    requires Grown(w.heap, w1.heap, ca, ps) && Distinct(ps) && 0 !in ps
    ensures AllLoose(w1, ps)
    ensures w1.heap - Elems(ps) == w.heap
  {
    assert (w1.heap - Elems(ps)).Keys == w.heap.Keys;
  }

  lemma MadeAndFreed(w: World, b: Busy, w': World, s: nat)
    requires Inv(w, b) && w'.heap == w.heap && w.nextSerial <= s < w'.nextSerial
    requires Balanced(w')
    ensures w'.freed[s] == 1
  {
    LiveOrFreedOnce(w', s);
    forall q ensures !HasSerial(w'.heap, q, s) {}
  }

  /* ---- whole programs ---- */

  lemma {:induction false} ExecAppend(w: World, b: Busy, xs: seq<Cmd>, ys: seq<Cmd>)
    ensures Exec(w, b, xs + ys) == Exec(Exec(w, b, xs), b, ys)
    decreases |xs|
  {
    if xs == [] {
      assert xs + ys == ys;
    } else {
      assert (xs + ys)[0] == xs[0] && (xs + ys)[1..] == xs[1..] + ys;
      ExecAppend(Step(w, b, xs[0]), b, xs[1..], ys);
    }
  }

  // What a script calls, one after the other, is what it calls.
  lemma {:induction false} UpcallsAppend(w: World, b: Busy, xs: seq<Upcall>, ys: seq<Upcall>)
    ensures Upcalls(w, b, xs + ys) == Upcalls(Upcalls(w, b, xs), b, ys)
    decreases |xs|
  {
    if xs == [] {
      assert xs + ys == ys;
    } else {
      assert (xs + ys)[0] == xs[0] && (xs + ys)[1..] == xs[1..] + ys;
      UpcallsAppend(HostCall(w, b, xs[0]), b, xs[1..], ys);
    }
  }

  // After any program, with two contexts open: if one is closed and a script in the other then calls a host
  // function of it, the program is at fault.
  lemma ForgottenCallback(prog: seq<Cmd>, d: CtxRef, u: Upcall, out: Outcome, kept: bool)
    requires !Run(prog).rogue && Open(Run(prog), u.c) && Open(Run(prog), d) && u.c != d
    ensures var w' := Run(prog + [CloseCtx(u.c), Create(d, [u], out, kept)]);
      w'.fault && w'.rogue
  {
    hide *;
    var w := Run(prog);
    var w1 := Close(w, u.c);
    EndOfRun(prog);
    RunThenTwo(prog, CloseCtx(u.c), Create(d, [u], out, kept));
    OpenKnown(w, u.c);
    Idle(u.c);
    CloseKeepsInv(w, IDLE, u.c);
    OthersStayOpen(w, w1, u.c, d);
    ClosedCallNet(w1, Inside(IDLE, d), u) by { InsideInv(w1, d); }
    OneCall(w1, Inside(IDLE, d), u);
    CreateLater(w1, IDLE, Create(d, [u], out, kept));
    StillOnRecord(Upcalls(w1, Inside(IDLE, d), [u]), Step(w1, IDLE, Create(d, [u], out, kept)));
    PlainClose(w, u.c);
  }

  lemma Idle(c: CtxRef)
    ensures c !in IDLE.ctxs
  {
  }

  lemma EndOfRun(prog: seq<Cmd>)
    requires !Run(prog).rogue
    ensures Inv(Run(prog), IDLE) && PinsSound(Run(prog), IDLE)
  {
    EndIsReached(prog);
    RunsAreSafe(prog, At(Run(prog), IDLE));
  }

  lemma RunThenTwo(prog: seq<Cmd>, x: Cmd, y: Cmd)
    ensures Run(prog + [x, y]) == Step(Step(Run(prog), IDLE, x), IDLE, y)
  {
    hide Step;
    ExecAppend(EMPTY, IDLE, prog, [x, y]);
    var w1 := Step(Run(prog), IDLE, x);
    assert [x, y][1..] == [y];
    assert Exec(Run(prog), IDLE, [x, y]) == Exec(w1, IDLE, [y]);
    ExecOne(w1, IDLE, y);
  }

  lemma OthersStayOpen(w: World, w1: World, c: CtxRef, d: CtxRef)
    requires c in w.ctxs && Closed(w, w1, c) && Open(w, d) && c != d
    ensures Open(w1, d) && c in w1.ctxs && w1.ctxs[c].closed && d in w1.ctxs
  {
  }

  lemma InsideInv(w: World, d: CtxRef)
    requires Inv(w, IDLE) && Open(w, d)
    ensures Inv(w, Inside(IDLE, d))
  {
    InvWeaken(w, IDLE, Inside(IDLE, d));
  }

  lemma StillOnRecord(w: World, w': World)
    requires Tidy(w, w')
    ensures (w.fault ==> w'.fault) && (w.rogue ==> w'.rogue)
  {
  }

  lemma PlainClose(w: World, c: CtxRef)
    ensures Step(w, IDLE, CloseCtx(c)) == Close(w, c)
  {
    hide Close;
  }

  // The same program without the Close is not at fault, whatever the function is called with.
  lemma RememberedCallback(prog: seq<Cmd>, d: CtxRef, u: Upcall, out: Outcome, kept: bool)
    requires !Run(prog).rogue && Open(Run(prog), u.c) && Open(Run(prog), d) && u.id in Run(prog).fns
    requires u.body == [] && u.ret == RetNil
    ensures var w' := Run(prog + [Create(d, [u], out, kept)]);
      !w'.fault && !w'.rogue
  {
    hide *;
    var w := Run(prog);
    var cmd := Create(d, [u], out, kept);
    EndOfRun(prog);
    ExecAppend(EMPTY, IDLE, prog, [cmd]);
    ExecOne(w, IDLE, cmd);
    RunIs(prog);
    RunIs(prog + [cmd]);
    EnteredOpen(w, IDLE, u);
    QuietCall(w, Inside(IDLE, d), u);
    OneCall(w, Inside(IDLE, d), u);
    CreateEnds(w, IDLE, d, u, out, kept);
    NoFault(w, IDLE);
    StepSafe(w, IDLE, cmd);
    SafeParts(w, Step(w, IDLE, cmd), IDLE);
    NoFault(Step(w, IDLE, cmd), IDLE);
  }

  lemma RunIs(prog: seq<Cmd>)
    ensures Run(prog) == Exec(EMPTY, IDLE, prog)
  {
  }

  // a function that does nothing
  lemma QuietCall(w: World, b: Busy, u: Upcall)
    requires Open(w, u.c) && Entered(w, u) == w && u.id in w.fns && u.body == [] && u.ret == RetNil
    ensures HostCall(w, b, u).rogue == w.rogue
  {
    var (w1, vs) := BeforeBody(w, u);
    assert Exec(w1, Inside(b, u.c), []) == w1;
    hide BeforeBody, InvalidateAll, HostEnd;
  }

  // Two contexts and a function of the first: the program that closes the first context before the script of the
  // second calls the function is at fault, and the program that does not is not.
  lemma FaultyCallback(h1: Addr, h2: Addr, js: Js, hint: Addr, cells: seq<Cell>, missing: Cell, out: Outcome, kept: bool)
    ensures var prog := [NewCtx(h1), NewCtx(h2), NewFn(1, Yields(js, hint))];
      var call := Create(2, [Upcall(1, 1, cells, missing, [], RetNil)], out, kept);
      && HostFn(1, 1) in Run(prog).functions
      && Run(prog + [CloseCtx(1), call]).fault && Run(prog + [CloseCtx(1), call]).rogue
      && !Run(prog + [call]).fault && !Run(prog + [call]).rogue
  {
    var prog := [NewCtx(h1), NewCtx(h2), NewFn(1, Yields(js, hint))];
    var u := Upcall(1, 1, cells, missing, [], RetNil);
    TwoContexts(h1, h2, js, hint);
    ForgottenCallback(prog, 2, u, out, kept);
    RememberedCallback(prog, 2, u, out, kept);
  }

  lemma TwoContexts(h1: Addr, h2: Addr, js: Js, hint: Addr)
    ensures var w := Run([NewCtx(h1), NewCtx(h2), NewFn(1, Yields(js, hint))]);
      !w.rogue && Open(w, 1) && Open(w, 2) && 1 in w.fns && HostFn(1, 1) in w.functions
  {
    hide *;
    var w1 := Step(EMPTY, IDLE, NewCtx(h1));
    var w2 := Step(w1, IDLE, NewCtx(h2));
    RunOfThree(NewCtx(h1), NewCtx(h2), NewFn(1, Yields(js, hint)));
    OpenPair(h1, h2);
    OpenFn(w2, 1, js, hint);
    EmptyInv();
    StepSafe(EMPTY, IDLE, NewCtx(h1));
    SafeParts(EMPTY, w1, IDLE);
    PinsStay(EMPTY, w1, IDLE);
    StepSafe(w1, IDLE, NewCtx(h2));
    SafeParts(w1, w2, IDLE);
    NewFunctionNet(w2, IDLE, 1, Yields(js, hint));
  }

  lemma OpenPair(h1: Addr, h2: Addr)
    ensures var w1 := Step(EMPTY, IDLE, NewCtx(h1));
      var w2 := Step(w1, IDLE, NewCtx(h2));
      && !w1.rogue && !w2.rogue && Open(w2, 1) && Open(w2, 2) && w2.fnSeq == 0
  {
    hide Pick;
  }

  lemma OpenFn(w: World, c: CtxRef, js: Js, hint: Addr)
    ensures Step(w, IDLE, NewFn(c, Yields(js, hint))) == NewFunction(w, c, Yields(js, hint))
    ensures var w' := NewFunction(w, c, Yields(js, hint));
      && w'.rogue == w.rogue && (forall d {:trigger Open(w, d)} :: Open(w, d) ==> Open(w', d))
  {
  }
}
