/**
 Whole programs over the handle heap.  A program is a tree: an API call may run
 JavaScript, JavaScript may call host functions, and the body of a host function
 is again a program.  What V8 does is a choice recorded in the tree, so a
 statement about every tree covers every behaviour of the engine and of user code.
 */
module Programs {
  import opened Handles

  // What a native call hands back: no value, with or without an error message (an exception whose text is
  // empty has none, and a call like Object.Set that succeeds), or a value wrapped at an address the allocator chose.
  datatype Outcome = NoValue(message: bool) | Yields(js: Js, hint: Addr)

  // One argument of materializeArgs: a wrapper of the caller's, a Go value converted into a temporary
  // handle, or a value whose conversion fails.
  datatype Arg = Given(v: Ref) | Temp(js: Js, hint: Addr) | Failing

  datatype Cell = Cell(js: Js, hint: Addr)

  // What a host function returns.
  datatype Ret = RetNil | RetValue(v: Ref, hint: Addr) | RetErr(js: Js, hint: Addr, retained: Addr)

  // JavaScript calls the host function `id`, which was made in context `c`.  `cells` are the receiver and the arguments.
  datatype Upcall = Upcall(c: CtxRef, id: nat, cells: seq<Cell>, missing: Cell, body: seq<Cmd>, ret: Ret)

  datatype Cmd =
    | NewCtx(hint: Addr)
    | NewFn(c: CtxRef, out: Outcome)
    | Create(c: CtxRef, inner: seq<Upcall>, out: Outcome, kept: bool)          // RunScript, NewObject, Evaluate, ...
    | Use(v: Ref, args: seq<Arg>, inner: seq<Upcall>, out: Outcome)            // Get, Set, Function.Call, Promise.Result, ...
    | CallMethod(v: Ref, args: seq<Arg>, getter: seq<Upcall>, found: Outcome, inner: seq<Upcall>, out: Outcome)
    | Retain(v: Ref, hint: Addr)                                               // NewGlobalValue, GlobalValue.Value
    | ReleaseValue(v: Ref)
    | CloseCtx(c: CtxRef)

  // A fault, a broken obligation, an orphan and a function stay on record.
  ghost predicate Later(w: World, w': World) {
    (w.rogue ==> w'.rogue) && (w.fault ==> w'.fault) && w.orphans <= w'.orphans && w.functions <= w'.functions
  }

  // Neither the caller's fault nor a new orphan, no new function, and no answer.
  ghost predicate Steady(w: World, w': World) {
    w'.rogue == w.rogue && (w.fault ==> w'.fault) && w'.orphans == w.orphans && w'.functions == w.functions && w'.answers == w.answers
  }

  // No new orphan, but perhaps the caller's fault.
  ghost predicate Tidy(w: World, w': World) {
    Later(w, w') && w'.orphans == w.orphans
  }

  // Record that the caller has broken an obligation, and go on.
  ghost function Blame(w: World, broken: bool): World {
    if broken then w.(rogue := true) else w
  }

  /* ---- lists of handles ---- */

  // the allocation loop of HostFunctionCallback
  ghost function WrapAll(w: World, ca: Addr, cells: seq<Cell>): (r: (World, seq<Addr>))
    ensures Steady(w, r.0)
    decreases |cells|
  {
    if cells == [] then (w, [])
    else
      var (w1, p) := WrapBorrowed(w, ca, cells[0].js, cells[0].hint);
      var (w2, ps) := WrapAll(w1, ca, cells[1..]);
      (w2, [p] + ps)
  }

  // newBorrowedValue for the receiver and every argument
  ghost function ViewAll(w: World, c: CtxRef, ps: seq<Addr>): (r: (World, seq<Ref>))
    ensures Steady(w, r.0)
    decreases |ps|
  {
    if ps == [] then (w, [])
    else
      var js := if ps[0] in w.heap then w.heap[ps[0]].js else 0;
      var (w1, v) := NewBorrowed(w, c, ps[0], js);
      var (w2, vs) := ViewAll(w1, c, ps[1..]);
      (w2, [v] + vs)
  }

  ghost function InvalidateAll(w: World, vs: seq<Ref>): (w': World)
    ensures Steady(w, w') && w'.nextSerial == w.nextSerial
    decreases |vs|
  {
    if vs == [] then w else InvalidateAll(Invalidate(w, vs[0]), vs[1..])
  }

  ghost function NativeReleaseAll(w: World, ps: seq<Addr>): (w': World)
    ensures Steady(w, w') && w'.nextSerial == w.nextSerial
    decreases |ps|
  {
    if ps == [] then w else NativeReleaseAll(NativeRelease(w, ps[0]), ps[1..])
  }

  ghost function ReleaseAll(w: World, vs: seq<Ref>): (w': World)
    ensures Steady(w, w')
    decreases |vs|
  {
    if vs == [] then w else ReleaseAll(Release(w, vs[0]), vs[1..])
  }

  // Native code reads the cell at p.
  ghost function Touch(w: World, p: Addr): World {
    if p in w.heap then w else w.(fault := true)
  }

  // newValue for a value that no user code gets to see
  ghost function NewHidden(w: World, c: CtxRef, p: Addr, js: Js): (r: (World, Ref))
    ensures Steady(w, r.0)
  {
    var (w1, v) := NewValue(w, c, p, js);
    (if v == 0 then w1 else w1.(hidden := w1.hidden + {v}), v)
  }

  datatype Materialized = Materialized(w: World, argv: seq<Ref>, temps: seq<Ref>, ok: bool)

  // materializeArgs on an open context: the first failing conversion stops it
  ghost function Materialize(w: World, c: CtxRef, args: seq<Arg>): (m: Materialized)
    requires Open(w, c)
    ensures Steady(w, m.w)
    decreases |args|
  {
    if args == [] then Materialized(w, [], [], true)
    else
      match args[0]
      case Given(v) =>
        var m := Materialize(w, c, args[1..]);
        Materialized(m.w, [v] + m.argv, m.temps, m.ok)
      case Temp(js, hint) =>
        var (w1, p) := Wrap(w, w.ctxs[c].ptr, js, hint);
        var (w2, t) := NewHidden(w1, c, p, js);
        if !Open(w2, c) then Materialized(w2, [t], [t], true)
        else
          var m := Materialize(w2, c, args[1..]);
          Materialized(m.w, [t] + m.argv, [t] + m.temps, m.ok)
      case Failing => Materialized(w, [], [], false)
  }

  // Every argument is a wrapper that still points somewhere; the caller owes this.
  ghost predicate Usable(w: World, argv: seq<Ref>) {
    forall i :: 0 <= i < |argv| ==> argv[i] in w.vals && w.vals[argv[i]].ptr != 0 && argv[i] !in w.orphans
  }

  // the argument loop of GV8ValueCall
  ghost function ReadArgs(w: World, argv: seq<Ref>): (w': World)
    ensures Steady(w, w')
    decreases |argv|
  {
    if argv == [] then w
    else
      ReadArgs(Touch(w, if argv[0] in w.vals then w.vals[argv[0]].ptr else 0), argv[1..])
  }

  // A caller that hands over anything else has broken an obligation.
  ghost function ArgsRead(w: World, argv: seq<Ref>): (w': World)
    ensures Tidy(w, w')
  {
    ReadArgs(Blame(w, !Usable(w, argv)), argv)
  }

  /* ---- programs ---- */

  ghost function Exec(w: World, b: Busy, cmds: seq<Cmd>): (w': World)
    ensures Later(w, w')
    decreases cmds, 0
  {
    if cmds == [] then w else Exec(Step(w, b, cmds[0]), b, cmds[1..])
  }

  ghost function Upcalls(w: World, b: Busy, ups: seq<Upcall>): (w': World)
    ensures Later(w, w')
    decreases ups, 0
  {
    if ups == [] then w else Upcalls(HostCall(w, b, ups[0]), b, ups[1..])
  }

  // While a native call runs on wrapper v, its cell and its context must stay.
  ghost function Pin(w: World, b: Busy, v: Ref): Busy
    requires v in w.vals
  {
    Busy(if w.vals[v].borrowed then b.refs else b.refs + {v}, b.ctxs + {w.vals[v].ctx})
  }

  // A native call on the cell at p: run JavaScript, then wrap the result in p's own context,
  // which reads p a second time.
  ghost function NativeUse(w: World, b: Busy, p: Addr, inner: seq<Upcall>, out: Outcome): (r: (World, Addr))
    ensures Later(w, r.0)
    decreases inner, 1
  {
    var w1 := Upcalls(Touch(w, p), b, inner);
    match out
    case NoValue(_) => (w1, 0)
    case Yields(js, hint) =>
      if p !in w1.heap then (w1.(fault := true), 0)
      else Wrap(w1, w1.heap[p].ctx, js, hint)
  }

  ghost function Born(out: Outcome): Js {
    match out case NoValue(_) => 0 case Yields(js, _) => js
  }

  ghost function Step(w: World, b: Busy, cmd: Cmd): (w': World)
    ensures Later(w, w')
    decreases cmd, 1
  {
    match cmd
    case NewCtx(hint) => NewContext(w, hint)

    case NewFn(c, out) => NewFunction(w, c, out)
    case Create(_, _, _, _) => StepCreate(w, b, cmd)
    case Use(_, _, _, _) => StepUse(w, b, cmd)
    case CallMethod(_, _, _, _, _, _) => StepMethod(w, b, cmd)

    case Retain(v, hint) => NewGlobalValue(w, v, hint)

    case ReleaseValue(v) =>
      if !Nameable(w, v) then w else Release(Blame(w, v in b.refs), v)

    case CloseCtx(c) => Close(Blame(w, c in b.ctxs), c)
  }

  // registerHostFunction and trackHostFunction on an open context
  ghost function Registered(w: World, c: CtxRef): World
    requires c in w.ctxs
  {
    var id := w.fnSeq + 1;
    w.(fnSeq := id, fns := w.fns[id := c], ctxs := w.ctxs[c := w.ctxs[c].(fns := w.ctxs[c].fns + {id})])
  }

  // native code has made a JavaScript function for the id registered last
  ghost function FunctionMade(w: World, c: CtxRef): World {
    w.(functions := w.functions + {HostFn(w.fnSeq, c)})
  }

  // NewFunction.  Without an error message the error is nil, and the id stays registered.
  ghost function NewFunction(w: World, c: CtxRef, out: Outcome): (w': World)
    ensures Tidy(w, w') && w'.rogue == w.rogue
  {
    if !Open(w, c) then w
    else
      var w1 := Registered(w, c);
      match out
      case NoValue(message) => if message then w1.(fns := w1.fns - {w1.fnSeq}) else w1
      case Yields(js, hint) =>
        var (w2, p) := Wrap(FunctionMade(w1, c), w.ctxs[c].ptr, js, hint);
        NewValue(w2, c, p, js).0
  }

  // NewGlobalValue and GlobalValue.Value
  ghost function NewGlobalValue(w: World, v: Ref, hint: Addr): (w': World)
    ensures Steady(w, w')
  {
    if !Nameable(w, v) || !Valid(w, v) then w
    else
      var (w1, p) := NativeRetain(w, w.vals[v].ptr, hint);
      NewValue(w1, w.vals[v].ctx, p, w.vals[v].born).0
  }

  // Context.RunScript, Context.NewObject, Module.Evaluate and the like; a result that is not kept
  // is one whose wrapper the library drops without releasing it
  ghost function StepCreate(w: World, b: Busy, cmd: Cmd): (w': World)
    requires cmd.Create?
    ensures Later(w, w')
    decreases cmd, 0
  {
    var Create(c, inner, out, kept) := cmd;
    if !Open(w, c) then w
    else
      var w1 := Upcalls(w, Busy(b.refs, b.ctxs + {c}), inner);
      match out
      case NoValue(_) => w1
      case Yields(js, hint) =>
        var (w2, p) := Wrap(w1, w.ctxs[c].ptr, js, hint);
        if kept then NewValue(w2, c, p, js).0 else NewHidden(w2, c, p, js).0
  }

  // Object.Get, Object.Set, Function.Call and the like
  ghost function StepUse(w: World, b: Busy, cmd: Cmd): (w': World)
    requires cmd.Use?
    ensures Later(w, w')
    decreases cmd, 0
  {
    var Use(v, args, inner, out) := cmd;
    if !Nameable(w, v) || !Valid(w, v) then w
    else
      var c := w.vals[v].ctx;
      var m := Materialize(w, c, args);
      if !m.ok then ReleaseAll(m.w, m.temps)
      else
        var (w2, q) := NativeUse(ArgsRead(m.w, m.argv), Pin(w, b, v), w.vals[v].ptr, inner, out);
        FinishCall(w2, c, q, out, m.temps)
  }

  // wrap the result, then run the deferred cleanups
  ghost function FinishCall(w: World, c: CtxRef, q: Addr, out: Outcome, temps: seq<Ref>): (w': World)
    ensures Steady(w, w')
  {
    ReleaseAll(NewValue(w, c, q, Born(out)).0, temps)
  }

  // Object.CallMethod
  ghost function StepMethod(w: World, b: Busy, cmd: Cmd): (w': World)
    requires cmd.CallMethod?
    ensures Later(w, w')
    decreases cmd, 0
  {
    var CallMethod(v, args, getter, found, inner, out) := cmd;
    if !Nameable(w, v) || !Valid(w, v) then w
    else
      var c := w.vals[v].ctx;
      var m := Materialize(w, c, args);
      if !m.ok then ReleaseAll(m.w, m.temps)
      else
        // GV8ObjectGet, whose handle nobody releases before the context is closed
        var (w1, fn) := NativeUse(m.w, Pin(w, b, v), w.vals[v].ptr, getter, found);
        if fn == 0 then ReleaseAll(w1, m.temps)
        else
          MethodCall(w1, Pin(w, b, v), c, w.vals[v].ptr, fn, m, inner, out)
  }

  // GV8ValueCall with the looked-up function, the receiver at p and the materialised arguments
  ghost function MethodCall(w: World, b: Busy, c: CtxRef, p: Addr, fn: Addr, m: Materialized,
                            inner: seq<Upcall>, out: Outcome): (w': World)
    ensures Later(w, w')
    decreases inner, 2
  {
    var (w1, q) := NativeUse(Touch(ArgsRead(w, m.argv), p), b, fn, inner, out);
    FinishCall(w1, c, q, out, m.temps)
  }

  ghost function Inside(b: Busy, c: CtxRef): Busy {
    Busy(b.refs, b.ctxs + {c})
  }

  // The receiver's and the arguments' cells.
  ghost function FrameHandles(w: World, u: Upcall): seq<Addr>
    requires u.c in w.ctxs
  {
    WrapAll(w, w.ctxs[u.c].ptr, u.cells).1
  }

  // When the body of a host function starts, with a view on each of them.
  ghost function BeforeBody(w: World, u: Upcall): (r: (World, seq<Ref>))
    requires u.c in w.ctxs
    ensures Steady(w, r.0)
  {
    ViewAll(WrapAll(w, w.ctxs[u.c].ptr, u.cells).0, u.c, FrameHandles(w, u))
  }

  // HostFunctionCallback reads the result from the cell at h and sets it, or throws it.
  ghost function Reads(w: World, h: Addr, thrown: bool): Answer {
    if h == 0 || h !in w.heap then NoAnswer else if thrown then Throws(w.heap[h].js) else Gives(w.heap[h].js)
  }

  ghost function Answered(w: World, a: Answer): World {
    w.(answers := w.answers + [a])
  }

  // HostFunctionCallback finds its gv8_ctx through the JavaScript context, which outlives it, and reads the ref
  // in it.  That no function of a closed context is called is the caller's obligation.
  ghost function Entered(w: World, u: Upcall): (w': World)
    requires u.c in w.ctxs
    ensures Tidy(w, w')
  {
    var w1 := Blame(w, !Open(w, u.c));
    if w.ctxs[u.c].ptr in w.nctxs then w1 else w1.(fault := true)
  }

  // HostFunctionCallback around gv8FunctionCallback
  ghost function HostCall(w: World, b: Busy, u: Upcall): (w': World)
    ensures Later(w, w')
    decreases u
  {
    if u.c !in w.ctxs then w
    else
      var w0 := Entered(w, u);
      if !Open(w0, u.c) then Answered(HostClosed(w0, u), NoAnswer)
      else if u.id !in w0.fns then
        var ca := w0.ctxs[u.c].ptr;
        HostMissing(WrapAll(w0, ca, u.cells).0, u.c, ca, FrameHandles(w0, u), u.missing)
      else
        var (w1, vs) := BeforeBody(w0, u);
        HostReturn(Exec(w1, Inside(b, u.c), u.body), b, u.c, FrameHandles(w0, u), vs, u.ret)
  }

  // The ref of a closed context leads to no context: there is no error value, and receiver and arguments go.
  ghost function HostClosed(w: World, u: Upcall): (w': World)
    requires u.c in w.ctxs
    ensures Steady(w, w')
  {
    NativeReleaseAll(WrapAll(w, w.ctxs[u.c].ptr, u.cells).0, FrameHandles(w, u))
  }

  // "host function callback not found": the error value stays tracked by Go although native code deletes its cell
  ghost function HostMissing(w: World, c: CtxRef, ca: Addr, ps: seq<Addr>, missing: Cell): (w': World)
    ensures Later(w, w')
  {
    var (w1, p) := Wrap(w, ca, missing.js, missing.hint);
    var (w2, v) := NewHidden(w1, c, p, missing.js);
    Answered(GiveUp(w2, ps, v, p), Reads(w2, p, true))
  }

  // native code reads the error value, releases receiver and arguments, and deletes the cell that v still tracks
  ghost function GiveUp(w: World, ps: seq<Addr>, v: Ref, p: Addr): (w': World)
    ensures Later(w, w') && w'.orphans == w.orphans + {v} && w'.answers == w.answers
  {
    var w1 := NativeReleaseAll(Touch(w, p), ps);
    NativeRelease(w1.(orphans := w1.orphans + {v}), p)
  }

  // the part of gv8FunctionCallback after the body: the views go, and native code gets a handle on the result, or none
  ghost function Handed(w: World, b: Busy, c: CtxRef, vs: seq<Ref>, ret: Ret): (r: (World, Addr))
    ensures Tidy(w, r.0) && r.0.answers == w.answers
  {
    match ret
    case RetNil => (InvalidateAll(w, vs), 0)
    case RetValue(v, hint) =>
      if !Nameable(w, v) then (InvalidateAll(w, vs), 0)
      else
        var (w1, h) := Handoff(Blame(w, v in b.refs), v, hint);
        (InvalidateAll(w1, vs), h)
    case RetErr(js, hint, retained) =>
      var ca := if c in w.ctxs then w.ctxs[c].ptr else 0;
      var (w1, p) := Wrap(w, ca, js, hint);
      var (w2, e) := NewValue(w1, c, p, js);
      Handoff(InvalidateAll(w2, vs), e, retained)
  }

  // the same, then the rest of HostFunctionCallback
  ghost function HostReturn(w: World, b: Busy, c: CtxRef, ps: seq<Addr>, vs: seq<Ref>, ret: Ret): (w': World)
    ensures Tidy(w, w')
  {
    var (w1, h) := Handed(w, b, c, vs, ret);
    Answered(HostEnd(w1, ps, h), Reads(w1, h, ret.RetErr?))
  }

  // read the result, then release receiver, arguments and result
  ghost function HostEnd(w: World, ps: seq<Addr>, h: Addr): (w': World)
    ensures Steady(w, w') && w'.nextSerial == w.nextSerial
  {
    var w1 := if h == 0 then w else Touch(w, h);
    NativeRelease(NativeReleaseAll(w1, ps), h)
  }
}
