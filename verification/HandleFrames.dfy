/**
 The loops and temporaries of a call that crosses the boundary, in place: the
 argument arrays of HostFunctionCallback, the views of gv8FunctionCallback,
 handoffHostValue, materializeArgs and cArgv.
 */
module HandleFrames {
  import opened Handles
  import opened HandleInvariants
  import opened HandleClasses
  import Programs
  import opened Framing
  import opened HostCalls

  type Cell = Programs.Cell

  // handoffHostValue
  method HandoffHostValue(l: Library, v: Value, hint: Addr, ghost b: Busy) returns (q: Addr)
    requires l.Valid() && l.KnownValue(v) && Inv(l.State(), b) && v.name !in l.orphans
    requires v.ptr != 0 ==> hint != 0 && hint !in l.heap
    modifies l`heap, l`nctxs, l`nextSerial, l`freed, v`ptr, v.ctx`liveValues
    ensures l.Valid() && (l.State(), q) == Handoff(old(l.State()), v.name, hint)
  {
    hide ValsOf, CtxsOf, Names, Consistent, Inv, Wrap, Release, Invalidate, NativeRetain;
    ValueView(l, v);
    if v.ptr == 0 { return 0; }
    OwnerCell(l.State(), b, v.name);
    RetainKeepsInv(l.State(), b, v.name, hint);
    q := l.ValueRetain(v.ptr, hint);
    if v.borrowed {
      l.Clear(v);
    } else {
      l.Release(v, b);
    }
  }

  lemma ValueView(l: Library, v: Value)
    requires l.KnownValue(v)
    ensures v.name in l.Vals() && l.Vals()[v.name] == v.View()
  {
  }

  lemma RetainKeepsInv(w: World, b: Busy, v: Ref, hint: Addr)
    requires Inv(w, b) && v in w.vals && v !in w.orphans && w.vals[v].ptr != 0
    ensures Inv(NativeRetain(w, w.vals[v].ptr, hint).0, b)
    ensures NativeRetain(w, w.vals[v].ptr, hint).0.vals == w.vals && NativeRetain(w, w.vals[v].ptr, hint).0.orphans == w.orphans
  {
    OwnerCell(w, b, v);
    var p := w.vals[v].ptr;
    hide Inv;
    WrapKeepsInv(w, b, w.heap[p].ctx, w.heap[p].js, hint);
  }

  // A second handle on the value of v, in v's own context (NewGlobalValue and GlobalValue.Value).
  method RetainedCopy(l: Library, v: Value, hint: Addr, ghost b: Busy) returns (copy: Value)
    requires l.Valid() && l.KnownValue(v) && Inv(l.State(), b)
    requires Nameable(l.State(), v.name) && Handles.Valid(l.State(), v.name) && hint != 0 && hint !in l.heap
    modifies l`heap, l`nctxs, l`nextSerial, l`nextRef, l`values, v.ctx`liveValues
    ensures l.Valid() && l.KnownValue(copy) && copy.ctx == v.ctx && copy.name == old(l.nextRef)
    ensures l.State() == Programs.NewGlobalValue(old(l.State()), v.name, hint)
  {
    hide ValsOf, CtxsOf, Names, Inv, NativeRetain, Handles.NewValue;
    ValueView(l, v);
    NameableIsReal(l.State(), b, v.name);
    OwnerCell(l.State(), b, v.name);
    RetainNotNil(l.State(), v.ptr, hint);
    var q := l.ValueRetain(v.ptr, hint);
    copy := l.NewValue(v.ctx, q, v.born);
  }

  lemma NameableIsReal(w: World, b: Busy, v: Ref)
    requires Inv(w, b) && Nameable(w, v)
    ensures v !in w.orphans
  {
  }

  lemma RetainNotNil(w: World, p: Addr, hint: Addr)
    requires p in w.heap && p != 0 && w.heap[p].ctx in w.nctxs && hint != 0 && hint !in w.heap
    ensures NativeRetain(w, p, hint).1 == hint
  {
  }

  // global.go
  class GlobalValue {
    var value: Value?

    constructor (v: Value)
      ensures value == v
    {
      value := v;
    }

    // A released global, or one of another context, yields nothing.
    method Value(l: Library, c: Context, hint: Addr, ghost b: Busy) returns (v: Value?)
      requires l.Valid() && l.KnownContext(c) && Inv(l.State(), b) && hint != 0 && hint !in l.heap
      requires value != null ==> l.KnownValue(value) && Nameable(l.State(), value.name)
      modifies l`heap, l`nctxs, l`nextSerial, l`nextRef, l`values, c`liveValues
      ensures l.Valid() && value == old(value)
      ensures v != null <==> value != null && old(Handles.Valid(l.State(), value.name)) && value.ctx == c
      ensures v == null ==> l.State() == old(l.State())
      ensures v != null ==> l.State() == Programs.NewGlobalValue(old(l.State()), value.name, hint)
    {
      hide ValsOf, CtxsOf, Names, Consistent, Inv, Programs.NewGlobalValue;
      if value == null { return null; }
      var ok := l.IsValid(value);
      if !ok || value.ctx != c { return null; }
      v := RetainedCopy(l, value, hint, b);
    }

    // Releasing twice is releasing once.
    method Release(l: Library, ghost b: Busy)
      requires l.Valid() && Inv(l.State(), b)
      requires value != null ==> l.KnownValue(value) && value.name !in l.orphans
      modifies this, l`heap, l`nctxs, l`freed, if value == null then {} else {value, value.ctx}
      ensures value == null && l.Valid()
      ensures l.State() == if old(value) == null then old(l.State()) else Handles.Release(old(l.State()), old(value.name))
    {
      hide ValsOf, CtxsOf, Names, Consistent, Inv, Handles.Release;
      if value == null { return; }
      l.Release(value, b);
      value := null;
    }
  }

  // NewFunction, up to the call into native code
  method RegisterFunction(l: Library, c: Context) returns (id: nat)
    requires l.Valid() && l.KnownContext(c) && !c.closed
    modifies l`hostFnSeq, l`hostFnRefs, c`hostFnIDs
    ensures l.Valid() && id == l.hostFnSeq
    ensures c.ref in old(l.State()).ctxs && l.State() == Programs.Registered(old(l.State()), c.ref)
  {
    hide ValsOf, CtxsOf, Names, Consistent;
    l.ContextView(c);
    id := l.RegisterHostFunction(c);
    l.TrackHostFunction(c, id);
  }

  // NewFunction, whatever native code answers: an exception without a text is no error, and keeps the id.
  method NewFunction(l: Library, c: Context, out: Programs.Outcome, ghost b: Busy) returns (err: bool, v: Value?)
    requires l.Valid() && l.KnownContext(c) && Inv(l.State(), b)
    requires out.Yields? ==> out.hint != 0 && out.hint !in l.heap
    modifies l`hostFnSeq, l`hostFnRefs, l`functions, l`heap, l`nctxs, l`nextSerial, l`nextRef, l`values, c`hostFnIDs, c`liveValues
    ensures l.Valid() && l.State() == Programs.NewFunction(old(l.State()), c.ref, out)
    ensures err <==> !Open(old(l.State()), c.ref) || (out.NoValue? && out.message)
    ensures v != null <==> Open(old(l.State()), c.ref) && out.Yields?
  {
    hide ValsOf, CtxsOf, Names, Consistent, Inv, Wrap, Handles.NewValue, Programs.Registered;
    l.ContextView(c);
    var closed := c.IsClosed();
    if closed { return true, null; }
    FunctionSteps(l.State(), b, c.ref, out);
    var id := RegisterFunction(l, c);
    match out {
      case NoValue(message) =>
        if message { Unregister(l, id); }
        err, v := message, null;
      case Yields(js, hint) =>
        RecordFunction(l, c, id);
        l.WrapValue(c.ptr, js, hint);
        v := l.NewValue(c, hint, js);
        err := false;
    }
  }

  // what the history variable records
  ghost method RecordFunction(l: Library, c: Context, id: nat)
    requires l.Valid() && id == l.hostFnSeq
    modifies l`functions
    ensures l.Valid() && l.State() == Programs.FunctionMade(old(l.State()), c.ref)
  {
    l.functions := l.functions + {HostFn(id, c.ref)};
  }

  // unregisterHostFunctions of one id
  method Unregister(l: Library, id: nat)
    requires l.Valid()
    modifies l`hostFnRefs
    ensures l.Valid() && l.State() == old(l.State()).(fns := old(l.State()).fns - {id})
  {
    l.hostFnRefs := l.hostFnRefs - {id};
  }

  lemma FunctionSteps(w: World, b: Busy, c: CtxRef, out: Programs.Outcome)
    requires Inv(w, b) && Open(w, c) && (out.Yields? ==> out.hint != 0 && out.hint !in w.heap)
    ensures var w1 := Programs.Registered(w, c);
      && w1.fnSeq == w.fnSeq + 1 && w1.heap == w.heap && w1.nctxs == w.nctxs && w.ctxs[c].ptr in w.nctxs
      && (out.NoValue? ==> Programs.NewFunction(w, c, out) == if out.message then w1.(fns := w1.fns - {w1.fnSeq}) else w1)
      && (out.Yields? ==>
            var w2 := Programs.FunctionMade(w1, c);
            && w2.heap == w1.heap && w2.nctxs == w1.nctxs
            && Programs.NewFunction(w, c, out) == NewValue(Wrap(w2, w.ctxs[c].ptr, out.js, out.hint).0, c, out.hint, out.js).0)
  {
    OpenNative(w, b, c);
    var w1 := Programs.Registered(w, c);
    if out.Yields? { WrapsAtHint(Programs.FunctionMade(w1, c), w.ctxs[c].ptr, out.js, out.hint); }
    hide Inv, Handles.NewValue, Wrap;
  }

  lemma WrapsAtHint(w: World, ca: Addr, js: Js, hint: Addr)
    requires ca in w.nctxs && hint != 0 && hint !in w.heap
    ensures Wrap(w, ca, js, hint).1 == hint
  {
  }

  // The addresses the allocator will hand out for these cells.
  ghost predicate FreshHints(heap: map<Addr, NativeValue>, cells: seq<Cell>) {
    && (forall i {:trigger cells[i]} :: 0 <= i < |cells| ==> cells[i].hint != 0 && cells[i].hint !in heap)
    && (forall i, j {:trigger cells[i], cells[j]} :: 0 <= i < j < |cells| ==> cells[i].hint != cells[j].hint)
  }

  // the allocation loop of HostFunctionCallback, receiver first
  method WrapArguments(l: Library, ca: Addr, cells: seq<Cell>) returns (ps: array<Addr>)
    requires FreshHints(l.heap, cells)
    modifies l`heap, l`nextSerial
    ensures fresh(ps) && (l.State(), ps[..]) == Programs.WrapAll(old(l.State()), ca, cells)
  {
    hide ValsOf, CtxsOf, FreshHints, Programs.WrapAll, WrapBorrowed;
    ps := new Addr[|cells|];
    var i := 0;
    assert cells[0..] == cells;
    while i < |cells|
      invariant 0 <= i <= |cells|
      invariant FreshHints(l.heap, cells[i..])
      invariant Programs.WrapAll(old(l.State()), ca, cells).0 == Programs.WrapAll(l.State(), ca, cells[i..]).0
      invariant Programs.WrapAll(old(l.State()), ca, cells).1 == ps[..i] + Programs.WrapAll(l.State(), ca, cells[i..]).1
    {
      WrapAllStep(l.State(), ca, cells, i);
      FreshRest(l.State(), ca, cells, i);
      l.WrapBorrowedValue(ca, cells[i].js, cells[i].hint);
      ps[i] := cells[i].hint;
      assert ps[..i + 1] == ps[..i] + [ps[i]];
      i := i + 1;
    }
    WrapAllNone(l.State(), ca, cells, i);
    assert ps[..i] == ps[..];
    assert Programs.WrapAll(old(l.State()), ca, cells).1 == ps[..];
  }

  lemma WrapAllNone(w: World, ca: Addr, cells: seq<Cell>, i: nat)
    requires i == |cells|
    ensures Programs.WrapAll(w, ca, cells[i..]) == (w, [])
  {
  }

  lemma WrapAllStep(w: World, ca: Addr, cells: seq<Cell>, i: nat)
    requires i < |cells|
    ensures var (w1, p) := WrapBorrowed(w, ca, cells[i].js, cells[i].hint);
      Programs.WrapAll(w, ca, cells[i..]) ==
        (Programs.WrapAll(w1, ca, cells[i + 1..]).0, [p] + Programs.WrapAll(w1, ca, cells[i + 1..]).1)
  {
    assert cells[i..][1..] == cells[i + 1..];
  }

  lemma FreshRest(w: World, ca: Addr, cells: seq<Cell>, i: nat)
    requires i < |cells| && FreshHints(w.heap, cells[i..])
    ensures cells[i].hint != 0 && cells[i].hint !in w.heap
    ensures FreshHints(WrapBorrowed(w, ca, cells[i].js, cells[i].hint).0.heap, cells[i + 1..])
  {
    var rest, next := cells[i..], cells[i + 1..];
    assert rest[0] == cells[i];
    forall j {:trigger next[j]} | 0 <= j < |next|
      ensures next[j].hint != 0 && next[j].hint !in w.heap && next[j].hint != cells[i].hint
    {
      assert next[j] == rest[j + 1] && rest[0].hint != rest[j + 1].hint;
    }
    forall j, k {:trigger next[j], next[k]} | 0 <= j < k < |next| ensures next[j].hint != next[k].hint {
      assert rest[j + 1].hint != rest[k + 1].hint;
    }
  }

  // The frame's cells are there to be released, each once.
  ghost predicate Releasable(w: World, ps: seq<Addr>) {
    && (forall i {:trigger ps[i]} :: 0 <= i < |ps| ==> ps[i] in w.heap && w.heap[ps[i]].id == 0)
    && (forall i, j {:trigger ps[i], ps[j]} :: 0 <= i < j < |ps| ==> ps[i] != ps[j])
  }

  // the release loop of HostFunctionCallback
  method ReleaseArguments(l: Library, ps: array<Addr>)
    requires Releasable(l.State(), ps[..])
    modifies l`heap, l`nctxs, l`freed
    ensures l.State() == Programs.NativeReleaseAll(old(l.State()), ps[..]) && ps[..] == old(ps[..])
  {
    hide ValsOf, CtxsOf, Releasable, Programs.NativeReleaseAll, NativeRelease;
    var i := 0;
    assert ps[0..] == ps[..];
    while i < ps.Length
      invariant 0 <= i <= ps.Length && Releasable(l.State(), ps[i..])
      invariant Programs.NativeReleaseAll(old(l.State()), ps[..]) == Programs.NativeReleaseAll(l.State(), ps[i..])
    {
      ReleaseStep(l.State(), ps[..], i);
      assert ps[..][i..] == ps[i..] && ps[..][i + 1..] == ps[i + 1..];
      l.ValueRelease(ps[i]);
      i := i + 1;
    }
    assert ps[i..] == [];
    ReleaseNone(l.State());
  }

  lemma ReleaseNone(w: World)
    ensures Programs.NativeReleaseAll(w, []) == w
  {
  }

  lemma ReleaseStep(w: World, ps: seq<Addr>, i: nat)
    requires i < |ps| && Releasable(w, ps[i..])
    ensures ps[i] in w.heap && w.heap[ps[i]].id == 0
    ensures Releasable(NativeRelease(w, ps[i]), ps[i + 1..])
    ensures Programs.NativeReleaseAll(w, ps[i..]) == Programs.NativeReleaseAll(NativeRelease(w, ps[i]), ps[i + 1..])
  {
    var rest, next := ps[i..], ps[i + 1..];
    assert rest[0] == ps[i] && rest[1..] == next;
    forall j {:trigger next[j]} | 0 <= j < |next| ensures next[j] in w.heap && w.heap[next[j]].id == 0 && next[j] != ps[i] {
      assert next[j] == rest[j + 1] && rest[0] != rest[j + 1];
    }
    forall j, k {:trigger next[j], next[k]} | 0 <= j < k < |next| ensures next[j] != next[k] {
      assert rest[j + 1] != rest[k + 1];
    }
  }

  ghost function NamesOf(vs: seq<Value>): seq<Ref> {
    seq(|vs|, i requires 0 <= i < |vs| => vs[i].name)
  }

  lemma NamesSnoc(vs: seq<Value>, v: Value)
    ensures NamesOf(vs + [v]) == NamesOf(vs) + [v.name]
  {
  }

  // the views of gv8FunctionCallback on receiver and arguments
  method MakeViews(l: Library, c: Context, ps: array<Addr>) returns (vs: seq<Value>)
    requires l.Valid() && l.KnownContext(c)
    requires forall i {:trigger ps[i]} :: 0 <= i < ps.Length ==> ps[i] in l.heap && ps[i] != 0
    modifies l`nextRef, l`values
    ensures l.Valid() && (l.State(), NamesOf(vs)) == Programs.ViewAll(old(l.State()), c.ref, ps[..])
    ensures forall v {:trigger v in vs} :: v in vs ==> l.KnownValue(v) && v.borrowed
  {
    hide ValsOf, CtxsOf, Names, Consistent, NamesOf, NewBorrowed, Programs.ViewAll;
    vs := [];
    var i := 0;
    NoNamesOf();
    assert ps[0..] == ps[..];
    while i < ps.Length
      invariant 0 <= i <= ps.Length && l.Valid() && l.heap == old(l.heap)
      invariant forall v {:trigger v in vs} :: v in vs ==> l.KnownValue(v) && v.borrowed
      invariant Programs.ViewAll(old(l.State()), c.ref, ps[..]).0 == Programs.ViewAll(l.State(), c.ref, ps[i..]).0
      invariant Programs.ViewAll(old(l.State()), c.ref, ps[..]).1 == NamesOf(vs) + Programs.ViewAll(l.State(), c.ref, ps[i..]).1
    {
      ViewAllStep(l.State(), c.ref, ps[..], i);
      assert ps[..][i..] == ps[i..] && ps[..][i + 1..] == ps[i + 1..];
      var v := l.NewBorrowedValue(c, ps[i], l.heap[ps[i]].js);
      NamesSnoc(vs, v);
      vs := vs + [v];
      i := i + 1;
    }
    assert ps[i..] == [];
    ViewAllNone(l.State(), c.ref);
    assert Programs.ViewAll(old(l.State()), c.ref, ps[..]).1 == NamesOf(vs);
  }

  lemma NoNamesOf()
    ensures NamesOf([]) == []
  {
  }

  lemma ViewAllNone(w: World, c: CtxRef)
    ensures Programs.ViewAll(w, c, []) == (w, [])
  {
  }

  lemma ViewAllStep(w: World, c: CtxRef, ps: seq<Addr>, i: nat)
    requires i < |ps| && ps[i] in w.heap && ps[i] != 0
    ensures var (w1, v) := NewBorrowed(w, c, ps[i], w.heap[ps[i]].js);
      && v == w.nextRef
      && Programs.ViewAll(w, c, ps[i..]) ==
          (Programs.ViewAll(w1, c, ps[i + 1..]).0, [v] + Programs.ViewAll(w1, c, ps[i + 1..]).1)
  {
    assert ps[i..][0] == ps[i] && ps[i..][1..] == ps[i + 1..];
  }

  // the release closure of gv8FunctionCallback
  method InvalidateViews(l: Library, vs: seq<Value>)
    requires l.Valid() && forall v {:trigger v in vs} :: v in vs ==> l.KnownValue(v)
    modifies (set v | v in vs)`ptr
    ensures l.Valid() && l.State() == Programs.InvalidateAll(old(l.State()), NamesOf(vs))
  {
    hide ValsOf, CtxsOf, Names, Consistent, NamesOf, Invalidate, Programs.InvalidateAll;
    var i := 0;
    assert vs[0..] == vs;
    while i < |vs|
      invariant 0 <= i <= |vs| && l.Valid()
      invariant Programs.InvalidateAll(old(l.State()), NamesOf(vs)) == Programs.InvalidateAll(l.State(), NamesOf(vs[i..]))
    {
      InvalidateStep(l.State(), vs, i);
      l.Clear(vs[i]);
      i := i + 1;
    }
    assert vs[i..] == [];
    NoNamesOf();
    InvalidateNone(l.State());
  }

  lemma InvalidateNone(w: World)
    ensures Programs.InvalidateAll(w, []) == w
  {
  }

  lemma InvalidateStep(w: World, vs: seq<Value>, i: nat)
    requires i < |vs|
    ensures Programs.InvalidateAll(w, NamesOf(vs[i..])) == Programs.InvalidateAll(Invalidate(w, vs[i].name), NamesOf(vs[i + 1..]))
  {
    assert NamesOf(vs[i..])[1..] == NamesOf(vs[i + 1..]);
  }

  /* ---- arguments of a Go call ---- */

  // what materializeValue is given
  datatype GoArg = Given(v: Value) | Temp(js: Js, hint: Addr) | Failing

  ghost function ArgOf(a: GoArg): Programs.Arg {
    match a
    case Given(v) => Programs.Given(v.name)
    case Temp(js, hint) => Programs.Temp(js, hint)
    case Failing => Programs.Failing
  }

  ghost function ArgsOf(args: seq<GoArg>): seq<Programs.Arg> {
    seq(|args|, i requires 0 <= i < |args| => ArgOf(args[i]))
  }

  // The addresses the allocator will hand out for the temporaries.
  ghost predicate FreshTemps(heap: map<Addr, NativeValue>, args: seq<GoArg>) {
    && (forall i {:trigger args[i]} :: 0 <= i < |args| && args[i].Temp? ==> args[i].hint != 0 && args[i].hint !in heap)
    && (forall i, j {:trigger args[i], args[j]} ::
          0 <= i < j < |args| && args[i].Temp? && args[j].Temp? ==> args[i].hint != args[j].hint)
  }

  ghost function Temporary(w: World, c: CtxRef, js: Js, hint: Addr): (World, Ref) {
    if c !in w.ctxs then (w, 0)
    else
      var (w1, p) := Wrap(w, w.ctxs[c].ptr, js, hint);
      Programs.NewHidden(w1, c, p, js)
  }

  // NewStringValue and the like, for a value that only the library sees
  method NewTemporary(l: Library, c: Context, js: Js, hint: Addr, ghost b: Busy) returns (v: Value)
    requires l.Valid() && l.KnownContext(c) && Inv(l.State(), b) && !c.closed && c.ptr != 0
    requires hint != 0 && hint !in l.heap
    modifies l`heap, l`nctxs, l`nextSerial, l`nextRef, l`values, l`hidden, c`liveValues
    ensures l.Valid() && l.KnownContext(c) && l.KnownValue(v) && v.name !in l.orphans && l.orphans == old(l.orphans)
    ensures fresh(v) && v.ctx == c
    ensures (l.State(), v.name) == Temporary(old(l.State()), c.ref, js, hint)
    ensures l.heap.Keys == old(l.heap.Keys) + {hint} && Inv(l.State(), b) && Open(l.State(), c.ref)
    ensures forall r {:trigger r in old(l.values)} :: r in old(l.values) ==> r in l.values && l.values[r] == old(l.values[r])
  {
    hide ValsOf, CtxsOf, Names, Consistent, Inv, Wrap, Handles.NewValue;
    l.ContextView(c);
    TemporaryKeeps(l.State(), b, c.ref, js, hint);
    l.WrapValue(c.ptr, js, hint);
    ghost var w1 := l.State();
    v := l.NewValue(c, hint, js);
    l.hidden := l.hidden + {v.name};
  }

  lemma TemporaryKeeps(w: World, b: Busy, c: CtxRef, js: Js, hint: Addr)
    requires Inv(w, b) && Open(w, c) && hint != 0 && hint !in w.heap
    ensures w.ctxs[c].ptr in w.nctxs && Wrap(w, w.ctxs[c].ptr, js, hint).1 == hint
    ensures var (w2, v) := Programs.NewHidden(Wrap(w, w.ctxs[c].ptr, js, hint).0, c, hint, js);
      && Inv(w2, b) && w2.heap.Keys == w.heap.Keys + {hint} && v == w.nextRef && v !in w2.orphans && w2.orphans == w.orphans
      && w2.hidden == w.hidden + {v} && w2 == NewValue(Wrap(w, w.ctxs[c].ptr, js, hint).0, c, hint, js).0.(hidden := w2.hidden)
      && v == NewValue(Wrap(w, w.ctxs[c].ptr, js, hint).0, c, hint, js).1
      && Open(w2, c)
  {
    OpenNative(w, b, c);
    NewHiddenSafe(w, b, c, js, hint);
    assert Wrap(w, w.ctxs[c].ptr, js, hint).1 == hint;
    var (w1, p) := Wrap(w, w.ctxs[c].ptr, js, hint);
    assert w1.hidden == w.hidden;
    hide Inv, Keeps, Wrap;
  }

  // Release for each temporary
  method RunCleanups(l: Library, cleanups: seq<Value>, ghost b: Busy)
    requires l.Valid() && Inv(l.State(), b)
    requires forall v {:trigger v in cleanups} :: v in cleanups ==> l.KnownValue(v) && v.name !in l.orphans
    modifies l`heap, l`nctxs, l`freed, (set v | v in cleanups)`ptr, (set v | v in cleanups :: v.ctx)`liveValues
    ensures l.Valid() && l.State() == Programs.ReleaseAll(old(l.State()), NamesOf(cleanups))
  {
    hide ValsOf, CtxsOf, Names, Consistent, NamesOf, Inv, Release, Programs.ReleaseAll;
    var i := 0;
    assert cleanups[0..] == cleanups;
    while i < |cleanups|
      invariant 0 <= i <= |cleanups| && l.Valid() && Inv(l.State(), b)
      invariant Programs.ReleaseAll(old(l.State()), NamesOf(cleanups)) == Programs.ReleaseAll(l.State(), NamesOf(cleanups[i..]))
    {
      assert cleanups[i] in cleanups;
      CleanupStep(l.State(), cleanups, i);
      ReleaseKeepsInv(l.State(), b, cleanups[i].name);
      l.Release(cleanups[i], b);
      i := i + 1;
    }
    assert cleanups[i..] == [];
    NoNamesOf();
    CleanupNone(l.State());
  }

  lemma CleanupNone(w: World)
    ensures Programs.ReleaseAll(w, []) == w
  {
  }

  lemma CleanupStep(w: World, vs: seq<Value>, i: nat)
    requires i < |vs|
    ensures Programs.ReleaseAll(w, NamesOf(vs[i..])) == Programs.ReleaseAll(Release(w, vs[i].name), NamesOf(vs[i + 1..]))
  {
    assert NamesOf(vs[i..])[1..] == NamesOf(vs[i + 1..]);
  }

  // Materialize, from argument i on, after argv and temps have been made
  ghost predicate Progress(w0: World, w: World, c: CtxRef, args: seq<GoArg>, i: nat, argv: seq<Ref>, temps: seq<Ref>)
    requires i <= |args|
  {
    && Open(w0, c) && Open(w, c)
    && var m0 := Programs.Materialize(w0, c, ArgsOf(args));
       var m := Programs.Materialize(w, c, ArgsOf(args[i..]));
       m0 == Programs.Materialized(m.w, argv + m.argv, temps + m.temps, m.ok)
  }

  lemma ProgressStart(w: World, c: CtxRef, args: seq<GoArg>)
    requires Open(w, c)
    ensures Progress(w, w, c, args, 0, [], [])
  {
    assert args[0..] == args;
    var m := Programs.Materialize(w, c, ArgsOf(args));
    assert [] + m.argv == m.argv && [] + m.temps == m.temps;
  }

  lemma ArgsTail(args: seq<GoArg>, i: nat)
    requires i < |args|
    ensures ArgsOf(args[i..]) != [] && ArgsOf(args[i..])[0] == ArgOf(args[i]) && ArgsOf(args[i..])[1..] == ArgsOf(args[i + 1..])
  {
  }

  lemma ProgressGiven(w0: World, w: World, c: CtxRef, args: seq<GoArg>, i: nat, argv: seq<Ref>, temps: seq<Ref>)
    requires i < |args| && Progress(w0, w, c, args, i, argv, temps) && args[i].Given?
    ensures Progress(w0, w, c, args, i + 1, argv + [args[i].v.name], temps)
  {
    ArgsTail(args, i);
    var m := Programs.Materialize(w, c, ArgsOf(args[i + 1..]));
    assert argv + ([args[i].v.name] + m.argv) == argv + [args[i].v.name] + m.argv;
  }

  lemma ProgressTemp(w0: World, w: World, c: CtxRef, args: seq<GoArg>, i: nat, argv: seq<Ref>, temps: seq<Ref>, w1: World, t: Ref)
    requires i < |args| && Progress(w0, w, c, args, i, argv, temps) && args[i].Temp?
    requires (w1, t) == Temporary(w, c, args[i].js, args[i].hint) && Open(w1, c)
    ensures Progress(w0, w1, c, args, i + 1, argv + [t], temps + [t])
  {
    ArgsTail(args, i);
    var m := Programs.Materialize(w1, c, ArgsOf(args[i + 1..]));
    assert argv + ([t] + m.argv) == argv + [t] + m.argv && temps + ([t] + m.temps) == temps + [t] + m.temps;
  }

  // At a failing argument, or at the end, nothing is added any more.
  lemma ProgressStop(w0: World, w: World, c: CtxRef, args: seq<GoArg>, i: nat, argv: seq<Ref>, temps: seq<Ref>)
    requires i <= |args| && Progress(w0, w, c, args, i, argv, temps) && (i < |args| ==> args[i].Failing?)
    ensures Programs.Materialize(w0, c, ArgsOf(args)) == Programs.Materialized(w, argv, temps, i == |args|)
  {
    if i < |args| { ArgsTail(args, i); } else { assert ArgsOf(args[i..]) == []; }
    assert argv + [] == argv && temps + [] == temps;
  }

  ghost predicate ArgsKnown(l: Library, c: Context, args: seq<GoArg>)
    reads l`values, l`contexts
  {
    l.KnownContext(c) && forall i {:trigger args[i]} :: 0 <= i < |args| && args[i].Given? ==> l.KnownValue(args[i].v)
  }

  lemma FreshTempsFirst(heap: map<Addr, NativeValue>, args: seq<GoArg>, i: nat)
    requires i < |args| && FreshTemps(heap, args[i..])
    ensures args[i].Temp? ==> args[i].hint != 0 && args[i].hint !in heap
  {
    assert args[i..][0] == args[i];
  }

  lemma FreshTempsStep(heap: map<Addr, NativeValue>, heap': map<Addr, NativeValue>, args: seq<GoArg>, i: nat)
    requires i < |args| && FreshTemps(heap, args[i..])
    requires heap'.Keys == heap.Keys + (if args[i].Temp? then {args[i].hint} else {})
    ensures FreshTemps(heap', args[i + 1..])
  {
    var rest, next := args[i..], args[i + 1..];
    assert rest[0] == args[i];
    forall j {:trigger next[j]} | 0 <= j < |next| && next[j].Temp? ensures next[j].hint != 0 && next[j].hint !in heap' {
      assert next[j] == rest[j + 1];
      assert rest[0].Temp? ==> rest[0].hint != rest[j + 1].hint;
    }
    forall j, k {:trigger next[j], next[k]} | 0 <= j < k < |next| && next[j].Temp? && next[k].Temp? ensures next[j].hint != next[k].hint {
      assert next[j] == rest[j + 1] && next[k] == rest[k + 1];
    }
  }

  // materializeArgs: on failure, every temporary made so far is released again
  method MaterializeArgs(l: Library, c: Context, args: seq<GoArg>, ghost b: Busy)
    returns (ok: bool, argv: seq<Value>, cleanups: seq<Value>)
    requires l.Valid() && ArgsKnown(l, c, args) && Inv(l.State(), b) && !c.closed && c.ptr != 0
    requires FreshTemps(l.heap, args)
    modifies l`heap, l`nctxs, l`nextSerial, l`nextRef, l`values, l`hidden, l`freed, c`liveValues
    ensures l.Valid()
    ensures Open(old(l.State()), c.ref)
    ensures var m := Programs.Materialize(old(l.State()), c.ref, ArgsOf(args));
      && ok == m.ok
      && (ok ==> l.State() == m.w && NamesOf(argv) == m.argv && NamesOf(cleanups) == m.temps)
      && (!ok ==> l.State() == Programs.ReleaseAll(m.w, m.temps) && argv == [] && cleanups == [])
  {
    hide ValsOf, CtxsOf, Names, Consistent, NamesOf, Inv, FreshTemps, Programs.Materialize, Programs.ReleaseAll, Temporary;
    l.ContextView(c);
    NoNamesOf();
    ProgressStart(l.State(), c.ref, args);
    argv, cleanups := [], [];
    var i := 0;
    assert args[0..] == args;
    while i < |args| && !args[i].Failing?
      invariant 0 <= i <= |args|
      invariant l.Valid() && ArgsKnown(l, c, args) && Inv(l.State(), b) && FreshTemps(l.heap, args[i..])
      invariant forall v {:trigger v in cleanups} :: v in cleanups ==>
        l.KnownValue(v) && v.name !in l.orphans && fresh(v) && v.ctx == c
      invariant Progress(old(l.State()), l.State(), c.ref, args, i, NamesOf(argv), NamesOf(cleanups))
    {
      ghost var w, heap, ns, ts := l.State(), l.heap, NamesOf(argv), NamesOf(cleanups);
      FreshTempsFirst(heap, args, i);
      match args[i] {
        case Given(v) =>
          ProgressGiven(old(l.State()), w, c.ref, args, i, ns, ts);
          NamesSnoc(argv, v);
          argv := argv + [v];
        case Temp(js, hint) =>
          var t := NewTemporary(l, c, js, hint, b);
          ProgressTemp(old(l.State()), w, c.ref, args, i, ns, ts, l.State(), t.name);
          NamesSnoc(argv, t);
          NamesSnoc(cleanups, t);
          argv, cleanups := argv + [t], cleanups + [t];
      }
      FreshTempsStep(heap, l.heap, args, i);
      i := i + 1;
    }
    ProgressStop(old(l.State()), l.State(), c.ref, args, i, NamesOf(argv), NamesOf(cleanups));
    ok := i == |args|;
    if !ok {
      RunCleanups(l, cleanups, b);
      argv, cleanups := [], [];
    }
  }

  // cArgv: argv[i] is the handle of argument i
  method CArgv(args: seq<Value>) returns (argv: array<Addr>)
    ensures fresh(argv) && argv.Length == |args|
    ensures forall i :: 0 <= i < |args| ==> argv[i] == args[i].ptr
  {
    argv := new Addr[|args|];
    for i := 0 to |args|
      invariant forall j :: 0 <= j < i ==> argv[j] == args[j].ptr
    {
      argv[i] := args[i].ptr;
    }
  }
}
