/** What one API call leaves behind: its result, its registration, and none of its temporaries. */
module Calls {
  import opened Handles
  import opened HandleInvariants
  import opened Framing
  import opened FramingPrimitives
  import opened Programs
  import opened HandleLists
  import opened HostCalls
  import opened HostReturns
  import opened ProgramSafety
  import opened Moments
  import opened Runs
  import opened Conservation
  import opened Arguments

  // v is a new wrapper for js in context c, with a new cell of its own; no other cell or wrapper changes.
  ghost predicate NewCell(w: World, w': World, c: CtxRef, js: Js, v: Ref) {
    && v == w.nextRef && v !in w.vals && v !in w.hidden && v in w'.vals && v !in w'.orphans
    && w'.orphans == w.orphans && w'.answers == w.answers
    && var p := w'.vals[v].ptr;
      && p != 0 && p !in w.heap && p in w'.heap && w'.heap[p].js == js && w'.heap == w.heap[p := w'.heap[p]]
      && w'.vals == w.vals[v := GoValue(p, c, false, js)] && Valid(w', v)
  }

  // The caller receives it.
  ghost predicate NewOwner(w: World, w': World, c: CtxRef, js: Js, v: Ref) {
    NewCell(w, w', c, js, v) && w'.hidden == w.hidden
  }

  // The library drops it.
  ghost predicate NewUnseen(w: World, w': World, c: CtxRef, js: Js, v: Ref) {
    NewCell(w, w', c, js, v) && w'.hidden == w.hidden + {v}
  }

  // wrapValue followed by newValue
  lemma ResultShape(w: World, b: Busy, c: CtxRef, js: Js, hint: Addr)
    requires Inv(w, b) && Open(w, c)
    ensures var (w1, p) := Wrap(w, w.ctxs[c].ptr, js, hint);
      var (w2, v) := NewValue(w1, c, p, js);
      v == w.nextRef && NewOwner(w, w2, c, js, v) && SameTables(w, w2)
  {
    OpenNative(w, b, c);
    assert w.nextRef !in w.vals && w.nextRef !in w.hidden && w.nextRef !in w.orphans && 0 < w.nextRef;
    WrapNewTables(w, w.ctxs[c].ptr, c, js, hint);
    hide Inv, SameTables;
  }

  lemma HiddenShape(w: World, b: Busy, c: CtxRef, js: Js, hint: Addr)
    requires Inv(w, b) && Open(w, c)
    ensures var (w1, p) := Wrap(w, w.ctxs[c].ptr, js, hint);
      var (w2, v) := NewHidden(w1, c, p, js);
      v == w.nextRef && NewUnseen(w, w2, c, js, v) && SameTables(w, w2)
  {
    assert 0 < w.nextRef;
    hide Inv, Wrap, NewValue;
    ResultShape(w, b, c, js, hint);
  }

  // Context.RunScript, Context.NewObject, Module.Evaluate and the like, whatever JavaScript does in between: on a
  // context that is not open, nothing; without a value, what JavaScript did; with one, that and a new owner of the
  // value, valid and in the caller's hands, or dropped by the library if the call keeps no result.
  lemma CreateNet(w: World, b: Busy, c: CtxRef, inner: seq<Upcall>, out: Outcome, kept: bool)
    requires Inv(w, b) && PinsSound(w, b) && !Step(w, b, Create(c, inner, out, kept)).rogue
    ensures var w1 := Upcalls(w, Inside(b, c), inner);
      var w' := Step(w, b, Create(c, inner, out, kept));
      && (!Open(w, c) ==> w' == w)
      && (Open(w, c) && out.NoValue? ==> w' == w1)
      && (Open(w, c) && out.Yields? && kept ==> NewOwner(w1, w', c, out.js, w1.nextRef) && SameTables(w1, w'))
      && (Open(w, c) && out.Yields? && !kept ==> NewUnseen(w1, w', c, out.js, w1.nextRef) && SameTables(w1, w'))
  {
    hide *;
    var w1 := Upcalls(w, Inside(b, c), inner);
    CreateIs(w, b, c, inner, out, kept);
    if Open(w, c) {
      CreateSafely(w, b, c, inner);
      if out.Yields? {
        ResultShape(w1, b, c, out.js, out.hint);
        HiddenShape(w1, b, c, out.js, out.hint);
      }
    }
  }

  lemma CreateIs(w: World, b: Busy, c: CtxRef, inner: seq<Upcall>, out: Outcome, kept: bool)
    ensures var w' := Step(w, b, Create(c, inner, out, kept));
      var w1 := Upcalls(w, Inside(b, c), inner);
      && (!Open(w, c) ==> w' == w)
      && (Open(w, c) && out.NoValue? ==> w' == w1)
      && (Open(w, c) && out.Yields? ==>
            c in w.ctxs && var (w2, p) := Wrap(w1, w.ctxs[c].ptr, out.js, out.hint);
              w' == if kept then NewValue(w2, c, p, out.js).0 else NewHidden(w2, c, p, out.js).0)
      && (Open(w, c) && w1.rogue ==> w'.rogue)
  {
    hide Wrap, NewValue, NewHidden;
    assert Step(w, b, Create(c, inner, out, kept)) == StepCreate(w, b, Create(c, inner, out, kept));
  }

  // JavaScript in a context leaves it open, at the same native context.
  lemma CreateSafely(w: World, b: Busy, c: CtxRef, inner: seq<Upcall>)
    requires Inv(w, b) && PinsSound(w, b) && Open(w, c) && !Upcalls(w, Inside(b, c), inner).rogue
    ensures var w1 := Upcalls(w, Inside(b, c), inner);
      Inv(w1, b) && c in w.ctxs && Open(w1, c) && c in w1.ctxs && w1.ctxs[c].ptr == w.ctxs[c].ptr
  {
    var b1 := Inside(b, c);
    var w1 := Upcalls(w, b1, inner);
    InvWeaken(w, b, b1);
    assert PinsSound(w, b1) && c in b1.ctxs;
    UpcallsSafe(w, b1, inner);
    assert Open(w1, c) && w1.ctxs[c].ptr == w.ctxs[c].ptr;
    hide Inv, Keeps;
    Unpin(w, w1, b, b1);
  }

  // What registering a fresh id for c makes of w.
  ghost function WithId(w: World, c: CtxRef): World
    requires c in w.ctxs
  {
    var id := w.fnSeq + 1;
    w.(fnSeq := id, fns := w.fns[id := c], ctxs := w.ctxs[c := w.ctxs[c].(fns := w.ctxs[c].fns + {id})])
  }

  // NewFunction on an open context registers one fresh id for it and yields a valid function value.  If native code
  // fails, nothing else is new, and the id is unregistered exactly if there is an error message.
  lemma NewFunctionNet(w: World, b: Busy, c: CtxRef, out: Outcome)
    requires Inv(w, b) && Open(w, c)
    ensures var w' := NewFunction(w, c, out);
      var id := w.fnSeq + 1;
      && id !in w.fns && w'.fnSeq == id && c in w'.ctxs && id in w'.ctxs[c].fns
      && (out.Yields? ==> w'.fns == w.fns[id := c] && NewOwner(w, w', c, out.js, w.nextRef))
      && (out.Yields? ==> SameTables(WithId(w, c).(functions := w.functions + {HostFn(id, c)}), w'))
      && (out.NoValue? ==> w' == if out.message then WithId(w, c).(fns := w.fns) else WithId(w, c))
      && (out.NoValue? ==> (w'.fns == w.fns <==> out.message))
      && w'.functions == w.functions + if out.Yields? then {HostFn(id, c)} else {}
  {
    hide *;
    OpenKnown(w, c);
    var w1 := Registered(w, c);
    var w2 := FunctionMade(w1, c);
    RegisteredFacts(w, b, c);
    NewFunctionIs(w, c, out);
    RegisteredSafe(w, b, c);
    if out.Yields? {
      LastIdIsNew(w, b, c);
      MadeSafe(w1, b, c);
      MadeFacts(w1, c);
      ResultShape(w2, b, c, out.js, out.hint);
      NewFunctionKeepsSeq(w2, c, out.js, out.hint);
      OwnerFromHere(w, w2, NewFunction(w, c, out), c, out.js);
    }
  }

  lemma NewFunctionIs(w: World, c: CtxRef, out: Outcome)
    requires Open(w, c)
    ensures c in w.ctxs
    ensures var w1 := Registered(w, c);
      NewFunction(w, c, out) == match out
        case NoValue(message) => if message then w1.(fns := w1.fns - {w1.fnSeq}) else w1
        case Yields(js, hint) =>
          var (w2, p) := Wrap(FunctionMade(w1, c), w.ctxs[c].ptr, js, hint);
          NewValue(w2, c, p, js).0
  {
    hide Wrap, NewValue;
  }

  lemma FreshId(w: World, b: Busy)
    requires Inv(w, b)
    ensures w.fnSeq + 1 !in w.fns
  {
  }

  lemma RegisteredFacts(w: World, b: Busy, c: CtxRef)
    requires Inv(w, b) && Open(w, c)
    ensures var w1 := Registered(w, c);
      && w.fnSeq + 1 !in w.fns && w1.fnSeq == w.fnSeq + 1 && w1.fns == w.fns[w1.fnSeq := c] && w1.fns - {w1.fnSeq} == w.fns
      && w1.functions == w.functions && w1.heap == w.heap && w1.vals == w.vals && w1.nextRef == w.nextRef && Open(w1, c)
      && w1.hidden == w.hidden && w1.orphans == w.orphans && w1.answers == w.answers
      && c in w.ctxs && c in w1.ctxs && w1.ctxs[c].ptr == w.ctxs[c].ptr && w1.fnSeq in w1.ctxs[c].fns
      && w1 == WithId(w, c) && w1.(fns := w1.fns - {w1.fnSeq}) == WithId(w, c).(fns := w.fns)
  {
    hide Inv;
    FreshId(w, b);
  }

  lemma MadeFacts(w: World, c: CtxRef)
    requires Open(w, c)
    ensures var w' := FunctionMade(w, c);
      && w' == w.(functions := w.functions + {HostFn(w.fnSeq, c)})
      && w'.functions == w.functions + {HostFn(w.fnSeq, c)} && w'.heap == w.heap && w'.vals == w.vals && w'.nextRef == w.nextRef
      && w'.fnSeq == w.fnSeq && w'.fns == w.fns && w'.ctxs == w.ctxs && Open(w', c)
      && w'.hidden == w.hidden && w'.orphans == w.orphans && w'.answers == w.answers
  {
  }

  lemma OwnerFromHere(w: World, w1: World, w': World, c: CtxRef, js: Js)
    requires NewOwner(w1, w', c, js, w.nextRef) && w1.heap == w.heap && w1.vals == w.vals && w1.nextRef == w.nextRef
    requires w1.hidden == w.hidden && w1.orphans == w.orphans && w1.answers == w.answers
    ensures NewOwner(w, w', c, js, w.nextRef)
  {
  }

  lemma NewFunctionKeepsSeq(w: World, c: CtxRef, js: Js, hint: Addr)
    requires c in w.ctxs
    ensures var (w1, p) := Wrap(w, w.ctxs[c].ptr, js, hint);
      var w2 := NewValue(w1, c, p, js).0;
      w2.fnSeq == w.fnSeq && w2.fns == w.fns && w2.functions == w.functions && c in w2.ctxs && w2.ctxs[c].fns == w.ctxs[c].fns
  {
  }

  /* ---- one step at a time ---- */

  // NewFunction as a step: nothing on a context that is not open.
  lemma NewFnNet(w: World, b: Busy, c: CtxRef, out: Outcome)
    requires Inv(w, b)
    ensures var w' := Step(w, b, NewFn(c, out));
      var id := w.fnSeq + 1;
      && (!Open(w, c) ==> w' == w)
      && (Open(w, c) ==>
            && c in w.ctxs && id !in w.fns
            && match out
               case NoValue(message) => w' == if message then WithId(w, c).(fns := w.fns) else WithId(w, c)
               case Yields(js, _) =>
                 && NewOwner(w, w', c, js, w.nextRef)
                 && SameTables(WithId(w, c).(functions := w.functions + {HostFn(id, c)}), w'))
  {
    hide NewOwner, SameTables, Inv, Wrap, NewValue;
    if Open(w, c) { NewFunctionNet(w, b, c, out); }
  }

  // A global handle, or a local one made from it, is a second owner of the same JavaScript value: a cell of its own
  // in the same context, and the original as it was.  Of a wrapper that is not valid there is none.
  lemma RetainNet(w: World, b: Busy, v: Ref, hint: Addr)
    requires Inv(w, b)
    ensures var w' := Step(w, b, Retain(v, hint));
      && (Nameable(w, v) && Valid(w, v) ==>
            NewOwner(w, w', w.vals[v].ctx, w.vals[v].born, w.nextRef) && SameTables(w, w'))
      && (!Nameable(w, v) || !Valid(w, v) ==> w' == w)
  {
    hide *;
    RetainIs(w, b, v, hint);
    if Nameable(w, v) && Valid(w, v) { ResultShape(w, b, w.vals[v].ctx, w.vals[v].born, hint); }
  }

  lemma RetainIs(w: World, b: Busy, v: Ref, hint: Addr)
    requires Inv(w, b)
    ensures var w' := Step(w, b, Retain(v, hint));
      && (!Nameable(w, v) || !Valid(w, v) ==> w' == w)
      && (Nameable(w, v) && Valid(w, v) ==>
            && v in w.vals && Open(w, w.vals[v].ctx) && w.vals[v].ctx in w.ctxs
            && var (w1, p) := Wrap(w, w.ctxs[w.vals[v].ctx].ptr, w.vals[v].born, hint);
              w' == NewValue(w1, w.vals[v].ctx, p, w.vals[v].born).0)
  {
    hide Inv, Wrap, NewValue;
    if Nameable(w, v) && Valid(w, v) {
      NotAnOrphan(w, b, v);
      BackedCell(w, b, v);
    }
    assert Step(w, b, Retain(v, hint)) == NewGlobalValue(w, v, hint);
  }

  // Releasing a wrapper that is not in use deletes the cell it owns, if any, and clears its pointer; a second time it
  // does nothing.  Nothing else changes, apart from what the wrapper's context tracks.
  lemma ReleaseNet(w: World, b: Busy, v: Ref)
    requires Inv(w, b) && Nameable(w, v) && v !in b.refs
    ensures var w' := Step(w, b, ReleaseValue(v));
      && Inv(w', b) && w'.heap == w.heap - OwnCells(w, [v])
      && w'.vals == w.vals[v := w.vals[v].(ptr := 0)]
      && SameTables(w, w') && w'.hidden == w.hidden && w'.orphans == w.orphans && w'.answers == w.answers && w'.nextRef == w.nextRef
      && (w.vals[v].ptr == 0 ==> w' == w)
      && Step(w', b, ReleaseValue(v)) == w'
  {
    hide *;
    var w' := Release(w, v);
    ReleaseStep(w, b, v);
    ReleaseExact(w, b, v);
    ReleaseTables(w, v);
    ReleaseWrappers(w, v);
    ReleaseStep(w', b, v);
    ReleaseNothing(w', v);
    if w.vals[v].ptr == 0 { ReleaseNothing(w, v); }
  }

  lemma ReleaseStep(w: World, b: Busy, v: Ref)
    requires v !in b.refs
    ensures Nameable(w, v) ==> Step(w, b, ReleaseValue(v)) == Release(w, v)
    ensures Inv(w, b) && Nameable(w, v) ==> v in w.vals && v !in w.orphans
    ensures v in w.vals && v !in w.hidden ==> Nameable(w, v)
    ensures Nameable(w, v) ==> v in w.vals && v !in w.hidden
    ensures var w' := Release(w, v);
      w'.hidden == w.hidden && w'.orphans == w.orphans && w'.answers == w.answers && w'.nextRef == w.nextRef
  {
    hide Release;
  }

  // A new context is open, under an unused ref and on a native context of its own, with nothing in it; nothing else
  // changes.
  lemma NewCtxNet(w: World, b: Busy, hint: Addr)
    requires Inv(w, b)
    ensures var w' := Step(w, b, NewCtx(hint));
      var c := w.ctxSeq + 1;
      && c !in w.ctxs && c in w'.ctxs && Open(w', c) && Inv(w', b)
      && var ca := w'.ctxs[c].ptr;
        && ca !in w.nctxs && ca in w'.nctxs && w'.nctxs == w.nctxs[ca := NativeCtx(c, map[], w'.nctxs[ca].nextId)]
        && w'.ctxs == w.ctxs[c := GoContext(ca, false, {}, {})]
        && w' == w.(nctxs := w'.nctxs, ctxs := w'.ctxs, ctxSeq := c)
  {
    NewContextKeepsInv(w, b, hint);
    hide Inv;
    assert Step(w, b, NewCtx(hint)) == NewContext(w, hint);
  }

  // The temporaries are gone.
  ghost predicate TempsGone(m: Materialized, w': World) {
    forall t {:trigger t in m.temps} :: t in m.temps ==>
      t in m.w.vals && t in w'.vals && w'.vals[t].ptr == 0 && m.w.vals[t].ptr !in w'.heap
  }

  // Before the cleanup: the temporaries are as they were made.
  ghost predicate TempsThere(m: Materialized, w: World) {
    forall t {:trigger t in m.temps} :: t in m.temps ==>
      t in m.w.vals && t in w.vals && w.vals[t] == m.w.vals[t] && t !in w.orphans && !w.vals[t].borrowed && w.vals[t].ptr != 0
  }

  lemma TempsSurvive(w: World, m: Materialized, w1: World, b1: Busy, c: CtxRef)
    requires ArgsMade(w, m, c) && TempsOf(m, c) && c in b1.ctxs
    requires Inv(m.w, b1) && Inv(w1, b1) && Keeps(m.w, w1, b1, {}, {})
    ensures TempsThere(m, w1)
  {
    forall t {:trigger t in m.temps} | t in m.temps
      ensures t in m.w.vals && t in w1.vals && w1.vals[t] == m.w.vals[t] && t !in w1.orphans && !w1.vals[t].borrowed
    {
      TempPinned(w, m, b1, c, t);
      assert SameWrapper(m.w, w1, t) && SameStanding(m.w, w1, t);
    }
  }

  // What is left when the JavaScript of a call has brought the world to w1: the temporaries of m are gone
  // with their cells; a value that was yielded has one new cell and one new valid wrapper, which the caller
  // receives; all other cells and wrappers, all contexts and the registry are as in w1.
  ghost predicate Finished(m: Materialized, w1: World, w': World, c: CtxRef, out: Outcome) {
    && TempsGone(m, w') && w'.orphans == w1.orphans && w'.hidden == w1.hidden && w'.answers == w1.answers && SameTables(w1, w')
    && (forall r {:trigger r in w1.vals} :: r in w1.vals && r !in m.temps ==> r in w'.vals && w'.vals[r] == w1.vals[r])
    && match out
       case NoValue(_) => w'.heap == w1.heap - OwnCells(m.w, m.temps) && w'.vals.Keys == w1.vals.Keys
       case Yields(js, _) =>
         var u := w1.nextRef;
         && u !in w1.vals && u !in w1.hidden && w'.vals.Keys == w1.vals.Keys + {u} && Valid(w', u)
         && var q := w'.vals[u].ptr;
           && w'.vals[u] == GoValue(q, c, false, js)
           && q !in w1.heap && q in w'.heap && w'.heap[q].js == js
           && w'.heap == w1.heap[q := w'.heap[q]] - OwnCells(m.w, m.temps)
  }

  // the end of a call: wrap the result, run the cleanups
  lemma CallEnds(m: Materialized, w1: World, b: Busy, c: CtxRef, out: Outcome)
    requires Inv(w1, b) && Open(w1, c) && TempsThere(m, w1)
    ensures var (w2, q) := match out case NoValue(_) => (w1, 0) case Yields(js, hint) => Wrap(w1, w1.ctxs[c].ptr, js, hint);
      Finished(m, w1, FinishCall(w2, c, q, out, m.temps), c, out)
  {
    hide *;
    match out
    case NoValue(_) =>
      NewValueOfNil(w1, c, Born(out));
      CleanUp(m, w1, w1, b);
      NothingFinished(m, w1, b, c, out);
      FinishIs(w1, c, 0, out, m.temps);
    case Yields(js, hint) =>
      OpenKnown(w1, c);
      var (w2, q) := Wrap(w1, w1.ctxs[c].ptr, js, hint);
      var w3 := NewValue(w2, c, q, js).0;
      ResultShape(w1, b, c, js, hint);
      WrapNewSafe(w1, b, c, js, hint);
      OwnerIsNew(w1, w3, c, js, m);
      CleanUp(m, w1, w3, b);
      ResultStays(w1, w3, b, c, js, m);
      ResultFinished(m, w1, w3, b, c, out);
      FinishIs(w2, c, q, out, m.temps);
  }

  lemma FinishIs(w: World, c: CtxRef, q: Addr, out: Outcome, temps: seq<Ref>)
    ensures FinishCall(w, c, q, out, temps) == ReleaseAll(NewValue(w, c, q, Born(out)).0, temps)
    ensures out.Yields? ==> Born(out) == out.js
  {
  }

  lemma NothingFinished(m: Materialized, w1: World, b: Busy, c: CtxRef, out: Outcome)
    requires Inv(w1, b) && TempsThere(m, w1) && out.NoValue? && TempsGone(m, ReleaseAll(w1, m.temps))
    ensures Finished(m, w1, ReleaseAll(w1, m.temps), c, out)
  {
    hide Inv, ReleaseAll, OwnCells, TempsGone, SameTables;
    TempsKnown(m, w1);
    ReleaseAllExact(w1, b, m.temps);
    ReleaseAllTables(w1, m.temps);
    SameOwnCells(m, w1);
  }

  lemma ResultFinished(m: Materialized, w1: World, w3: World, b: Busy, c: CtxRef, out: Outcome)
    requires Inv(w1, b) && Inv(w3, b) && out.Yields? && NewOwner(w1, w3, c, out.js, w1.nextRef) && SameTables(w1, w3)
    requires TempsThere(m, w1) && TempsThere(m, w3) && w1.nextRef !in m.temps
    requires var w' := ReleaseAll(w3, m.temps);
      TempsGone(m, w') && w1.nextRef in w'.vals && Valid(w', w1.nextRef)
    ensures Finished(m, w1, ReleaseAll(w3, m.temps), c, out)
  {
    var u, w' := w1.nextRef, ReleaseAll(w3, m.temps);
    hide Inv, ReleaseAll, OwnCells, TempsGone, Valid, SameTables;
    TempsKnown(m, w3);
    ReleaseAllExact(w3, b, m.temps);
    ReleaseAllTables(w3, m.temps);
    TablesTrans(w1, w3, w');
    SameOwnCells(m, w1);
    SameOwnCells(m, w3);
    var q := w3.vals[u].ptr;
    if q in OwnCells(m.w, m.temps) { TempCell(m, w1, b, q); }
    assert w'.vals[u] == w3.vals[u];
    forall r {:trigger r in w1.vals} | r in w1.vals && r !in m.temps ensures r in w'.vals && w'.vals[r] == w1.vals[r] {
      assert r in w3.vals;
    }
  }

  lemma TempsKnown(m: Materialized, w: World)
    requires TempsThere(m, w)
    ensures forall t {:trigger t in m.temps} :: t in m.temps ==> t !in w.orphans
  {
  }

  lemma SameOwnCells(m: Materialized, w: World)
    requires TempsThere(m, w)
    ensures OwnCells(w, m.temps) == OwnCells(m.w, m.temps)
  {
  }

  lemma TempCells(m: Materialized, w: World, b: Busy)
    requires Inv(w, b) && TempsThere(m, w)
    ensures OwnCells(m.w, m.temps) <= w.heap.Keys
  {
    hide Inv, OwnCells, TempsThere;
    forall q | q in OwnCells(m.w, m.temps) ensures q in w.heap { TempCell(m, w, b, q); }
  }

  lemma TempCell(m: Materialized, w: World, b: Busy, q: Addr)
    requires Inv(w, b) && TempsThere(m, w) && q in OwnCells(m.w, m.temps)
    ensures q in w.heap
  {
    SameOwnCells(m, w);
    OwnCellAllocated(w, b, m.temps, q);
  }

  lemma OwnerIsNew(w1: World, w3: World, c: CtxRef, js: Js, m: Materialized)
    requires NewOwner(w1, w3, c, js, w1.nextRef) && TempsThere(m, w1)
    ensures TempsThere(m, w3) && w1.nextRef !in m.temps
  {
  }

  lemma CleanUp(m: Materialized, w1: World, w3: World, b: Busy)
    requires Inv(w3, b) && TempsThere(m, w3)
    ensures TempsGone(m, ReleaseAll(w3, m.temps))
  {
    var w' := ReleaseAll(w3, m.temps);
    CleanupIsExact(w3, b, m.temps);
    forall t {:trigger t in m.temps} | t in m.temps
      ensures t in m.w.vals && t in w'.vals && w'.vals[t].ptr == 0 && m.w.vals[t].ptr !in w'.heap
    {
      assert w3.vals[t].ptr in OwnCells(w3, m.temps);
    }
  }

  lemma ResultStays(w1: World, w3: World, b: Busy, c: CtxRef, js: Js, m: Materialized)
    requires Inv(w3, b) && NewOwner(w1, w3, c, js, w1.nextRef) && TempsThere(m, w3) && w1.nextRef !in m.temps
    ensures var w' := ReleaseAll(w3, m.temps);
      w1.nextRef in w'.vals && Valid(w', w1.nextRef)
  {
    var w' := ReleaseAll(w3, m.temps);
    var u := w1.nextRef;
    ReleaseAllExact(w3, b, m.temps);
    assert w'.vals[u] == w3.vals[u];
    assert Backed(w'.vals[u], u, w'.heap, w'.ctxs);
    assert ContextSound(w'.ctxs[c], c, w'.nctxs);
  }

  /* ---- whole calls ---- */

  // A call that fails in its arguments leaves no trace but the wrappers of its temporaries, which point nowhere.
  ghost predicate Undone(w: World, m: Materialized, w': World) {
    && w'.heap == w.heap && SameTables(w, w') && w'.orphans == w.orphans && w'.answers == w.answers
    && (forall r {:trigger r in w.vals} :: r in w.vals ==> r in w'.vals && w'.vals[r] == w.vals[r])
    && (forall t {:trigger t in m.temps} :: t in m.temps ==> t in w'.vals && w'.vals[t].ptr == 0)
    && w'.hidden == w.hidden + Elems(m.temps)
  }

  // Object.Set, Function.Call and the like, whatever JavaScript does and however they end: a call that fails in
  // its arguments changes nothing; any other leaves what its JavaScript did, the result, and no temporary.
  lemma UseNet(w: World, b: Busy, cmd: Cmd)
    requires Inv(w, b) && PinsSound(w, b) && cmd.Use? && Nameable(w, cmd.v) && Valid(w, cmd.v) && !Step(w, b, cmd).rogue
    ensures var m := Args(w, cmd);
      var w' := Step(w, b, cmd);
      && (AnyFails(cmd.args) ==> Undone(w, m, w'))
      && (!AnyFails(cmd.args) ==> Finished(m, Upcalls(m.w, Pin(w, b, cmd.v), cmd.inner), w', w.vals[cmd.v].ctx, cmd.out))
  {
    hide *;
    PinnedIn(w, b, cmd.v);
    StepIs(w, b, cmd);
    var c := w.vals[cmd.v].ctx;
    var m := Args(w, cmd);
    TemporariesGivenBack(w, b, c, cmd.args);
    MaterializeRight(w, b, c, cmd.args);
    MaterializeSafe(w, b, c, cmd.args);
    MaterializeTemps(w, b, c, cmd.args);
    MaterializeCounts(w, b, c, cmd.args);
    ArgsAre(w, cmd);
    UseIs(w, b, cmd);
    if m.ok { UseEnds(w, m, b, cmd); } else { UndoneIs(w, m); }
  }

  lemma StepIs(w: World, b: Busy, cmd: Cmd)
    ensures cmd.Use? ==> Step(w, b, cmd) == StepUse(w, b, cmd)
    ensures cmd.CallMethod? ==> Step(w, b, cmd) == StepMethod(w, b, cmd)
  {
    hide StepUse, StepMethod;
  }

  lemma ArgsAre(w: World, cmd: Cmd)
    requires (cmd.Use? || cmd.CallMethod?) && Valid(w, cmd.v)
    ensures Args(w, cmd) == Materialize(w, w.vals[cmd.v].ctx, cmd.args)
    ensures Steady(w, Args(w, cmd).w) && Args(w, cmd).w.orphans == w.orphans && Args(w, cmd).w.answers == w.answers
  {
    hide Materialize;
  }

  // A call on a wrapper that is not valid does nothing.
  lemma InvalidReceiver(w: World, b: Busy, cmd: Cmd)
    requires (cmd.Use? || cmd.CallMethod?) && !(Nameable(w, cmd.v) && Valid(w, cmd.v))
    ensures Step(w, b, cmd) == w
  {
    hide NativeUse, Materialize, FinishCall, ReleaseAll, MethodCall;
    StepIs(w, b, cmd);
  }

  lemma UndoneIs(w: World, m: Materialized)
    requires SameTables(w, m.w) && m.w.hidden == w.hidden + Elems(m.temps)
    requires m.w.orphans == w.orphans && m.w.answers == w.answers
    requires var w' := ReleaseAll(m.w, m.temps);
      && w'.heap == w.heap
      && (forall r {:trigger r in w.vals} :: r in w.vals ==> r in w'.vals && w'.vals[r] == w.vals[r])
      && (forall t {:trigger t in m.temps} :: t in m.temps ==> t !in w.vals && t in w'.vals && w'.vals[t].ptr == 0)
    ensures Undone(w, m, ReleaseAll(m.w, m.temps))
  {
    ReleaseAllTables(m.w, m.temps);
    TablesTrans(w, m.w, ReleaseAll(m.w, m.temps));
    hide ReleaseAll, SameTables, Elems;
  }

  lemma UseEnds(w: World, m: Materialized, b: Busy, cmd: Cmd)
    requires Inv(w, b) && PinsSound(w, b) && cmd.Use? && Nameable(w, cmd.v) && Valid(w, cmd.v) && m == Args(w, cmd)
    requires Inv(m.w, b) && Keeps(w, m.w, b, {}, {}) && ArgsMade(w, m, w.vals[cmd.v].ctx) && TempsOf(m, w.vals[cmd.v].ctx)
    requires var (w2, q) := NativeUse(m.w, Pin(w, b, cmd.v), w.vals[cmd.v].ptr, cmd.inner, cmd.out);
      && (!Usable(m.w, m.argv) ==> StepUse(w, b, cmd).rogue)
      && (Usable(m.w, m.argv) ==> StepUse(w, b, cmd) == FinishCall(w2, w.vals[cmd.v].ctx, q, cmd.out, m.temps))
    requires !StepUse(w, b, cmd).rogue
    ensures Finished(m, Upcalls(m.w, Pin(w, b, cmd.v), cmd.inner), StepUse(w, b, cmd), w.vals[cmd.v].ctx, cmd.out)
  {
    var v, c, p := cmd.v, w.vals[cmd.v].ctx, w.vals[cmd.v].ptr;
    var b1 := Pin(w, b, v);
    var w1 := Upcalls(m.w, b1, cmd.inner);
    var (w2, q) := NativeUse(m.w, b1, p, cmd.inner, cmd.out);
    PinnedIn(w, b, v);
    PinnedArgs(w, m, b, c, v);
    UseLater(m.w, b1, p, cmd.inner, cmd.out);
    assert Touch(m.w, p) == m.w;
    assert Later(w2, FinishCall(w2, c, q, cmd.out, m.temps));
    hide *;
    NativeUseSafe(m.w, b1, p, cmd.inner, cmd.out, c, Owner(w, v));
    EndsWith(w, m, w1, b, b1, c, cmd.out);
  }

  // JavaScript is done without an obligation broken: the temporaries are still there, and the call ends.
  lemma EndsWith(w: World, m: Materialized, w1: World, b: Busy, b1: Busy, c: CtxRef, out: Outcome)
    requires Inv(m.w, b) && Inv(m.w, b1) && ArgsMade(w, m, c) && TempsOf(m, c) && c in b1.ctxs
    requires Safe(m.w, w1, b1) && !w1.rogue && Open(w1, c) && b.refs <= b1.refs && b.ctxs <= b1.ctxs
    ensures Inv(w1, b) && TempsThere(m, w1)
    ensures var (w2, q) := match out case NoValue(_) => (w1, 0) case Yields(js, hint) => Wrap(w1, w1.ctxs[c].ptr, js, hint);
      Finished(m, w1, FinishCall(w2, c, q, out, m.temps), c, out)
  {
    hide *;
    OpenKnown(w1, c);
    SafeParts(m.w, w1, b1);
    TempsSurvive(w, m, w1, b1, c);
    Unpin(m.w, w1, b, b1);
    CallEnds(m, w1, b, c, out);
  }

  /* ---- CallMethod ---- */

  // when the getter of the method is done
  ghost function AfterGetter(w: World, b: Busy, cmd: Cmd): World
    requires cmd.CallMethod? && Valid(w, cmd.v)
  {
    Upcalls(Args(w, cmd).w, Pin(w, b, cmd.v), cmd.getter)
  }

  // when the method itself is done
  ghost function AfterMethod(w: World, b: Busy, cmd: Cmd): World
    requires cmd.CallMethod? && Valid(w, cmd.v)
  {
    Upcalls(Lookup(w, b, cmd).0, Pin(w, b, cmd.v), cmd.inner)
  }

  // The handle of the looked-up method; 0 if the call fails before there is one.
  ghost function MethodHandle(w: World, b: Busy, cmd: Cmd): Addr
    requires cmd.CallMethod? && Valid(w, cmd.v)
  {
    if Args(w, cmd).ok then Lookup(w, b, cmd).1 else 0
  }

  // One cell has been made at h, in the index of the native context ca.
  ghost predicate OneMore(w: World, w': World, ca: Addr, h: Addr, js: Js) {
    && h != 0 && h !in w.heap && h in w'.heap && w'.heap == w.heap[h := w'.heap[h]]
    && w'.heap[h].js == js && w'.heap[h].id != 0 && w'.heap[h].ctx == ca
  }

  // The cell at p is still there, and still nobody owns it.
  ghost predicate Unmoved(w: World, w': World, p: Addr) {
    p in w.heap && Still(w, w', p)
  }

  lemma HeldUnmoved(w: World, w': World, b: Busy, c: CtxRef, p: Addr)
    requires Inv(w, b) && Keeps(w, w', b, {}, {}) && Held(w, b, c, p, 0)
    ensures Unmoved(w, w', p)
  {
    assert Open(w, c);
    assert ContextSound(w.ctxs[c], c, w.nctxs);
    assert Stuck(w, b, p);
  }

  // Object.CallMethod, with JavaScript running in the getter and in the method: a call that fails in its
  // arguments changes nothing; one that fails in the lookup leaves what the getter did; any other leaves what
  // the getter did, the handle of the method, what the method did and the result.  No temporary is left.
  lemma MethodNet(w: World, b: Busy, cmd: Cmd)
    requires Inv(w, b) && PinsSound(w, b) && cmd.CallMethod? && Nameable(w, cmd.v) && Valid(w, cmd.v) && !Step(w, b, cmd).rogue
    ensures var m := Args(w, cmd);
      var w' := Step(w, b, cmd);
      var c := w.vals[cmd.v].ctx;
      && (AnyFails(cmd.args) ==> Undone(w, m, w'))
      && (!AnyFails(cmd.args) && cmd.found.NoValue? ==> Finished(m, AfterGetter(w, b, cmd), w', c, cmd.found))
      && (!AnyFails(cmd.args) && cmd.found.Yields? ==>
            && OneMore(AfterGetter(w, b, cmd), Lookup(w, b, cmd).0, w.ctxs[c].ptr, MethodHandle(w, b, cmd), cmd.found.js)
            && Finished(m, AfterMethod(w, b, cmd), w', c, cmd.out))
  {
    hide *;
    PinnedIn(w, b, cmd.v);
    StepIs(w, b, cmd);
    HandleIs(w, b, cmd);
    var c := w.vals[cmd.v].ctx;
    var m := Args(w, cmd);
    TemporariesGivenBack(w, b, c, cmd.args);
    MaterializeRight(w, b, c, cmd.args);
    MaterializeSafe(w, b, c, cmd.args);
    MaterializeTemps(w, b, c, cmd.args);
    MaterializeCounts(w, b, c, cmd.args);
    ArgsAre(w, cmd);
    MethodIs(w, b, cmd);
    if m.ok { MethodEnds(w, m, b, cmd); } else { UndoneIs(w, m); }
  }

  lemma HandleIs(w: World, b: Busy, cmd: Cmd)
    requires cmd.CallMethod? && Valid(w, cmd.v)
    ensures Args(w, cmd).ok ==> MethodHandle(w, b, cmd) == Lookup(w, b, cmd).1
    ensures !Args(w, cmd).ok ==> MethodHandle(w, b, cmd) == 0
    ensures Lookup(w, b, cmd) == NativeUse(Args(w, cmd).w, Pin(w, b, cmd.v), w.vals[cmd.v].ptr, cmd.getter, cmd.found)
    ensures AfterGetter(w, b, cmd) == Upcalls(Args(w, cmd).w, Pin(w, b, cmd.v), cmd.getter)
    ensures AfterMethod(w, b, cmd) == Upcalls(Lookup(w, b, cmd).0, Pin(w, b, cmd.v), cmd.inner)
  {
  }

  lemma MethodEnds(w: World, m: Materialized, b: Busy, cmd: Cmd)
    requires Inv(w, b) && PinsSound(w, b) && cmd.CallMethod? && Nameable(w, cmd.v) && Valid(w, cmd.v) && m == Args(w, cmd)
    requires Inv(m.w, b) && Keeps(w, m.w, b, {}, {}) && ArgsMade(w, m, w.vals[cmd.v].ctx) && TempsOf(m, w.vals[cmd.v].ctx)
    requires m.ok && !StepMethod(w, b, cmd).rogue
    requires var (w2, fn) := Lookup(w, b, cmd);
      StepMethod(w, b, cmd) == if fn == 0 then ReleaseAll(w2, m.temps)
        else MethodCall(w2, Pin(w, b, cmd.v), w.vals[cmd.v].ctx, w.vals[cmd.v].ptr, fn, m, cmd.inner, cmd.out)
    ensures var c := w.vals[cmd.v].ctx;
      && (cmd.found.NoValue? ==> Finished(m, AfterGetter(w, b, cmd), StepMethod(w, b, cmd), c, cmd.found))
      && (cmd.found.NoValue? ==> MethodHandle(w, b, cmd) == 0)
      && (cmd.found.Yields? ==>
            && OneMore(AfterGetter(w, b, cmd), Lookup(w, b, cmd).0, w.ctxs[c].ptr, MethodHandle(w, b, cmd), cmd.found.js)
            && OwnCells(m.w, m.temps) <= AfterGetter(w, b, cmd).heap.Keys
            && Unmoved(Lookup(w, b, cmd).0, AfterMethod(w, b, cmd), MethodHandle(w, b, cmd))
            && Finished(m, AfterMethod(w, b, cmd), StepMethod(w, b, cmd), c, cmd.out))
  {
    var v, c, p := cmd.v, w.vals[cmd.v].ctx, w.vals[cmd.v].ptr;
    var b1 := Pin(w, b, v);
    var w1 := AfterGetter(w, b, cmd);
    var (w2, fn) := Lookup(w, b, cmd);
    PinnedIn(w, b, v);
    PinnedArgs(w, m, b, c, v);
    HandleIs(w, b, cmd);
    LaterRogue(w2, b1, c, p, fn, m, cmd);
    hide *;
    LookupSafe(w, m, b, c, cmd);
    RogueBack(w1, w2);
    GetterSafe(m.w, w1, b1);
    match cmd.found
    case NoValue(_) =>
      EndsWith(w, m, w1, b, b1, c, cmd.found);
      FinishNothing(w1, c, cmd.found, m.temps);
    case Yields(js, hint) =>
      LookupAdds(w1, w2, b1, c, fn, js, hint);
      SameNativeContext(w, m, w1, b1, c);
      TempsSurvive(w, m, w1, b1, c);
      TempCells(m, w1, b1);
      MethodCallEnds(w, m, w2, b, b1, c, p, fn, cmd.inner, cmd.out, Owner(w, v));
  }

  lemma LaterRogue(w2: World, b1: Busy, c: CtxRef, p: Addr, fn: Addr, m: Materialized, cmd: Cmd)
    requires cmd.CallMethod?
    ensures w2.rogue ==> ReleaseAll(w2, m.temps).rogue && MethodCall(w2, b1, c, p, fn, m, cmd.inner, cmd.out).rogue
  {
  }

  lemma RogueBack(w1: World, w2: World)
    ensures Later(w1, w2) && !w2.rogue ==> !w1.rogue
  {
  }

  lemma GetterSafe(w: World, w1: World, b1: Busy)
    ensures Inv(w1, b1) && Keeps(w, w1, b1, {}, {}) ==> Safe(w, w1, b1)
  {
  }

  lemma FinishNothing(w: World, c: CtxRef, out: Outcome, temps: seq<Ref>)
    ensures out.NoValue? ==> FinishCall(w, c, 0, out, temps) == ReleaseAll(w, temps)
  {
    NewValueOfNil(w, c, Born(out));
  }

  lemma SameNativeContext(w: World, m: Materialized, w1: World, b1: Busy, c: CtxRef)
    requires ArgsMade(w, m, c) && Keeps(m.w, w1, b1, {}, {}) && c in b1.ctxs
    ensures c in w1.ctxs && c in w.ctxs && w1.ctxs[c].ptr == w.ctxs[c].ptr
  {
  }

  lemma LookupAdds(w1: World, w2: World, b1: Busy, c: CtxRef, fn: Addr, js: Js, hint: Addr)
    requires Inv(w1, b1) && Open(w1, c) && (w2, fn) == Wrap(w1, w1.ctxs[c].ptr, js, hint)
    ensures OneMore(w1, w2, w1.ctxs[c].ptr, fn, js)
  {
    OpenNative(w1, b1, c);
    WrapKeepsInv(w1, b1, w1.ctxs[c].ptr, js, hint);
    hide Inv;
  }

  lemma MethodCallEnds(w: World, m: Materialized, w2: World, b: Busy, b1: Busy, c: CtxRef,
                       p: Addr, fn: Addr, inner: seq<Upcall>, out: Outcome, owner: Ref)
    requires Inv(w, b) && Inv(m.w, b) && Inv(m.w, b1) && Inv(w2, b1) && PinsSound(w2, b1) && Open(w, c)
    requires Keeps(m.w, w2, b1, {}, {}) && ArgsMade(w, m, c) && TempsOf(m, c) && c in b1.ctxs
    requires b.refs <= b1.refs && b.ctxs <= b1.ctxs
    requires Held(w2, b1, c, fn, 0) && Held(w2, b1, c, p, owner)
    requires !MethodCall(w2, b1, c, p, fn, m, inner, out).rogue
    ensures Unmoved(w2, Upcalls(w2, b1, inner), fn)
    ensures Finished(m, Upcalls(w2, b1, inner), MethodCall(w2, b1, c, p, fn, m, inner, out), c, out)
  {
    var w3 := Upcalls(w2, b1, inner);
    MethodCallIs(w2, b1, c, p, fn, m, inner, out);
    hide *;
    NativeUseSafe(w2, b1, fn, inner, out, c, 0);
    SafeParts(w2, w3, b1);
    HeldUnmoved(w2, w3, b1, c, fn);
    KeepsThen(m.w, w2, w3, b1);
    GetterSafe(m.w, w3, b1);
    EndsWith(w, m, w3, b, b1, c, out);
  }
}
