/**
 The objects behind the handle heap, updated in place as the source does: Value
 and Context with their fields, and the package's tables together with the native
 memory they point into.  `State` is the heap they amount to; every method is
 proved to do exactly what the corresponding step of Handles does to it.

 Addresses of new native cells come from the allocator, so they are parameters.
 */
module HandleClasses {
  import opened Handles
  import opened HandleInvariants

  class Value {
    var ptr: Addr
    const ctx: Context
    const borrowed: bool
    const name: Ref          // history variable: the identity of this object
    const born: Js           // history variable

    constructor (p: Addr, c: Context, b: bool, n: Ref, j: Js)
      ensures ptr == p && ctx == c && borrowed == b && name == n && born == j
    {
      ptr, ctx, borrowed, name, born := p, c, b, n, j;
    }

    ghost function View(): GoValue
      reads this
    {
      GoValue(ptr, ctx.ref, borrowed, born)
    }

    // Value.invalidate
    method Invalidate()
      modifies this`ptr
      ensures ptr == 0
    {
      ptr := 0;
    }
  }

  ghost function Names(s: set<Value>): set<Ref> {
    set v | v in s :: v.name
  }

  class Context {
    const ref: CtxRef
    var ptr: Addr
    var closed: bool
    var hostFnIDs: set<nat>
    var liveValues: set<Value>

    constructor (r: CtxRef, p: Addr)
      ensures ref == r && ptr == p && !closed && hostFnIDs == {} && liveValues == {}
    {
      ref, ptr, closed := r, p, false;
      hostFnIDs, liveValues := {}, {};
    }

    ghost function View(): GoContext
      reads this
    {
      GoContext(ptr, closed, Names(liveValues), hostFnIDs)
    }

    method IsClosed() returns (b: bool)
      ensures b <==> closed || ptr == 0
    {
      return closed || ptr == 0;
    }
  }

  ghost function ValsOf(values: map<Ref, Value>): map<Ref, GoValue>
    reads values.Values
  {
    map r | r in values :: values[r].View()
  }

  ghost function CtxsOf(contexts: map<CtxRef, Context>): map<CtxRef, GoContext>
    reads contexts.Values
  {
    map c | c in contexts :: contexts[c].View()
  }

  ghost predicate Consistent(l: Library)
    reads l`values, l`contexts, l`nextRef, l`ctxSeq, l`ctxRefs, l.contexts.Values`liveValues
  {
    && (forall r {:trigger r in l.values} :: r in l.values ==> r < l.nextRef && l.values[r].name == r && l.KnownContext(l.values[r].ctx))
    && (forall c {:trigger c in l.contexts} :: c in l.contexts ==>
          c <= l.ctxSeq && l.contexts[c].ref == c && l.LiveKnown(l.contexts[c]))
    && (forall c {:trigger c in l.ctxRefs} :: c in l.ctxRefs ==> c in l.contexts && l.ctxRefs[c] == l.contexts[c])
  }

  class Library {
    // native memory
    var heap: map<Addr, NativeValue>
    var nctxs: map<Addr, NativeCtx>
    var nextSerial: nat
    ghost var freed: multiset<nat>
    ghost var answers: seq<Answer>
    // the package's tables
    var ctxRefs: map<CtxRef, Context>
    var ctxSeq: nat
    var hostFnRefs: map<nat, CtxRef>
    var hostFnSeq: nat
    // every object ever made
    var nextRef: Ref
    ghost var values: map<Ref, Value>
    ghost var contexts: map<CtxRef, Context>
    ghost var functions: set<HostFn>
    ghost var hidden: set<Ref>
    ghost var orphans: set<Ref>

    ghost function Vals(): map<Ref, GoValue>
      reads this`values, values.Values
    {
      ValsOf(values)
    }

    ghost function Ctxs(): map<CtxRef, GoContext>
      reads this`contexts, contexts.Values
    {
      CtxsOf(contexts)
    }

    ghost function State(): World
      reads this, values.Values, contexts.Values
    {
      World(heap, nctxs, Vals(), Ctxs(), ctxSeq, hostFnRefs, hostFnSeq, functions, nextRef, hidden, orphans, nextSerial, freed, answers, false, false)
    }

    ghost predicate KnownValue(v: Value)
      reads this`values
    {
      v.name in values && values[v.name] == v
    }

    ghost predicate KnownContext(c: Context)
      reads this`contexts
    {
      c.ref in contexts && contexts[c.ref] == c
    }

    ghost predicate LiveKnown(c: Context)
      reads this`values, c`liveValues
    {
      forall v {:trigger v in c.liveValues} :: v in c.liveValues ==> KnownValue(v) && v.ctx == c
    }

    // Names identify objects, and objects refer to known objects only.
    ghost predicate Valid()
      reads this`values, this`contexts, this`nextRef, this`ctxSeq, this`ctxRefs, contexts.Values`liveValues
    {
      Consistent(this)
    }

    constructor ()
      ensures Valid() && State() == World(map[], map[], map[], map[], 0, map[], 0, {}, 1, {}, {}, 0, multiset{}, [], false, false)
    {
      heap, nctxs, nextSerial, freed, answers := map[], map[], 0, multiset{}, [];
      ctxRefs, ctxSeq, hostFnRefs, hostFnSeq := map[], 0, map[], 0;
      nextRef, values, contexts, functions, hidden, orphans := 1, map[], map[], {}, {}, {};
    }

    /* ---- native side: only the fields heap, nctxs, nextSerial and freed change ---- */

    // wrapValue and trackValue
    method WrapValue(ca: Addr, js: Js, p: Addr)
      requires ca in nctxs && p != 0 && p !in heap
      modifies this`heap, this`nctxs, this`nextSerial
      ensures State() == Wrap(old(State()), ca, js, p).0 && p == Wrap(old(State()), ca, js, p).1
    {
      heap := heap[p := NativeValue(0, ca, js, nextSerial)];
      nextSerial := nextSerial + 1;
      if heap[p].id == 0 {
        var id := nctxs[ca].nextId + 1;
        heap := heap[p := heap[p].(id := id)];
        nctxs := nctxs[ca := nctxs[ca].(nextId := id, values := nctxs[ca].values[id := p])];
      }
    }

    // wrapBorrowedValue
    method WrapBorrowedValue(ca: Addr, js: Js, p: Addr)
      requires p != 0 && p !in heap
      modifies this`heap, this`nextSerial
      ensures State() == WrapBorrowed(old(State()), ca, js, p).0 && p == WrapBorrowed(old(State()), ca, js, p).1
    {
      heap := heap[p := NativeValue(0, ca, js, nextSerial)];
      nextSerial := nextSerial + 1;
    }

    // GV8ValueRelease.  What it requires is what the source relies on: the cell is allocated, and so is
    // the context it is indexed in.
    method ValueRelease(p: Addr)
      requires p != 0 ==> p in heap && (heap[p].id != 0 ==> heap[p].ctx in nctxs)
      modifies this`heap, this`nctxs, this`freed
      ensures State() == NativeRelease(old(State()), p)
    {
      if p == 0 { return; }
      var cell := heap[p];
      if cell.id != 0 {
        nctxs := nctxs[cell.ctx := nctxs[cell.ctx].(values := nctxs[cell.ctx].values - {cell.id})];
      }
      heap := heap - {p};
      freed := freed + multiset{cell.serial};
    }

    // GV8ValueRetain
    method ValueRetain(p: Addr, hint: Addr) returns (q: Addr)
      requires p != 0 ==> p in heap && heap[p].ctx in nctxs && hint != 0 && hint !in heap
      modifies this`heap, this`nctxs, this`nextSerial
      ensures State() == NativeRetain(old(State()), p, hint).0 && q == NativeRetain(old(State()), p, hint).1
    {
      if p == 0 { return 0; }
      WrapValue(heap[p].ctx, heap[p].js, hint);
      return hint;
    }

    // GV8ContextDispose: the loop over the index, then the context itself
    method ContextDispose(ca: Addr)
      requires ca != 0 ==> ca in nctxs && IndexSound(heap, nctxs[ca].values) && SerialInv(heap, nextSerial, freed)
      modifies this`heap, this`nctxs, this`freed
      ensures State() == Handles.ContextDispose(old(State()), ca)
      ensures ca != 0 ==> nctxs == old(nctxs) - {ca} && heap == old(heap) - old(nctxs)[ca].values.Values
      ensures ca != 0 ==> freed == old(freed) + Serials(old(heap), old(nctxs)[ca].values.Values)
    {
      if ca == 0 { return; }
      hide SerialInv, Serials, IndexSound;
      DeleteIndexed(nctxs[ca].values);
      nctxs := nctxs - {ca};
    }

    method DeleteIndexed(index: map<nat, Addr>)
      requires IndexSound(heap, index) && SerialInv(heap, nextSerial, freed)
      modifies this`heap, this`freed
      ensures heap == old(heap) - index.Values && freed == old(freed) + Serials(old(heap), index.Values)
    {
      hide SerialInv, Serials, Split, IndexSound;
      InitialSplit(index);
      var rest := index;
      ghost var gone: set<Addr> := {};
      NoSerials(heap);
      while rest != map[]
        invariant Split(index, rest, gone)
        invariant heap == old(heap) - gone && freed == old(freed) + Serials(old(heap), gone)
        decreases |rest.Keys|
      {
        var id :| id in rest;
        DeleteOne(old(heap), old(nextSerial), old(freed), index, rest, gone, id);
        gone := gone + {rest[id]};
        rest := rest - {id};
      }
      SplitDone(index, gone);
    }

    method DeleteOne(ghost heap0: map<Addr, NativeValue>, ghost serial0: nat, ghost freed0: multiset<nat>,
                     ghost index: map<nat, Addr>, rest: map<nat, Addr>, ghost gone: set<Addr>, id: nat)
      requires IndexSound(heap0, index) && SerialInv(heap0, serial0, freed0) && Split(index, rest, gone) && id in rest
      requires heap == heap0 - gone && freed == freed0 + Serials(heap0, gone)
      modifies this`heap, this`freed
      ensures Split(index, rest - {id}, gone + {rest[id]}) && |(rest - {id}).Keys| < |rest.Keys|
      ensures heap == heap0 - (gone + {rest[id]}) && freed == freed0 + Serials(heap0, gone + {rest[id]})
    {
      hide SerialInv, Serials, Split, IndexSound;
      var p := rest[id];
      SplitStep(heap0, index, rest, gone, id);
      SerialsAdd(heap0, serial0, freed0, gone, p);
      RestShrinks(rest, id);
      MinusTwice(heap0, gone, p);
      freed := freed + multiset{heap[p].serial};
      heap := heap - {p};
    }

    /* ---- Go side ---- */

    method Clear(v: Value)
      requires Valid() && KnownValue(v)
      modifies v`ptr
      ensures Valid() && v.ptr == 0 && State() == Handles.Invalidate(old(State()), v.name)
    {
      v.Invalidate();
      assert Vals() == old(Vals())[v.name := v.View()];
    }

    // Context.trackValue: the check of `closed` decides whether the wrapper keeps its pointer
    method TrackValue(c: Context, v: Value)
      requires Valid() && KnownContext(c) && KnownValue(v) && v.ctx == c
      modifies c`liveValues, v`ptr
      ensures Valid()
      ensures State() ==
        if c.closed then Handles.Invalidate(old(State()), v.name)
        else old(State()).(ctxs := old(Ctxs())[c.ref := old(c.View()).(live := old(c.View()).live + {v.name})])
    {
      if c.closed {
        Clear(v);
        return;
      }
      NamesAdd(c.liveValues, v);
      c.liveValues := c.liveValues + {v};
      CtxsExcept(c);
      assert Vals() == old(Vals());
      assert c.View() == old(c.View()).(live := old(c.View()).live + {v.name});
      assert LiveKnown(c);
      assert State() == old(State()).(ctxs := Ctxs());
    }

    // Only c's view changed.
    twostate lemma CtxsExcept(c: Context)
      requires old(KnownContext(c)) && contexts == old(contexts)
      requires forall d {:trigger d in contexts} :: d in contexts ==> contexts[d].ref == d
      requires forall d {:trigger d in contexts} :: d in contexts && d != c.ref ==> contexts[d].View() == old(contexts[d].View())
      ensures Ctxs() == old(Ctxs())[c.ref := c.View()]
    {
    }

    // newValue
    method NewValue(c: Context, p: Addr, js: Js) returns (v: Value?)
      requires Valid() && KnownContext(c)
      modifies this`nextRef, this`values, c`liveValues
      ensures Valid()
      ensures State() == Handles.NewValue(old(State()), c.ref, p, js).0
      ensures v == null <==> p == 0
      ensures v != null ==> fresh(v) && KnownValue(v) && v.name == old(nextRef) && v.ctx == c && !v.borrowed
      ensures forall r {:trigger r in old(values)} :: r in old(values) ==> r in values && values[r] == old(values[r])
    {
      hide ValsOf, CtxsOf, Names, Consistent, Handles.NewValue, Handles.Invalidate;
      ghost var w := State();
      NewValueNil(w, c.ref, js);
      ContextView(c);
      if p == 0 { return null; }
      v := Name(c, p, false, js);
      ghost var w1 := State();
      TrackValue(c, v);
      NewValueIs(w, c.ref, p, js, w1, State());
    }

    // &Value{...}
    method Name(c: Context, p: Addr, borrowed: bool, js: Js) returns (v: Value)
      requires Valid() && KnownContext(c)
      modifies this`nextRef, this`values
      ensures Valid() && fresh(v) && KnownValue(v) && v.name == old(nextRef) && v.ctx == c && v.borrowed == borrowed
      ensures State() == old(State()).(vals := old(Vals())[v.name := GoValue(p, c.ref, borrowed, js)], nextRef := v.name + 1)
      ensures values == old(values)[v.name := v] && v.name !in old(values) && Ctxs() == old(Ctxs())
    {
      hide ValsOf, CtxsOf, Names, Consistent;
      v := new Value(p, c, borrowed, nextRef, js);
      AddValue(v);
    }

    method AddValue(v: Value)
      requires Valid() && v.name == nextRef && KnownContext(v.ctx)
      modifies this`nextRef, this`values
      ensures Valid() && KnownValue(v) && nextRef == v.name + 1
      ensures values == old(values)[v.name := v] && v.name !in old(values)
      ensures Vals() == old(Vals())[v.name := v.View()] && Ctxs() == old(Ctxs())
    {
      values := values[nextRef := v];
      nextRef := nextRef + 1;
    }

    // newBorrowedValue
    method NewBorrowedValue(c: Context, p: Addr, js: Js) returns (v: Value?)
      requires Valid() && KnownContext(c)
      modifies this`nextRef, this`values
      ensures Valid()
      ensures State() == NewBorrowed(old(State()), c.ref, p, js).0
      ensures v == null <==> p == 0
      ensures v != null ==> fresh(v) && KnownValue(v) && v.name == old(nextRef) && v.ctx == c && v.borrowed
      ensures forall r {:trigger r in old(values)} :: r in old(values) ==> r in values && values[r] == old(values[r])
    {
      if p == 0 { return null; }
      v := Name(c, p, true, js);
    }

    // Context.untrackValue
    method UntrackValue(v: Value)
      requires Valid() && KnownValue(v)
      modifies v.ctx`liveValues
      ensures Valid() && State() == Untrack(old(State()), v.name)
    {
      var c := v.ctx;
      assert KnownContext(c) && LiveKnown(c);
      NamesRemove(c.liveValues, v);
      c.liveValues := c.liveValues - {v};
      CtxsExcept(c);
      assert Vals() == old(Vals());
    }

    // Value.valid
    method IsValid(v: Value) returns (b: bool)
      requires Valid() && KnownValue(v)
      ensures b <==> Handles.Valid(State(), v.name)
    {
      var closed := v.ctx.IsClosed();
      assert KnownContext(v.ctx);
      assert Vals()[v.name] == v.View() && Ctxs()[v.ctx.ref] == v.ctx.View();
      assert State().vals == Vals() && State().ctxs == Ctxs();
      return v.ptr != 0 && !closed;
    }

    method ReleaseCell(v: Value)
      requires Valid() && KnownValue(v) && v.ptr in heap && heap[v.ptr].ctx in nctxs
      modifies this`heap, this`nctxs, this`freed, v`ptr
      ensures Valid() && State() == Handles.Invalidate(NativeRelease(old(State()), old(v.ptr)), v.name)
    {
      ValueRelease(v.ptr);
      Clear(v);
    }

    method ReleaseOwned(v: Value)
      requires Valid() && KnownValue(v) && v.ptr != 0 && !v.borrowed && v.ptr in heap && heap[v.ptr].ctx in nctxs
      modifies this`heap, this`nctxs, this`freed, v`ptr, v.ctx`liveValues
      ensures Valid() && State() == Handles.Release(old(State()), v.name)
    {
      assert Vals()[v.name] == v.View();
      ReleaseIs(State(), v.name);
      UntrackValue(v);
      hide *;
      ReleaseCell(v);
    }

    // Value.Release
    method Release(v: Value, ghost b: Busy)
      requires Valid() && KnownValue(v) && Inv(State(), b) && v.name !in orphans
      modifies this`heap, this`nctxs, this`freed, v`ptr, v.ctx`liveValues
      ensures Valid() && State() == Handles.Release(old(State()), v.name)
    {
      assert State().vals[v.name] == v.View();
      if v.ptr == 0 { return; }
      if v.borrowed {
        Clear(v);
        return;
      }
      OwnerCell(State(), b, v.name);
      ReleaseOwned(v);
    }

    // registerHostFunction
    method RegisterHostFunction(c: Context) returns (id: nat)
      requires Valid()
      modifies this`hostFnSeq, this`hostFnRefs
      ensures Valid() && id == old(hostFnSeq) + 1 && hostFnSeq == id && hostFnRefs == old(hostFnRefs)[id := c.ref]
    {
      hostFnSeq := hostFnSeq + 1;
      hostFnRefs := hostFnRefs[hostFnSeq := c.ref];
      return hostFnSeq;
    }

    // Context.trackHostFunction: on a closed context the id is unregistered at once
    method TrackHostFunction(c: Context, id: nat)
      requires Valid() && KnownContext(c)
      modifies this`hostFnRefs, c`hostFnIDs
      ensures Valid() && Vals() == old(Vals())
      ensures hostFnRefs == if c.closed then old(hostFnRefs) - {id} else old(hostFnRefs)
      ensures Ctxs() == if c.closed then old(Ctxs()) else old(Ctxs())[c.ref := old(c.View()).(fns := old(c.hostFnIDs) + {id})]
    {
      if c.closed {
        hostFnRefs := hostFnRefs - {id};
        return;
      }
      c.hostFnIDs := c.hostFnIDs + {id};
      CtxsExcept(c);
    }

    // the loop of Context.Close over the swept values
    method InvalidateSwept(live: set<Value>)
      requires Valid() && forall v {:trigger v in live} :: v in live ==> KnownValue(v)
      modifies live`ptr
      ensures Valid() && Ctxs() == old(Ctxs())
      ensures Vals() == NullIn(old(Vals()), Names(live))
    {
      hide ValsOf, CtxsOf, NullIn, Names, Consistent;
      var rest := live;
      while rest != {}
        invariant rest <= live && Valid()
        invariant forall v {:trigger v in live} :: v in live && v !in rest ==> v.ptr == 0
        decreases |rest|
      {
        var v :| v in rest;
        v.Invalidate();
        rest := rest - {v};
      }
      AllSwept(live);
    }

    twostate lemma AllSwept(live: set<Value>)
      requires old(Valid()) && values == old(values)
      requires forall v {:trigger v in live} :: v in live ==> KnownValue(v) && v.ptr == 0
      requires forall r {:trigger r in values} :: r in values && values[r] !in live ==> values[r].ptr == old(values[r].ptr)
      ensures Vals() == NullIn(old(Vals()), Names(live))
    {
      forall r {:trigger r in Names(live)} | r in values ensures r in Names(live) <==> values[r] in live {
        if r in Names(live) {
          var v :| v in live && v.name == r;
          assert KnownValue(v);
        }
      }
    }

    // Close, under the context mutex
    method Detach(c: Context) returns (hostFnIDs: set<nat>, liveValues: set<Value>)
      requires Valid() && KnownContext(c)
      modifies c`closed, c`hostFnIDs, c`liveValues
      ensures Valid() && Vals() == old(Vals()) && hostFnIDs == old(c.hostFnIDs) && liveValues == old(c.liveValues)
      ensures forall v {:trigger v in liveValues} :: v in liveValues ==> KnownValue(v)
      ensures Ctxs() == old(Ctxs())[c.ref := GoContext(c.ptr, true, {}, {})]
    {
      assert LiveKnown(c);
      c.closed := true;
      hostFnIDs, liveValues := c.hostFnIDs, c.liveValues;
      c.hostFnIDs, c.liveValues := {}, {};
      CtxsExcept(c);
      NoNames();
    }

    // The part of Close up to GV8ContextDispose.
    method Sweep(c: Context)
      requires Valid() && KnownContext(c)
      modifies this`hostFnRefs, this`ctxRefs, c`closed, c`hostFnIDs, c`liveValues, c.liveValues`ptr
      ensures Valid()
      ensures Ctxs() == old(Ctxs())[c.ref := GoContext(c.ptr, true, {}, {})]
      ensures Vals() == NullIn(old(Vals()), Names(old(c.liveValues)))
      ensures hostFnRefs == old(hostFnRefs) - old(c.hostFnIDs)
    {
      hide ValsOf, CtxsOf, NullIn, Names, Consistent;
      var hostFnIDs, liveValues := Detach(c);
      InvalidateSwept(liveValues);
      DropFromTables(c, hostFnIDs);
    }

    // unregisterHostFunctions and deleteContext
    method DropFromTables(c: Context, hostFnIDs: set<nat>)
      requires Valid()
      modifies this`hostFnRefs, this`ctxRefs
      ensures Valid() && hostFnRefs == old(hostFnRefs) - hostFnIDs && ctxRefs == old(ctxRefs) - {c.ref}
    {
      hostFnRefs := hostFnRefs - hostFnIDs;
      ctxRefs := ctxRefs - {c.ref};
    }

    method ClearContext(c: Context)
      requires Valid() && KnownContext(c)
      modifies c`ptr
      ensures Valid() && c.ptr == 0 && Vals() == old(Vals())
      ensures Ctxs() == old(Ctxs())[c.ref := old(Ctxs())[c.ref].(ptr := 0)]
    {
      c.ptr := 0;
      CtxsExcept(c);
    }

    lemma ContextView(c: Context)
      requires KnownContext(c)
      ensures c.ref in Ctxs() && Ctxs()[c.ref] == c.View()
    {
    }

    method CloseOpen(c: Context)
      requires Valid() && KnownContext(c)
      requires c.ptr in nctxs && c.ptr != 0 && IndexSound(heap, nctxs[c.ptr].values) && SerialInv(heap, nextSerial, freed)
      modifies this`heap, this`nctxs, this`freed, this`hostFnRefs, this`ctxRefs, c, c.liveValues`ptr
      ensures Valid()
      ensures nctxs == old(nctxs) - {old(c.ptr)} && heap == old(heap) - old(nctxs[c.ptr].values.Values)
      ensures freed == old(freed) + Serials(old(heap), old(nctxs[c.ptr].values.Values))
      ensures Ctxs() == old(Ctxs())[c.ref := GoContext(0, true, {}, {})]
      ensures Vals() == NullIn(old(Vals()), Names(old(c.liveValues)))
      ensures hostFnRefs == old(hostFnRefs) - old(c.hostFnIDs)
    {
      hide ValsOf, CtxsOf, NullIn, Names, Consistent, IndexSound, SerialInv, Serials;
      Sweep(c);
      DisposeContext(c);
    }

    method DisposeContext(c: Context)
      requires Valid() && KnownContext(c)
      requires c.ptr in nctxs && c.ptr != 0 && IndexSound(heap, nctxs[c.ptr].values) && SerialInv(heap, nextSerial, freed)
      modifies this`heap, this`nctxs, this`freed, c`ptr
      ensures Valid()
      ensures nctxs == old(nctxs) - {old(c.ptr)} && heap == old(heap) - old(nctxs[c.ptr].values.Values)
      ensures freed == old(freed) + Serials(old(heap), old(nctxs[c.ptr].values.Values))
      ensures Ctxs() == old(Ctxs())[c.ref := old(Ctxs())[c.ref].(ptr := 0)] && Vals() == old(Vals())
    {
      ContextDispose(c.ptr);
      ClearContext(c);
    }

    // Context.Close
    method Close(c: Context, ghost b: Busy)
      requires Valid() && KnownContext(c) && Inv(State(), b) && c.ref !in b.ctxs
      modifies this`heap, this`nctxs, this`freed, this`hostFnRefs, this`ctxRefs, c, c.liveValues`ptr
      ensures Valid() && State() == Handles.Close(old(State()), c.ref)
    {
      hide ValsOf, CtxsOf, NullIn, Names, Consistent, IndexSound, SerialInv, Serials, Inv;
      ContextView(c);
      if c.ptr == 0 || c.closed { return; }
      CloseReady(State(), b, c.ref);
      CloseOpen(c);
    }

    method AddContext(c: Context)
      requires Valid() && c.ref == ctxSeq && c.ref !in contexts && c.liveValues == {}
      modifies this`contexts, this`ctxRefs
      ensures Valid() && KnownContext(c) && contexts == old(contexts)[c.ref := c]
      ensures Ctxs() == old(Ctxs())[c.ref := c.View()] && Vals() == old(Vals())
    {
      contexts := contexts[c.ref := c];
      ctxRefs := ctxRefs[c.ref := c];
    }

    // the ref is taken from the sequence, then the native context is made
    method GV8NewContext(p: Addr)
      requires Valid() && p != 0 && p !in nctxs
      modifies this`ctxSeq, this`nctxs
      ensures Valid() && ctxSeq == old(ctxSeq) + 1 && nctxs == old(nctxs)[p := NativeCtx(ctxSeq, map[], 0)]
      ensures Pick(old(nctxs).Keys, p) == p
    {
      ctxSeq := ctxSeq + 1;
      nctxs := nctxs[p := NativeCtx(ctxSeq, map[], 0)];
    }

    // NewContext
    method NewContext(p: Addr) returns (c: Context)
      requires Valid() && p != 0 && p !in nctxs && ctxSeq + 1 !in contexts
      modifies this`ctxSeq, this`nctxs, this`contexts, this`ctxRefs
      ensures Valid() && State() == Handles.NewContext(old(State()), p)
      ensures fresh(c) && KnownContext(c) && c.ref == old(ctxSeq) + 1
    {
      hide ValsOf, CtxsOf, Names, Consistent, Pick, Handles.NewContext;
      NewContextIs(State(), p);
      GV8NewContext(p);
      c := new Context(ctxSeq, p);
      NoNames();
      AddContext(c);
    }
  }

  lemma NewContextIs(w: World, p: Addr)
    requires p != 0 && p !in w.nctxs
    ensures var c := w.ctxSeq + 1;
      NewContext(w, p) == w.(nctxs := w.nctxs[p := NativeCtx(c, map[], 0)],
                             ctxs := w.ctxs[c := GoContext(p, false, {}, {})],
                             ctxSeq := c)
  {
  }

  lemma NewValueNil(w: World, c: CtxRef, js: Js)
    ensures NewValue(w, c, 0, js) == (w, 0)
  {
  }

  // newValue is naming the object, then tracking it.
  lemma NewValueIs(w: World, c: CtxRef, p: Addr, js: Js, w1: World, w2: World)
    requires p != 0 && c in w.ctxs
    requires w1 == w.(vals := w.vals[w.nextRef := GoValue(p, c, false, js)], nextRef := w.nextRef + 1)
    requires w2 == if w.ctxs[c].closed then Invalidate(w1, w.nextRef)
      else w1.(ctxs := w.ctxs[c := w.ctxs[c].(live := w.ctxs[c].live + {w.nextRef})])
    ensures w2 == NewValue(w, c, p, js).0
  {
    assert w2.vals == NewValue(w, c, p, js).0.vals;
  }

  // `gone` is what the part of the index that is not in `rest` points at.
  ghost predicate Split(index: map<nat, Addr>, rest: map<nat, Addr>, gone: set<Addr>) {
    && rest.Keys <= index.Keys && (forall id {:trigger id in rest} :: id in rest ==> rest[id] == index[id])
    && (forall id {:trigger id in index} :: id in index ==> (index[id] in gone <==> id !in rest))
    && gone <= index.Values
  }

  lemma SplitStep(heap: map<Addr, NativeValue>, index: map<nat, Addr>, rest: map<nat, Addr>, gone: set<Addr>, id: nat)
    requires IndexSound(heap, index) && Split(index, rest, gone) && id in rest
    ensures Split(index, rest - {id}, gone + {rest[id]}) && rest[id] in heap && rest[id] !in gone
  {
    var p := rest[id];
    forall i {:trigger i in index} | i in index ensures index[i] in gone + {p} <==> i !in rest - {id} {
      assert index[i] == index[id] ==> i == id;
    }
  }

  lemma RestShrinks(rest: map<nat, Addr>, id: nat)
    requires id in rest
    ensures |(rest - {id}).Keys| < |rest.Keys|
  {
    assert rest.Keys == (rest - {id}).Keys + {id};
  }

  lemma MinusTwice(heap: map<Addr, NativeValue>, gone: set<Addr>, p: Addr)
    ensures heap - gone - {p} == heap - (gone + {p})
  {
  }

  lemma InitialSplit(index: map<nat, Addr>)
    ensures Split(index, index, {})
  {
  }

  lemma SplitDone(index: map<nat, Addr>, gone: set<Addr>)
    requires Split(index, map[], gone)
    ensures gone == index.Values
  {
    forall p | p in index.Values ensures p in gone {
      var id :| id in index && index[id] == p;
    }
  }

  lemma NoNames()
    ensures Names({}) == {}
  {
  }

  // What Close needs and yields, in one place.
  lemma CloseReady(w: World, b: Busy, c: CtxRef)
    requires Inv(w, b) && Open(w, c) && c !in b.ctxs
    ensures Inv(Close(w, c), b) && SerialInv(w.heap, w.nextSerial, w.freed)
    ensures var ca := w.ctxs[c].ptr;
      && ca in w.nctxs && IndexSound(w.heap, w.nctxs[ca].values)
      && Close(w, c) == w.(
          heap := w.heap - w.nctxs[ca].values.Values, freed := w.freed + Serials(w.heap, w.nctxs[ca].values.Values),
          nctxs := w.nctxs - {ca}, fns := w.fns - w.ctxs[c].fns, ctxs := w.ctxs[c := GoContext(0, true, {}, {})],
          vals := NullIn(w.vals, w.ctxs[c].live))
  {
    hide NullIn, Inv, NativeInv, ContextInv, ValueInv, SerialInv, IndexSound, Close, Serials;
    CloseKeepsInv(w, b, c);
    OpenNative(w, b, c);
    Parts(w, b);
    IndexExact(w, b, w.ctxs[c].ptr);
    CloseUnfold(w, c, w.ctxs[c].ptr);
  }

  lemma IndexExact(w: World, b: Busy, ca: Addr)
    requires NativeInv(w.heap, w.nctxs, b) && ca in w.nctxs && w.nctxs[ca].ref !in b.ctxs
    ensures IndexSound(w.heap, w.nctxs[ca].values)
  {
    IndexIsExact(w, b, ca);
  }

  lemma NoSerials(heap: map<Addr, NativeValue>)
    ensures Serials(heap, {}) == multiset{}
  {
  }

  lemma NamesAdd(s: set<Value>, v: Value)
    ensures (set u | u in s + {v} :: u.name) == (set u | u in s :: u.name) + {v.name}
  {
    assert v in s + {v};
    var t := s + {v};
    assert forall u {:trigger u in s} :: u in s ==> u in t;
    assert (set u | u in t :: u.name) == (set u | u in s :: u.name) + {v.name};
  }

  // Removing an object removes its name, when names identify objects.
  lemma NamesRemove(s: set<Value>, v: Value)
    requires forall u {:trigger u in s} :: u in s && u.name == v.name ==> u == v
    ensures Names(s - {v}) == Names(s) - {v.name}
  {
    forall n {:trigger n in Names(s)} | n in Names(s) && n != v.name ensures n in Names(s - {v}) {
      var u :| u in s && u.name == n;
      assert u in s - {v};
    }
  }

  lemma SerialsAdd(heap: map<Addr, NativeValue>, nextSerial: nat, freed: multiset<nat>, gone: set<Addr>, p: Addr)
    requires SerialInv(heap, nextSerial, freed) && p in heap && p !in gone
    ensures Serials(heap, gone + {p}) == Serials(heap, gone) + multiset{heap[p].serial}
  {
    var s := set q | q in gone && q in heap :: heap[q].serial;
    var t := set q | q in gone + {p} && q in heap :: heap[q].serial;
    forall q {:trigger q in heap} | q in gone && q in heap ensures heap[q].serial != heap[p].serial {
      if heap[q].serial == heap[p].serial {
        assert HasSerial(heap, p, heap[p].serial) && HasSerial(heap, q, heap[p].serial);
      }
    }
    assert t == s + {heap[p].serial} by {
      assert p in gone + {p};
      forall q {:trigger q in heap} | q in gone && q in heap ensures heap[q].serial in t { assert q in gone + {p}; }
    }
  }

  // What an owner points at can be released.
  lemma OwnerCell(w: World, b: Busy, v: Ref)
    requires Inv(w, b) && v in w.vals && v !in w.orphans && w.vals[v].ptr != 0
    ensures w.vals[v].ptr in w.heap && w.heap[w.vals[v].ptr].ctx in w.nctxs
  {
    assert Backed(w.vals[v], v, w.heap, w.ctxs);
    assert CellSound(w.heap[w.vals[v].ptr], w.vals[v].ptr, w.nctxs, b);
  }
}
