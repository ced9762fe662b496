/**
 Registration racing with Close.  Any number of threads run NewFunction,
 newValue, Release and Close on any contexts; each step below is one critical
 section of the source or one unsynchronised write between two of them.
 */
module CloseRace {

  type Tid = nat
  type CtxRef = nat
  type Ref = nat

  datatype Context = Context(closed: bool, hostFnIDs: set<nat>, liveValues: set<Ref>)

  // `live` stands for a pointer that is not nil
  datatype Wrapper = Wrapper(live: bool, ctx: CtxRef)

  datatype Pc =
    | Idle
    | FnStart(c: CtxRef)
    | FnRegistered(c: CtxRef, id: nat)           // between registerHostFunction and trackHostFunction
    | FnTracked(c: CtxRef, id: nat)              // native code is asked for the function
    | ValueMade(c: CtxRef, v: Ref)               // between &Value{...} and trackValue
    | Untracked(v: Ref)                          // Release, between untrackValue and clearing the pointer
    | CloseSwept(c: CtxRef, ids: set<nat>, todo: set<Ref>)    // Close has let go of the mutex

  datatype State = State(
    ctxs: map<CtxRef, Context>,
    hostFnRefs: map<nat, CtxRef>,    // the registered ids; which context each was made for is a history variable
    hostFnSeq: nat,
    vals: map<Ref, Wrapper>,
    threads: map<Tid, Pc>)

  datatype Step =
    | Open(c: CtxRef)
    | Begin(t: Tid)
    | StartFn(t: Tid, c: CtxRef)
    | Register(t: Tid)
    | TrackFn(t: Tid)
    | FinishFn(t: Tid, failed: bool)             // a failed NewFunction unregisters its id
    | MakeValue(t: Tid, c: CtxRef, v: Ref)
    | TrackValue(t: Tid)
    | Untrack(t: Tid, v: Ref)
    | FinishRelease(t: Tid)
    | Sweep(t: Tid, c: CtxRef)                   // Close, under the context mutex
    | InvalidateOne(t: Tid, v: Ref)              // Close, the loop over the swept values
    | Unregister(t: Tid)                         // Close, unregisterHostFunctions

  ghost predicate At(s: State, t: Tid, pc: Pc) {
    t in s.threads && s.threads[t] == pc
  }

  ghost predicate Enabled(s: State, a: Step) {
    match a
    case Open(c) => c !in s.ctxs
    case Begin(t) => t !in s.threads
    case StartFn(t, c) => At(s, t, Idle) && c in s.ctxs
    case Register(t) => t in s.threads && s.threads[t].FnStart?
    case TrackFn(t) => t in s.threads && s.threads[t].FnRegistered? && s.threads[t].c in s.ctxs
    case FinishFn(t, _) => t in s.threads && s.threads[t].FnTracked?
    case MakeValue(t, c, v) => At(s, t, Idle) && c in s.ctxs && v !in s.vals
    case TrackValue(t) => t in s.threads && s.threads[t].ValueMade? && s.threads[t].c in s.ctxs && s.threads[t].v in s.vals
    case Untrack(t, v) => At(s, t, Idle) && v in s.vals && s.vals[v].live && s.vals[v].ctx in s.ctxs
    case FinishRelease(t) => t in s.threads && s.threads[t].Untracked? && s.threads[t].v in s.vals
    case Sweep(t, c) => At(s, t, Idle) && c in s.ctxs
    case InvalidateOne(t, v) => t in s.threads && s.threads[t].CloseSwept? && v in s.threads[t].todo && v in s.vals
    case Unregister(t) => t in s.threads && s.threads[t].CloseSwept? && s.threads[t].todo == {}
  }

  ghost function Next(s: State, a: Step): State
    requires Enabled(s, a)
  {
    match a
    case Open(c) => s.(ctxs := s.ctxs[c := Context(false, {}, {})])
    case Begin(t) => s.(threads := s.threads[t := Idle])
    case StartFn(t, c) => s.(threads := s.threads[t := FnStart(c)])
    case Register(t) =>
      var c := s.threads[t].c;
      var id := s.hostFnSeq + 1;
      s.(hostFnSeq := id, hostFnRefs := s.hostFnRefs[id := c], threads := s.threads[t := FnRegistered(c, id)])
    case TrackFn(t) =>
      var FnRegistered(c, id) := s.threads[t];
      if s.ctxs[c].closed then
        s.(hostFnRefs := s.hostFnRefs - {id}, threads := s.threads[t := FnTracked(c, id)])
      else
        s.(ctxs := s.ctxs[c := s.ctxs[c].(hostFnIDs := s.ctxs[c].hostFnIDs + {id})],
           threads := s.threads[t := FnTracked(c, id)])
    case FinishFn(t, failed) =>
      s.(hostFnRefs := if failed then s.hostFnRefs - {s.threads[t].id} else s.hostFnRefs, threads := s.threads[t := Idle])
    case MakeValue(t, c, v) =>
      s.(vals := s.vals[v := Wrapper(true, c)], threads := s.threads[t := ValueMade(c, v)])
    case TrackValue(t) =>
      var ValueMade(c, v) := s.threads[t];
      if s.ctxs[c].closed then
        s.(vals := s.vals[v := s.vals[v].(live := false)], threads := s.threads[t := Idle])
      else
        s.(ctxs := s.ctxs[c := s.ctxs[c].(liveValues := s.ctxs[c].liveValues + {v})], threads := s.threads[t := Idle])
    case Untrack(t, v) =>
      var c := s.vals[v].ctx;
      s.(ctxs := s.ctxs[c := s.ctxs[c].(liveValues := s.ctxs[c].liveValues - {v})], threads := s.threads[t := Untracked(v)])
    case FinishRelease(t) =>
      var v := s.threads[t].v;
      s.(vals := s.vals[v := s.vals[v].(live := false)], threads := s.threads[t := Idle])
    case Sweep(t, c) =>
      if s.ctxs[c].closed then s
      else
        s.(ctxs := s.ctxs[c := Context(true, {}, {})],
           threads := s.threads[t := CloseSwept(c, s.ctxs[c].hostFnIDs, s.ctxs[c].liveValues)])
    case InvalidateOne(t, v) =>
      s.(vals := s.vals[v := s.vals[v].(live := false)],
         threads := s.threads[t := s.threads[t].(todo := s.threads[t].todo - {v})])
    case Unregister(t) =>
      s.(hostFnRefs := s.hostFnRefs - s.threads[t].ids, threads := s.threads[t := Idle])
  }

  /* ---- the invariant ---- */

  // Thread t still has to deal with callback id `id` of context c.
  ghost predicate OwesFn(pc: Pc, c: CtxRef, id: nat) {
    match pc
    case FnRegistered(c', id') => c' == c && id' == id
    case CloseSwept(c', ids, _) => c' == c && id in ids
    case _ => false
  }

  ghost predicate OwesValue(pc: Pc, v: Ref) {
    match pc
    case ValueMade(_, v') => v' == v
    case Untracked(v') => v' == v
    case CloseSwept(_, _, todo) => v in todo
    case _ => false
  }

  ghost predicate FnCovered(s: State, id: nat, c: CtxRef) {
    && c in s.ctxs
    && (id in s.ctxs[c].hostFnIDs || exists t :: t in s.threads && OwesFn(s.threads[t], c, id))
  }

  ghost predicate ValueCovered(s: State, v: Ref, c: CtxRef) {
    && c in s.ctxs
    && (v in s.ctxs[c].liveValues || exists t :: t in s.threads && OwesValue(s.threads[t], v))
  }

  // Nobody has hold of a callback id that is registered for another context.
  ghost predicate OwnId(s: State, id: nat, c: CtxRef) {
    id <= s.hostFnSeq && (id in s.hostFnRefs ==> s.hostFnRefs[id] == c)
  }

  ghost predicate PcOwn(s: State, pc: Pc) {
    match pc
    case FnStart(c) => c in s.ctxs
    case FnRegistered(c, id) => c in s.ctxs && OwnId(s, id, c)
    case FnTracked(c, id) => OwnId(s, id, c)
    case ValueMade(c, v) => c in s.ctxs && v in s.vals && s.vals[v].ctx == c
    case Untracked(v) => v in s.vals
    case CloseSwept(c, ids, todo) =>
      && c in s.ctxs && s.ctxs[c].closed
      && (forall id {:trigger id in ids} :: id in ids ==> OwnId(s, id, c))
      && (forall v {:trigger v in todo} :: v in todo ==> v in s.vals && s.vals[v].ctx == c)
    case Idle => true
  }

  ghost predicate ContextOwn(s: State, c: CtxRef)
    requires c in s.ctxs
  {
    && (forall id {:trigger id in s.ctxs[c].hostFnIDs} :: id in s.ctxs[c].hostFnIDs ==> OwnId(s, id, c))
    && (forall v {:trigger v in s.ctxs[c].liveValues} :: v in s.ctxs[c].liveValues ==> v in s.vals && s.vals[v].ctx == c)
    && (s.ctxs[c].closed ==> s.ctxs[c] == Context(true, {}, {}))
  }

  ghost predicate RaceInv(s: State) {
    && (forall id {:trigger id in s.hostFnRefs} :: id in s.hostFnRefs ==> 0 < id <= s.hostFnSeq && FnCovered(s, id, s.hostFnRefs[id]))
    && (forall v {:trigger v in s.vals} :: v in s.vals ==>
          s.vals[v].ctx in s.ctxs && (s.vals[v].live ==> ValueCovered(s, v, s.vals[v].ctx)))
    && (forall c {:trigger c in s.ctxs} :: c in s.ctxs ==> ContextOwn(s, c))
    && (forall t {:trigger t in s.threads} :: t in s.threads ==> PcOwn(s, s.threads[t]))
  }

  // What one step of a thread may do to everything it does not deal with itself.
  ghost predicate Local(s: State, s': State, t: Tid) {
    && s.ctxs.Keys <= s'.ctxs.Keys && s.vals.Keys <= s'.vals.Keys && s.hostFnSeq <= s'.hostFnSeq
    && t in s'.threads
    && (forall u {:trigger u in s'.threads} :: u in s'.threads && u != t ==> u in s.threads && s'.threads[u] == s.threads[u])
    && s.threads.Keys <= s'.threads.Keys
    && (forall v {:trigger v in s.vals} :: v in s.vals ==> s'.vals[v].ctx == s.vals[v].ctx)
    && (forall c {:trigger c in s.ctxs} :: c in s.ctxs && s.ctxs[c].closed ==> s'.ctxs[c].closed)
    && (forall id {:trigger id in s'.hostFnRefs} :: id in s'.hostFnRefs && id <= s.hostFnSeq ==>
          id in s.hostFnRefs && s'.hostFnRefs[id] == s.hostFnRefs[id])
  }

  lemma OthersKept(s: State, s': State, t: Tid)
    requires RaceInv(s) && Local(s, s', t)
    ensures forall u {:trigger u in s'.threads} :: u in s'.threads && u != t ==> PcOwn(s', s'.threads[u])
  {
    forall u {:trigger u in s'.threads} | u in s'.threads && u != t ensures PcOwn(s', s'.threads[u]) {
      assert PcOwn(s, s.threads[u]);
      PcOwnKept(s, s', t, s.threads[u]);
    }
  }

  lemma PcOwnKept(s: State, s': State, t: Tid, pc: Pc)
    requires Local(s, s', t) && PcOwn(s, pc)
    ensures PcOwn(s', pc)
  {
    forall id, c | OwnId(s, id, c) ensures OwnId(s', id, c) {}
  }

  lemma ContextKept(s: State, s': State, t: Tid, c: CtxRef)
    requires RaceInv(s) && Local(s, s', t) && c in s.ctxs && c in s'.ctxs && s'.ctxs[c] == s.ctxs[c]
    ensures ContextOwn(s', c)
  {
    assert ContextOwn(s, c);
    forall id {:trigger id in s'.ctxs[c].hostFnIDs} | id in s'.ctxs[c].hostFnIDs ensures OwnId(s', id, c) {
      assert OwnId(s, id, c);
    }
  }

  // A callback id stays accounted for unless the context or the stepping thread drops it.
  lemma FnKept(s: State, s': State, t: Tid, id: nat, c: CtxRef)
    requires FnCovered(s, id, c) && Local(s, s', t) && c in s'.ctxs
    requires id in s.ctxs[c].hostFnIDs ==> FnCovered(s', id, c)
    requires t in s.threads && OwesFn(s.threads[t], c, id) ==> FnCovered(s', id, c)
    ensures FnCovered(s', id, c)
  {
    if id !in s.ctxs[c].hostFnIDs {
      var u :| u in s.threads && OwesFn(s.threads[u], c, id);
      if u != t { assert u in s'.threads && OwesFn(s'.threads[u], c, id); }
    }
  }

  lemma ValueKept(s: State, s': State, t: Tid, v: Ref, c: CtxRef)
    requires ValueCovered(s, v, c) && Local(s, s', t) && c in s'.ctxs
    requires v in s.ctxs[c].liveValues ==> ValueCovered(s', v, c)
    requires t in s.threads && OwesValue(s.threads[t], v) ==> ValueCovered(s', v, c)
    ensures ValueCovered(s', v, c)
  {
    if v !in s.ctxs[c].liveValues {
      var u :| u in s.threads && OwesValue(s.threads[u], v);
      if u != t { assert u in s'.threads && OwesValue(s'.threads[u], v); }
    }
  }

  /* ---- every step keeps it ---- */

  // The stepping thread changed the registry and its own place in the program, not the values.
  lemma FnStep(s: State, s': State, t: Tid)
    requires RaceInv(s) && Local(s, s', t) && s'.vals == s.vals && s'.ctxs.Keys == s.ctxs.Keys
    requires forall c {:trigger c in s.ctxs} :: c in s.ctxs ==> s'.ctxs[c].liveValues == s.ctxs[c].liveValues
    requires t in s.threads && forall v :: OwesValue(s.threads[t], v) ==> OwesValue(s'.threads[t], v)
    requires PcOwn(s', s'.threads[t])
    requires forall c {:trigger c in s'.ctxs} :: c in s'.ctxs ==> ContextOwn(s', c)
    requires forall id {:trigger id in s'.hostFnRefs} :: id in s'.hostFnRefs ==>
      0 < id <= s'.hostFnSeq && FnCovered(s', id, s'.hostFnRefs[id])
    ensures RaceInv(s')
  {
    OthersKept(s, s', t);
    forall v {:trigger v in s'.vals} | v in s'.vals && s'.vals[v].live ensures ValueCovered(s', v, s'.vals[v].ctx) {
      ValueKept(s, s', t, v, s.vals[v].ctx);
    }
  }

  lemma ValueStep(s: State, s': State, t: Tid)
    requires RaceInv(s) && Local(s, s', t) && s'.hostFnRefs == s.hostFnRefs && s'.hostFnSeq == s.hostFnSeq && s'.ctxs.Keys == s.ctxs.Keys
    requires forall c {:trigger c in s.ctxs} :: c in s.ctxs ==> s'.ctxs[c].hostFnIDs == s.ctxs[c].hostFnIDs
    requires t in s.threads && forall c, id :: OwesFn(s.threads[t], c, id) ==> OwesFn(s'.threads[t], c, id)
    requires PcOwn(s', s'.threads[t])
    requires forall c {:trigger c in s'.ctxs} :: c in s'.ctxs ==> ContextOwn(s', c)
    requires forall v {:trigger v in s'.vals} :: v in s'.vals ==>
      s'.vals[v].ctx in s'.ctxs && (s'.vals[v].live ==> ValueCovered(s', v, s'.vals[v].ctx))
    ensures RaceInv(s')
  {
    OthersKept(s, s', t);
    forall id {:trigger id in s'.hostFnRefs} | id in s'.hostFnRefs
      ensures 0 < id <= s'.hostFnSeq && FnCovered(s', id, s'.hostFnRefs[id])
    {
      FnKept(s, s', t, id, s.hostFnRefs[id]);
    }
  }

  lemma ContextsKept(s: State, s': State, t: Tid)
    requires RaceInv(s) && Local(s, s', t) && s'.ctxs == s.ctxs
    ensures forall c {:trigger c in s'.ctxs} :: c in s'.ctxs ==> ContextOwn(s', c)
  {
    forall c {:trigger c in s'.ctxs} | c in s'.ctxs ensures ContextOwn(s', c) { ContextKept(s, s', t, c); }
  }

  lemma RegisterKeeps(s: State, t: Tid)
    requires RaceInv(s) && Enabled(s, Register(t))
    ensures RaceInv(Next(s, Register(t)))
  {
    var s' := Next(s, Register(t));
    assert PcOwn(s, s.threads[t]);
    ContextsKept(s, s', t);
    forall id {:trigger id in s'.hostFnRefs} | id in s'.hostFnRefs
      ensures 0 < id <= s'.hostFnSeq && FnCovered(s', id, s'.hostFnRefs[id])
    {
      if id == s'.hostFnSeq {
        assert OwesFn(s'.threads[t], s'.hostFnRefs[id], id);
      } else {
        FnKept(s, s', t, id, s.hostFnRefs[id]);
      }
    }
    FnStep(s, s', t);
  }

  lemma TrackFnKeeps(s: State, t: Tid)
    requires RaceInv(s) && Enabled(s, TrackFn(t))
    ensures RaceInv(Next(s, TrackFn(t)))
  {
    var s' := Next(s, TrackFn(t));
    var FnRegistered(c, id) := s.threads[t];
    assert PcOwn(s, s.threads[t]) && ContextOwn(s, c);
    forall d {:trigger d in s'.ctxs} | d in s'.ctxs ensures ContextOwn(s', d) {
      if d != c || s.ctxs[c].closed { ContextKept(s, s', t, d); }
      else {
        forall i {:trigger i in s'.ctxs[c].hostFnIDs} | i in s'.ctxs[c].hostFnIDs ensures OwnId(s', i, c) {
          assert OwnId(s, i, c);
        }
      }
    }
    forall i {:trigger i in s'.hostFnRefs} | i in s'.hostFnRefs
      ensures 0 < i <= s'.hostFnSeq && FnCovered(s', i, s'.hostFnRefs[i])
    {
      FnKept(s, s', t, i, s.hostFnRefs[i]);
    }
    FnStep(s, s', t);
  }

  lemma FinishFnKeeps(s: State, t: Tid, failed: bool)
    requires RaceInv(s) && Enabled(s, FinishFn(t, failed))
    ensures RaceInv(Next(s, FinishFn(t, failed)))
  {
    var s' := Next(s, FinishFn(t, failed));
    ContextsKept(s, s', t);
    forall i {:trigger i in s'.hostFnRefs} | i in s'.hostFnRefs
      ensures 0 < i <= s'.hostFnSeq && FnCovered(s', i, s'.hostFnRefs[i])
    {
      FnKept(s, s', t, i, s.hostFnRefs[i]);
    }
    FnStep(s, s', t);
  }

  lemma UnregisterKeeps(s: State, t: Tid)
    requires RaceInv(s) && Enabled(s, Unregister(t))
    ensures RaceInv(Next(s, Unregister(t)))
  {
    var s' := Next(s, Unregister(t));
    ContextsKept(s, s', t);
    forall i {:trigger i in s'.hostFnRefs} | i in s'.hostFnRefs
      ensures 0 < i <= s'.hostFnSeq && FnCovered(s', i, s'.hostFnRefs[i])
    {
      FnKept(s, s', t, i, s.hostFnRefs[i]);
    }
    FnStep(s, s', t);
  }

  lemma TrackValueKeeps(s: State, t: Tid)
    requires RaceInv(s) && Enabled(s, TrackValue(t))
    ensures RaceInv(Next(s, TrackValue(t)))
  {
    var s' := Next(s, TrackValue(t));
    var ValueMade(c, v) := s.threads[t];
    assert PcOwn(s, s.threads[t]) && ContextOwn(s, c);
    forall d {:trigger d in s'.ctxs} | d in s'.ctxs ensures ContextOwn(s', d) {
      if d != c || s.ctxs[c].closed { ContextKept(s, s', t, d); }
    }
    forall u {:trigger u in s'.vals} | u in s'.vals && s'.vals[u].live ensures ValueCovered(s', u, s'.vals[u].ctx) {
      ValueKept(s, s', t, u, s.vals[u].ctx);
    }
    ValueStep(s, s', t);
  }

  lemma MakeValueKeeps(s: State, t: Tid, c: CtxRef, v: Ref)
    requires RaceInv(s) && Enabled(s, MakeValue(t, c, v))
    ensures RaceInv(Next(s, MakeValue(t, c, v)))
  {
    var s' := Next(s, MakeValue(t, c, v));
    ContextsKept(s, s', t);
    forall u {:trigger u in s'.vals} | u in s'.vals && s'.vals[u].live ensures ValueCovered(s', u, s'.vals[u].ctx) {
      if u == v { assert OwesValue(s'.threads[t], v); } else { ValueKept(s, s', t, u, s.vals[u].ctx); }
    }
    ValueStep(s, s', t);
  }

  lemma UntrackKeeps(s: State, t: Tid, v: Ref)
    requires RaceInv(s) && Enabled(s, Untrack(t, v))
    ensures RaceInv(Next(s, Untrack(t, v)))
  {
    var s' := Next(s, Untrack(t, v));
    var c := s.vals[v].ctx;
    assert ContextOwn(s, c);
    forall d {:trigger d in s'.ctxs} | d in s'.ctxs ensures ContextOwn(s', d) {
      if d != c { ContextKept(s, s', t, d); }
    }
    forall u {:trigger u in s'.vals} | u in s'.vals && s'.vals[u].live ensures ValueCovered(s', u, s'.vals[u].ctx) {
      if u == v { assert OwesValue(s'.threads[t], v); }
      ValueKept(s, s', t, u, s.vals[u].ctx);
    }
    ValueStep(s, s', t);
  }

  // FinishRelease and InvalidateOne clear one pointer
  lemma ClearKeeps(s: State, s': State, t: Tid, v: Ref)
    requires RaceInv(s) && t in s.threads && v in s.vals && t in s'.threads
    requires s' == s.(vals := s.vals[v := s.vals[v].(live := false)], threads := s.threads[t := s'.threads[t]])
    requires PcOwn(s, s'.threads[t])
    requires forall u :: OwesValue(s.threads[t], u) && u != v ==> OwesValue(s'.threads[t], u)
    requires forall c, id :: OwesFn(s.threads[t], c, id) ==> OwesFn(s'.threads[t], c, id)
    ensures RaceInv(s')
  {
    ContextsKept(s, s', t);
    PcOwnKept(s, s', t, s'.threads[t]);
    forall u {:trigger u in s'.vals} | u in s'.vals && s'.vals[u].live ensures ValueCovered(s', u, s'.vals[u].ctx) {
      ValueKept(s, s', t, u, s.vals[u].ctx);
    }
    ValueStep(s, s', t);
  }

  lemma SweepKeeps(s: State, t: Tid, c: CtxRef)
    requires RaceInv(s) && Enabled(s, Sweep(t, c))
    ensures RaceInv(Next(s, Sweep(t, c)))
  {
    var s' := Next(s, Sweep(t, c));
    if !s.ctxs[c].closed {
      assert ContextOwn(s, c);
      assert PcOwn(s', s'.threads[t]);
      forall d {:trigger d in s'.ctxs} | d in s'.ctxs ensures ContextOwn(s', d) {
        if d != c { ContextKept(s, s', t, d); }
      }
      forall id {:trigger id in s'.hostFnRefs} | id in s'.hostFnRefs
        ensures 0 < id <= s'.hostFnSeq && FnCovered(s', id, s'.hostFnRefs[id])
      {
        if id in s.ctxs[c].hostFnIDs { assert OwesFn(s'.threads[t], c, id); }
        FnKept(s, s', t, id, s.hostFnRefs[id]);
      }
      forall u {:trigger u in s'.vals} | u in s'.vals && s'.vals[u].live ensures ValueCovered(s', u, s'.vals[u].ctx) {
        if u in s.ctxs[c].liveValues { assert OwesValue(s'.threads[t], u); }
        ValueKept(s, s', t, u, s.vals[u].ctx);
      }
      OthersKept(s, s', t);
    }
  }

  // Open, Begin and StartFn: something new, with nothing in it yet
  lemma BirthKeeps(s: State, a: Step)
    requires RaceInv(s) && Enabled(s, a) && (a.Open? || a.Begin? || a.StartFn?)
    ensures RaceInv(Next(s, a))
  {
    var s' := Next(s, a);
    forall t {:trigger t in s'.threads} | t in s'.threads ensures PcOwn(s', s'.threads[t]) {
      if t in s.threads { assert PcOwn(s, s.threads[t]); }
    }
    forall c {:trigger c in s'.ctxs} | c in s'.ctxs ensures ContextOwn(s', c) {
      if c in s.ctxs { assert ContextOwn(s, c); }
    }
    forall id {:trigger id in s'.hostFnRefs} | id in s'.hostFnRefs
      ensures 0 < id <= s'.hostFnSeq && FnCovered(s', id, s'.hostFnRefs[id])
    {
      var c := s.hostFnRefs[id];
      assert FnCovered(s, id, c);
      if id !in s.ctxs[c].hostFnIDs {
        var u :| u in s.threads && OwesFn(s.threads[u], c, id);
        assert u in s'.threads && OwesFn(s'.threads[u], c, id);
      }
    }
    forall v {:trigger v in s'.vals} | v in s'.vals && s'.vals[v].live ensures ValueCovered(s', v, s'.vals[v].ctx) {
      var c := s.vals[v].ctx;
      assert ValueCovered(s, v, c);
      if v !in s.ctxs[c].liveValues {
        var u :| u in s.threads && OwesValue(s.threads[u], v);
        assert u in s'.threads && OwesValue(s'.threads[u], v);
      }
    }
  }

  lemma NextKeepsRaceInv(s: State, a: Step)
    requires RaceInv(s) && Enabled(s, a)
    ensures RaceInv(Next(s, a))
  {
    match a
    case Open(_) => BirthKeeps(s, a);
    case Begin(_) => BirthKeeps(s, a);
    case StartFn(_, _) => BirthKeeps(s, a);
    case Register(t) => RegisterKeeps(s, t);
    case TrackFn(t) => TrackFnKeeps(s, t);
    case FinishFn(t, failed) => FinishFnKeeps(s, t, failed);
    case MakeValue(t, c, v) => MakeValueKeeps(s, t, c, v);
    case TrackValue(t) => TrackValueKeeps(s, t);
    case Untrack(t, v) => UntrackKeeps(s, t, v);
    case FinishRelease(t) =>
      assert PcOwn(s, s.threads[t]);
      ClearKeeps(s, Next(s, a), t, s.threads[t].v);
    case Sweep(t, c) => SweepKeeps(s, t, c);
    case InvalidateOne(t, v) =>
      assert PcOwn(s, s.threads[t]);
      ClearKeeps(s, Next(s, a), t, v);
    case Unregister(t) => UnregisterKeeps(s, t);
  }

  ghost predicate RunOk(s: State, steps: seq<Step>)
    decreases |steps|
  {
    steps == [] || (Enabled(s, steps[0]) && RunOk(Next(s, steps[0]), steps[1..]))
  }

  ghost function Run(s: State, steps: seq<Step>): State
    requires RunOk(s, steps)
    decreases |steps|
  {
    if steps == [] then s else Run(Next(s, steps[0]), steps[1..])
  }

  lemma {:induction false} RunKeepsRaceInv(s: State, steps: seq<Step>)
    requires RaceInv(s) && RunOk(s, steps)
    ensures RaceInv(Run(s, steps))
    decreases |steps|
  {
    if steps != [] {
      NextKeepsRaceInv(s, steps[0]);
      RunKeepsRaceInv(Next(s, steps[0]), steps[1..]);
    }
  }

  const START := State(map[], map[], 0, map[], map[])

  // No thread is in the middle of something that concerns context c.
  ghost predicate Settled(s: State, c: CtxRef) {
    forall t {:trigger t in s.threads} :: t in s.threads ==>
      match s.threads[t]
      case FnRegistered(d, _) => d != c
      case ValueMade(d, _) => d != c
      case CloseSwept(d, _, _) => d != c
      case Untracked(v) => v in s.vals ==> s.vals[v].ctx != c
      case _ => true
  }

  lemma LiveIsOwed(s: State, v: Ref)
    requires RaceInv(s) && v in s.vals && s.vals[v].ctx in s.ctxs && s.ctxs[s.vals[v].ctx].closed
    ensures s.vals[v].live ==> exists t {:trigger s.threads[t]} :: t in s.threads && OwesValue(s.threads[t], v) && PcOwn(s, s.threads[t])
  {
    assert ContextOwn(s, s.vals[v].ctx);
    if s.vals[v].live {
      assert ValueCovered(s, v, s.vals[v].ctx);
      var t :| t in s.threads && OwesValue(s.threads[t], v);
      assert PcOwn(s, s.threads[t]);
    }
  }

  // Once everything concerning a closed context has finished, however it was interleaved, none of its
  // callback ids is registered and none of its values points anywhere.
  lemma CloseIsClean(steps: seq<Step>, c: CtxRef)
    requires RunOk(START, steps)
    requires var s := Run(START, steps); c in s.ctxs && s.ctxs[c].closed && Settled(s, c)
    ensures var s := Run(START, steps);
      && (forall id {:trigger id in s.hostFnRefs} :: id in s.hostFnRefs ==> s.hostFnRefs[id] != c)
      && (forall v {:trigger v in s.vals} :: v in s.vals && s.vals[v].ctx == c ==> !s.vals[v].live)
  {
    RunKeepsRaceInv(START, steps);
    var s := Run(START, steps);
    assert ContextOwn(s, c);
    forall id {:trigger id in s.hostFnRefs} | id in s.hostFnRefs ensures s.hostFnRefs[id] != c {
      assert FnCovered(s, id, s.hostFnRefs[id]);
    }
    forall v {:trigger v in s.vals} | v in s.vals && s.vals[v].ctx == c ensures !s.vals[v].live {
      LiveIsOwed(s, v);
    }
  }

  // Closing one context never unregisters another's function nor touches another's values.
  lemma CloseLeavesOthers(steps: seq<Step>, a: Step, c: CtxRef)
    requires RunOk(START, steps) && Enabled(Run(START, steps), a)
    requires var s := Run(START, steps);
      match a
      case Sweep(_, d) => d == c
      case InvalidateOne(t, _) => s.threads[t].c == c
      case Unregister(t) => s.threads[t].c == c
      case _ => false
    ensures var s := Run(START, steps);
      var s' := Next(s, a);
      && (forall d {:trigger d in s.ctxs} :: d in s.ctxs && d != c ==> s'.ctxs[d] == s.ctxs[d])
      && (forall id {:trigger id in s.hostFnRefs} :: id in s.hostFnRefs && s.hostFnRefs[id] != c ==>
            id in s'.hostFnRefs && s'.hostFnRefs[id] == s.hostFnRefs[id])
      && (forall v {:trigger v in s.vals} :: v in s.vals && s.vals[v].ctx != c ==> s'.vals[v] == s.vals[v])
  {
    RunKeepsRaceInv(START, steps);
    var s := Run(START, steps);
    if a.InvalidateOne? || a.Unregister? { assert PcOwn(s, s.threads[a.t]); }
    var s' := Next(s, a);
    forall id {:trigger id in s.hostFnRefs} | id in s.hostFnRefs && s.hostFnRefs[id] != c
      ensures id in s'.hostFnRefs && s'.hostFnRefs[id] == s.hostFnRefs[id]
    {
      assert a.Unregister? && id in s.threads[a.t].ids ==> OwnId(s, id, c);
    }
  }

  /* ---- what each step does ---- */

  // The step takes callback id `id` out of the registry: its context was closed before it could be tracked, native
  // code failed, or Close had swept it.
  ghost predicate Drops(s: State, a: Step, id: nat)
    requires Enabled(s, a)
  {
    match a
    case TrackFn(t) => s.threads[t].id == id && s.ctxs[s.threads[t].c].closed
    case FinishFn(t, failed) => failed && s.threads[t].id == id
    case Unregister(t) => id in s.threads[t].ids
    case _ => false
  }

  // The step clears the pointer of v: its context was closed before it could be tracked, it is released, or Close
  // had swept it.
  ghost predicate Clears(s: State, a: Step, v: Ref)
    requires Enabled(s, a)
  {
    match a
    case TrackValue(t) => s.threads[t].v == v && s.ctxs[s.threads[t].c].closed
    case FinishRelease(t) => s.threads[t].v == v
    case InvalidateOne(_, u) => u == v
    case _ => false
  }

  // Which ids are registered, which pointers are there and which contexts are closed after a step: nothing else is
  // dropped, cleared or closed, and nothing comes back.
  lemma StepChanges(s: State, a: Step)
    requires Enabled(s, a)
    ensures var s' := Next(s, a);
      && (forall id {:trigger id in s'.hostFnRefs} {:trigger id in s.hostFnRefs} ::
            id in s'.hostFnRefs <==> (id in s.hostFnRefs && !Drops(s, a, id)) || (a.Register? && id == s.hostFnSeq + 1))
      && (forall id {:trigger id in s'.hostFnRefs} :: id in s'.hostFnRefs ==>
            s'.hostFnRefs[id] == if a.Register? && id == s.hostFnSeq + 1 then s.threads[a.t].c else s.hostFnRefs[id])
      && s'.vals.Keys == s.vals.Keys + (if a.MakeValue? then {a.v} else {})
      && (forall v {:trigger v in s'.vals} :: v in s'.vals ==>
            s'.vals[v] == if v !in s.vals then Wrapper(true, a.c) else s.vals[v].(live := s.vals[v].live && !Clears(s, a, v)))
      && s'.ctxs.Keys == s.ctxs.Keys + (if a.Open? then {a.c} else {})
      && (forall c {:trigger c in s'.ctxs} :: c in s'.ctxs ==>
            (s'.ctxs[c].closed <==> c in s.ctxs && (s.ctxs[c].closed || (a.Sweep? && a.c == c))))
  {
  }

  // Which ids and values a context that stays open tracks, and what Close takes with it.
  lemma TrackingChanges(s: State, a: Step, c: CtxRef)
    requires Enabled(s, a) && c in s.ctxs && !s.ctxs[c].closed
    ensures var (g, s') := (s.ctxs[c], Next(s, a));
      && c in s'.ctxs
      && (!s'.ctxs[c].closed ==>
            && s'.ctxs[c].hostFnIDs == g.hostFnIDs + (if a.TrackFn? && s.threads[a.t].c == c then {s.threads[a.t].id} else {})
            && s'.ctxs[c].liveValues == g.liveValues
                 + (if a.TrackValue? && s.threads[a.t].c == c then {s.threads[a.t].v} else {})
                 - (if a.Untrack? && s.vals[a.v].ctx == c then {a.v} else {}))
      && (s'.ctxs[c].closed ==> a.Sweep? && At(s', a.t, CloseSwept(c, g.hostFnIDs, g.liveValues)))
  {
  }

  // Where a thread is after its step.
  lemma StepGoesTo(s: State, a: Step)
    requires Enabled(s, a)
    ensures var s' := Next(s, a);
      match a
      case Open(_) => s'.threads == s.threads
      case Begin(u) => s'.threads == s.threads[u := Idle]
      case StartFn(u, c) => s'.threads == s.threads[u := FnStart(c)]
      case Register(u) => s'.threads == s.threads[u := FnRegistered(s.threads[u].c, s.hostFnSeq + 1)]
      case TrackFn(u) => s'.threads == s.threads[u := FnTracked(s.threads[u].c, s.threads[u].id)]
      case MakeValue(u, c, v) => s'.threads == s.threads[u := ValueMade(c, v)]
      case Untrack(u, v) => s'.threads == s.threads[u := Untracked(v)]
      case Sweep(u, c) =>
        s'.threads == if s.ctxs[c].closed then s.threads else s.threads[u := CloseSwept(c, s.ctxs[c].hostFnIDs, s.ctxs[c].liveValues)]
      case InvalidateOne(u, v) =>
        s'.threads == s.threads[u := CloseSwept(s.threads[u].c, s.threads[u].ids, s.threads[u].todo - {v})]
      case _ => s'.threads == s.threads[a.t := Idle]
  {
  }

  // Thread t can take the next step of whatever it is doing.
  ghost predicate CanMove(s: State, t: Tid)
    requires t in s.threads
  {
    match s.threads[t]
    case Idle =>
      && (forall c {:trigger Enabled(s, StartFn(t, c))} {:trigger Enabled(s, Sweep(t, c))} ::
            c in s.ctxs ==> Enabled(s, StartFn(t, c)) && Enabled(s, Sweep(t, c)))
      && (forall v {:trigger Enabled(s, Untrack(t, v))} :: v in s.vals && s.vals[v].live ==> Enabled(s, Untrack(t, v)))
      && (forall c, v {:trigger Enabled(s, MakeValue(t, c, v))} :: c in s.ctxs && v !in s.vals ==> Enabled(s, MakeValue(t, c, v)))
    case FnStart(_) => Enabled(s, Register(t))
    case FnRegistered(_, _) => Enabled(s, TrackFn(t))
    case FnTracked(_, _) => Enabled(s, FinishFn(t, true)) && Enabled(s, FinishFn(t, false))
    case ValueMade(_, _) => Enabled(s, TrackValue(t))
    case Untracked(_) => Enabled(s, FinishRelease(t))
    case CloseSwept(_, _, todo) =>
      if todo == {} then Enabled(s, Unregister(t))
      else forall v {:trigger Enabled(s, InvalidateOne(t, v))} :: v in todo ==> Enabled(s, InvalidateOne(t, v))
  }

  // In every reachable state each thread can go on.
  lemma ThreadsCanMove(steps: seq<Step>, t: Tid)
    requires RunOk(START, steps) && t in Run(START, steps).threads
    ensures CanMove(Run(START, steps), t)
  {
    hide CanMove;
    RunKeepsRaceInv(START, steps);
    var s := Run(START, steps);
    assert PcOwn(s, s.threads[t]);
    OwnMoves(s, t);
  }

  lemma OwnMoves(s: State, t: Tid)
    requires t in s.threads && PcOwn(s, s.threads[t])
    requires forall v {:trigger v in s.vals} :: v in s.vals ==> s.vals[v].ctx in s.ctxs
    ensures CanMove(s, t)
  {
  }

  /* ---- what an open context keeps ---- */

  // c is open, and tracks id, which is registered for it.
  ghost predicate FnThere(s: State, c: CtxRef, id: nat) {
    c in s.ctxs && !s.ctxs[c].closed && id in s.ctxs[c].hostFnIDs && id in s.hostFnRefs && s.hostFnRefs[id] == c
  }

  ghost predicate Fails(s: State, steps: seq<Step>, id: nat)
    requires RunOk(s, steps)
    decreases |steps|
  {
    steps != [] && ((steps[0].FinishFn? && steps[0].failed && s.threads[steps[0].t].id == id) || Fails(Next(s, steps[0]), steps[1..], id))
  }

  // Whatever other threads do, an id that an open context tracks stays registered until the context is closed,
  // unless native code fails to make the function.
  lemma {:induction false} FunctionStays(s: State, steps: seq<Step>, c: CtxRef, id: nat)
    requires RaceInv(s) && RunOk(s, steps) && FnThere(s, c, id) && !Fails(s, steps, id)
    ensures var s' := Run(s, steps);
      c in s'.ctxs && (s'.ctxs[c].closed || FnThere(s', c, id))
    decreases |steps|
  {
    if steps != [] {
      var a := steps[0];
      var s1 := Next(s, a);
      NextKeepsRaceInv(s, a);
      StepChanges(s, a);
      TrackingChanges(s, a, c);
      if s1.ctxs[c].closed {
        StaysClosed(s1, steps[1..], c);
      } else {
        if a.Unregister? { assert PcOwn(s, s.threads[a.t]); }
        if a.TrackFn? { assert PcOwn(s, s.threads[a.t]); }
        assert !Drops(s, a, id);
        FunctionStays(s1, steps[1..], c, id);
      }
    }
  }

  lemma {:induction false} StaysClosed(s: State, steps: seq<Step>, c: CtxRef)
    requires RunOk(s, steps) && c in s.ctxs && s.ctxs[c].closed
    ensures c in Run(s, steps).ctxs && Run(s, steps).ctxs[c].closed
    decreases |steps|
  {
    if steps != [] {
      StepChanges(s, steps[0]);
      StaysClosed(Next(s, steps[0]), steps[1..], c);
    }
  }
}
