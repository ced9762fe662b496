/**
 Trees of nested API calls and callbacks on one thread.  Every call brackets
 itself with enter or mustEnter and a deferred leave; its body may run host
 callbacks, which are again calls; deferred cleanups run before the leave and may
 re-enter; a panic unwinds through every deferred function.  Meanwhile other
 threads enter and leave whatever this thread does not own.
 */
module CallTrees {
  import opened IsolateLock

  type Locks = map<IsoId, Lock>

  datatype Call = Call(
    iso: IsoId,
    must: bool,                       // mustEnter panics where enter returns an error
    others: Locks,                    // what other threads have made of the locks by now
    body: seq<Call>,
    crashes: bool,                    // user code panics after the body
    cleanups: seq<Call>)

  datatype Outcome = Outcome(locks: Locks, pins: nat, panicked: bool)

  ghost predicate Tidy(l: Lock) {
    l.depth == 0 <==> l.owner == 0
  }

  ghost predicate AllTidy(locks: Locks) {
    forall i {:trigger i in locks} :: i in locks ==> Tidy(locks[i])
  }

  ghost function Interfere(locks: Locks, others: Locks, t: Thread): Locks {
    map i | i in locks ::
      if i in others && locks[i].owner != t && others[i].owner != t && Tidy(others[i]) then others[i] else locks[i]
  }

  ghost function Perform(locks: Locks, pins: nat, t: Thread, call: Call): Outcome
    decreases call
  {
    var locks1 := Interfere(locks, call.others, t);
    if call.iso !in locks1 || !Grants(locks1[call.iso], t) then Outcome(locks1, pins, call.must)
    else
      var body := PerformAll(locks1[call.iso := Grab(locks1[call.iso], t)], pins + 1, t, call.body);
      var clean := PerformAll(body.locks, body.pins, t, call.cleanups);
      if call.iso !in clean.locks || Panics(clean.locks[call.iso], t) then clean.(panicked := true)
      else
        Outcome(clean.locks[call.iso := Drop(clean.locks[call.iso], t)],
                if clean.pins > 0 then clean.pins - 1 else 0,
                body.panicked || call.crashes || clean.panicked)
  }

  // one after the other, until one panics
  ghost function PerformAll(locks: Locks, pins: nat, t: Thread, calls: seq<Call>): Outcome
    decreases calls
  {
    if calls == [] then Outcome(locks, pins, false)
    else
      var first := Perform(locks, pins, t, calls[0]);
      if first.panicked then first else PerformAll(first.locks, first.pins, t, calls[1..])
  }

  // What thread t owns, and how deep, is the same; nothing else has become t's.
  ghost predicate SameHold(locks: Locks, locks': Locks, t: Thread) {
    && locks'.Keys == locks.Keys
    && forall i {:trigger i in locks} {:trigger i in locks'} :: i in locks ==>
         && (locks[i].owner == t ==> locks'[i] == locks[i])
         && (locks'[i].owner == t ==> locks[i].owner == t)
  }

  lemma OthersKeepOut(locks: Locks, others: Locks, t: Thread)
    requires AllTidy(locks)
    ensures AllTidy(Interfere(locks, others, t)) && SameHold(locks, Interfere(locks, others, t), t)
  {
  }

  // A leave undoes the enter it belongs to, if what happened in between kept this thread's locks.
  lemma LeaveUndoesEnter(locks: Locks, inner: Locks, i: IsoId, t: Thread)
    requires AllTidy(locks) && AllTidy(inner) && t != 0 && i in locks && Grants(locks[i], t)
    requires SameHold(locks[i := Grab(locks[i], t)], inner, t)
    ensures i in inner && !Panics(inner[i], t)
    ensures var out := inner[i := Drop(inner[i], t)];
      AllTidy(out) && SameHold(locks, out, t)
  {
    assert Tidy(locks[i]);
    assert inner[i] == Grab(locks[i], t);
  }

  lemma SameHoldTrans(a: Locks, b: Locks, c: Locks, t: Thread)
    requires SameHold(a, b, t) && SameHold(b, c, t)
    ensures SameHold(a, c, t)
  {
  }

  // Whatever the tree does, fails at or panics in, its thread ends with the locks it started with.
  lemma {:induction false} CallRestores(locks: Locks, pins: nat, t: Thread, call: Call)
    requires AllTidy(locks) && t != 0
    ensures var o := Perform(locks, pins, t, call);
      AllTidy(o.locks) && SameHold(locks, o.locks, t) && o.pins == pins
    decreases call
  {
    var locks1 := Interfere(locks, call.others, t);
    OthersKeepOut(locks, call.others, t);
    if call.iso in locks1 && Grants(locks1[call.iso], t) {
      var locks2 := locks1[call.iso := Grab(locks1[call.iso], t)];
      assert Tidy(locks1[call.iso]);
      assert AllTidy(locks2);
      hide Interfere, SameHold, AllTidy;
      CallsRestore(locks2, pins + 1, t, call.body);
      var body := PerformAll(locks2, pins + 1, t, call.body);
      CallsRestore(body.locks, body.pins, t, call.cleanups);
      var clean := PerformAll(body.locks, body.pins, t, call.cleanups);
      SameHoldTrans(locks2, body.locks, clean.locks, t);
      LeaveUndoesEnter(locks1, clean.locks, call.iso, t);
      SameHoldTrans(locks, locks1, clean.locks[call.iso := Drop(clean.locks[call.iso], t)], t);
    }
  }

  lemma {:induction false} CallsRestore(locks: Locks, pins: nat, t: Thread, calls: seq<Call>)
    requires AllTidy(locks) && t != 0
    ensures var o := PerformAll(locks, pins, t, calls);
      AllTidy(o.locks) && SameHold(locks, o.locks, t) && o.pins == pins
    decreases calls
  {
    if calls != [] {
      CallRestores(locks, pins, t, calls[0]);
      var first := Perform(locks, pins, t, calls[0]);
      if !first.panicked { CallsRestore(first.locks, first.pins, t, calls[1..]); }
    }
  }

  /* ---- undisturbed trees ---- */

  ghost predicate Undisturbed(call: Call)
    decreases call
  {
    call.others == map[] && AllUndisturbed(call.body) && AllUndisturbed(call.cleanups)
  }

  ghost predicate AllUndisturbed(calls: seq<Call>)
    decreases calls
  {
    calls == [] || (Undisturbed(calls[0]) && AllUndisturbed(calls[1..]))
  }

  // Without other threads, every lock ends exactly as it was, owner and depth.
  lemma {:induction false} QuietCallRestores(locks: Locks, pins: nat, t: Thread, call: Call)
    requires AllTidy(locks) && t != 0 && Undisturbed(call)
    ensures Perform(locks, pins, t, call).locks == locks
    decreases call
  {
    assert Interfere(locks, call.others, t) == locks;
    hide Interfere, SameHold;
    if call.iso in locks && Grants(locks[call.iso], t) {
      assert Tidy(locks[call.iso]);
      var locks2 := locks[call.iso := Grab(locks[call.iso], t)];
      QuietCallsRestore(locks2, pins + 1, t, call.body);
      CallsRestore(locks2, pins + 1, t, call.body);
      var body := PerformAll(locks2, pins + 1, t, call.body);
      QuietCallsRestore(locks2, body.pins, t, call.cleanups);
      assert locks2[call.iso := Drop(locks2[call.iso], t)] == locks;
    }
  }

  lemma {:induction false} QuietCallsRestore(locks: Locks, pins: nat, t: Thread, calls: seq<Call>)
    requires AllTidy(locks) && t != 0 && AllUndisturbed(calls)
    ensures PerformAll(locks, pins, t, calls).locks == locks
    decreases calls
  {
    if calls != [] {
      QuietCallRestores(locks, pins, t, calls[0]);
      var first := Perform(locks, pins, t, calls[0]);
      if !first.panicked { QuietCallsRestore(locks, first.pins, t, calls[1..]); }
    }
  }

  /* ---- panics ---- */

  // Thread t may enter isolate i: it exists, and is free or t's own.
  ghost predicate MayEnter(locks: Locks, t: Thread, i: IsoId) {
    i in locks && (locks[i].depth == 0 || locks[i].owner == t)
  }

  // Whatever other threads do, a call panics if it must enter and may not, or if it has entered and user code, a
  // call of its body or a cleanup panics; its own leave never does.
  lemma CallPanics(locks: Locks, pins: nat, t: Thread, call: Call)
    requires AllTidy(locks) && t != 0
    ensures var locks1 := Interfere(locks, call.others, t);
      if !MayEnter(locks1, t, call.iso) then Perform(locks, pins, t, call) == Outcome(locks1, pins, call.must)
      else
        var body := PerformAll(locks1[call.iso := Lock(t, locks1[call.iso].depth + 1)], pins + 1, t, call.body);
        var clean := PerformAll(body.locks, body.pins, t, call.cleanups);
        Perform(locks, pins, t, call).panicked <==> body.panicked || call.crashes || clean.panicked
  {
    var locks1 := Interfere(locks, call.others, t);
    OthersKeepOut(locks, call.others, t);
    if MayEnter(locks1, t, call.iso) {
      var locks2 := locks1[call.iso := Grab(locks1[call.iso], t)];
      assert Tidy(locks1[call.iso]) && AllTidy(locks2);
      assert locks2 == locks1[call.iso := Lock(t, locks1[call.iso].depth + 1)];
      hide Interfere, SameHold, AllTidy;
      CallsRestore(locks2, pins + 1, t, call.body);
      var body := PerformAll(locks2, pins + 1, t, call.body);
      CallsRestore(body.locks, body.pins, t, call.cleanups);
      var clean := PerformAll(body.locks, body.pins, t, call.cleanups);
      SameHoldTrans(locks2, body.locks, clean.locks, t);
      LeaveUndoesEnter(locks1, clean.locks, call.iso, t);
    }
  }

  // Read off the tree and the locks at its start: somewhere a mustEnter may not enter or user code panics, below
  // calls that may all enter.
  ghost predicate Bursts(locks: Locks, t: Thread, call: Call)
    decreases call
  {
    if !MayEnter(locks, t, call.iso) then call.must
    else call.crashes || AnyBursts(locks, t, call.body) || AnyBursts(locks, t, call.cleanups)
  }

  ghost predicate AnyBursts(locks: Locks, t: Thread, calls: seq<Call>)
    decreases calls
  {
    calls != [] && (Bursts(locks, t, calls[0]) || AnyBursts(locks, t, calls[1..]))
  }

  lemma {:induction false} BurstsAlike(a: Locks, b: Locks, t: Thread, call: Call)
    requires forall i {:trigger MayEnter(a, t, i)} :: MayEnter(a, t, i) <==> MayEnter(b, t, i)
    ensures Bursts(a, t, call) <==> Bursts(b, t, call)
    decreases call
  {
    assert MayEnter(a, t, call.iso) <==> MayEnter(b, t, call.iso);
    AllBurstAlike(a, b, t, call.body);
    AllBurstAlike(a, b, t, call.cleanups);
  }

  lemma {:induction false} AllBurstAlike(a: Locks, b: Locks, t: Thread, calls: seq<Call>)
    requires forall i {:trigger MayEnter(a, t, i)} :: MayEnter(a, t, i) <==> MayEnter(b, t, i)
    ensures AnyBursts(a, t, calls) <==> AnyBursts(b, t, calls)
    decreases calls
  {
    if calls != [] {
      BurstsAlike(a, b, t, calls[0]);
      AllBurstAlike(a, b, t, calls[1..]);
    }
  }

  // Without other threads, a tree panics exactly if it bursts: which locks the thread is holding by then, and what
  // has run before, makes no difference.
  lemma {:induction false} PanicsExactly(locks: Locks, pins: nat, t: Thread, call: Call)
    requires AllTidy(locks) && t != 0 && Undisturbed(call)
    ensures Perform(locks, pins, t, call).panicked <==> Bursts(locks, t, call)
    decreases call
  {
    assert Interfere(locks, call.others, t) == locks;
    CallPanics(locks, pins, t, call);
    if MayEnter(locks, t, call.iso) {
      assert Tidy(locks[call.iso]);
      var locks2 := locks[call.iso := Lock(t, locks[call.iso].depth + 1)];
      assert AllTidy(locks2);
      forall i {:trigger MayEnter(locks2, t, i)} ensures MayEnter(locks2, t, i) <==> MayEnter(locks, t, i) {}
      hide Interfere, SameHold, AllTidy, Perform, PerformAll, MayEnter;
      AllPanicExactly(locks2, pins + 1, t, call.body);
      QuietCallsRestore(locks2, pins + 1, t, call.body);
      AllPanicExactly(locks2, PerformAll(locks2, pins + 1, t, call.body).pins, t, call.cleanups);
      AllBurstAlike(locks2, locks, t, call.body);
      AllBurstAlike(locks2, locks, t, call.cleanups);
    }
  }

  lemma {:induction false} AllPanicExactly(locks: Locks, pins: nat, t: Thread, calls: seq<Call>)
    requires AllTidy(locks) && t != 0 && AllUndisturbed(calls)
    ensures PerformAll(locks, pins, t, calls).panicked <==> AnyBursts(locks, t, calls)
    decreases calls
  {
    if calls != [] {
      PanicsExactly(locks, pins, t, calls[0]);
      QuietCallRestores(locks, pins, t, calls[0]);
      AllPanicExactly(locks, Perform(locks, pins, t, calls[0]).pins, t, calls[1..]);
    }
  }

  /* ---- nested calls are never refused ---- */

  // Every call of the tree is on isolate i, and user code does not panic.
  ghost predicate Calm(call: Call, i: IsoId)
    decreases call
  {
    call.iso == i && !call.crashes && AllCalm(call.body, i) && AllCalm(call.cleanups, i)
  }

  ghost predicate AllCalm(calls: seq<Call>, i: IsoId)
    decreases calls
  {
    calls == [] || (Calm(calls[0], i) && AllCalm(calls[1..], i))
  }

  // Inside the isolate, no enter fails and no mustEnter panics, however deep the nesting.
  lemma {:induction false} NestedCallSucceeds(locks: Locks, pins: nat, t: Thread, call: Call, i: IsoId)
    requires AllTidy(locks) && t != 0 && i in locks && locks[i].owner == t && Calm(call, i)
    ensures !Perform(locks, pins, t, call).panicked
    decreases call
  {
    var locks1 := Interfere(locks, call.others, t);
    assert Tidy(locks1[i]);
    var locks2 := locks1[i := Grab(locks1[i], t)];
    CallsRestore(locks2, pins + 1, t, call.body);
    NestedCallsSucceed(locks2, pins + 1, t, call.body, i);
    var body := PerformAll(locks2, pins + 1, t, call.body);
    CallsRestore(body.locks, body.pins, t, call.cleanups);
    NestedCallsSucceed(body.locks, body.pins, t, call.cleanups, i);
  }

  lemma {:induction false} NestedCallsSucceed(locks: Locks, pins: nat, t: Thread, calls: seq<Call>, i: IsoId)
    requires AllTidy(locks) && t != 0 && i in locks && locks[i].owner == t && AllCalm(calls, i)
    ensures !PerformAll(locks, pins, t, calls).panicked
    decreases calls
  {
    if calls != [] {
      CallRestores(locks, pins, t, calls[0]);
      NestedCallSucceeds(locks, pins, t, calls[0], i);
      var first := Perform(locks, pins, t, calls[0]);
      NestedCallsSucceed(first.locks, first.pins, t, calls[1..], i);
    }
  }
}
