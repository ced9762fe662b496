/**
 What every run of every program promises.  A program starts in an empty library;
 every state it passes through, in its own calls or inside a host function's body,
 has all of the properties below, as long as the caller has broken no obligation
 (`rogue`).
 */
module Runs {
  import opened Handles
  import opened HandleInvariants
  import opened Framing
  import opened Programs
  import opened HandleLists
  import opened HostCalls
  import opened HostReturns
  import opened ProgramSafety
  import opened Moments
  import opened Orphans

  const EMPTY := World(map[], map[], map[], map[], 0, map[], 0, {}, 1, {}, {}, 0, multiset{}, [], false, false)

  lemma EmptyInv()
    ensures Inv(EMPTY, IDLE) && PinsSound(EMPTY, IDLE)
  {
  }

  ghost function Run(prog: seq<Cmd>): World {
    Exec(EMPTY, IDLE, prog)
  }

  // A state that the program passes through, at any depth, with what the native frames around it use.
  ghost predicate Reached(prog: seq<Cmd>, x: Moment) {
    ExecPasses(EMPTY, IDLE, prog, x)
  }

  lemma {:induction false} EndIsPassed(w: World, b: Busy, cmds: seq<Cmd>)
    ensures ExecPasses(w, b, cmds, At(Exec(w, b, cmds), b))
    decreases |cmds|
  {
    if cmds != [] { EndIsPassed(Step(w, b, cmds[0]), b, cmds[1..]); }
  }

  lemma EndIsReached(prog: seq<Cmd>)
    ensures Reached(prog, At(Run(prog), IDLE))
  {
    EndIsPassed(EMPTY, IDLE, prog);
  }

  // No program makes native code read a null or freed cell, whatever JavaScript, host functions and the
  // allocator do, unless the caller has broken an obligation before: at every moment, inside host functions
  // too, either that is on record or the invariant holds and nothing is at fault.
  lemma RunsAreSafe(prog: seq<Cmd>, x: Moment)
    requires Reached(prog, x)
    ensures x.w.rogue || (Inv(x.w, x.b) && PinsSound(x.w, x.b) && !x.w.fault)
  {
    EmptyInv();
    if !x.w.rogue { ExecMoments(EMPTY, IDLE, prog, x); }
  }

  /* ---- ownership ---- */

  // A valid wrapper points at an allocated cell of its own context, which refers to the JavaScript value the
  // wrapper was made for.  If it owns the cell, the cell is indexed under its own id and no other wrapper
  // points at it; if it is borrowed, a native frame of its context is active and holds the cell.
  lemma ValidMeansBacked(prog: seq<Cmd>, x: Moment, v: Ref)
    requires Reached(prog, x) && !x.w.rogue && v in x.w.vals && v !in x.w.orphans && Valid(x.w, v)
    ensures var w := x.w;
      var p, c := w.vals[v].ptr, w.vals[v].ctx;
      && p in w.heap && w.heap[p].js == w.vals[v].born
      && w.heap[p].ctx == w.ctxs[c].ptr && w.ctxs[c].ptr in w.nctxs && w.nctxs[w.ctxs[c].ptr].ref == c
      && (!w.vals[v].borrowed ==>
            && w.heap[p].id in w.nctxs[w.ctxs[c].ptr].values && w.nctxs[w.ctxs[c].ptr].values[w.heap[p].id] == p
            && v in w.ctxs[c].live
            && (forall u {:trigger u in w.vals} :: u in w.vals && u !in w.orphans && w.vals[u].ptr == p ==> u == v))
      && (w.vals[v].borrowed ==> w.heap[p].id == 0 && c in x.b.ctxs)
  {
    hide Reached, Inv, PinsSound;
    RunsAreSafe(prog, x);
    BackedCell(x.w, x.b, v);
    if x.w.vals[v].borrowed { BorrowedNeedsBusy(x.w, x.b, v); } else { BackedOwner(x.w, x.b, v); }
  }

  lemma BackedCell(w: World, b: Busy, v: Ref)
    requires Inv(w, b) && v in w.vals && v !in w.orphans && Valid(w, v)
    ensures var p, c := w.vals[v].ptr, w.vals[v].ctx;
      && p in w.heap && w.heap[p].js == w.vals[v].born && (w.vals[v].borrowed <==> w.heap[p].id == 0)
      && w.heap[p].ctx == w.ctxs[c].ptr && w.ctxs[c].ptr in w.nctxs && w.nctxs[w.ctxs[c].ptr].ref == c
  {
    assert Backed(w.vals[v], v, w.heap, w.ctxs);
    assert ContextSound(w.ctxs[w.vals[v].ctx], w.vals[v].ctx, w.nctxs);
  }

  lemma BackedOwner(w: World, b: Busy, v: Ref)
    requires Inv(w, b) && v in w.vals && v !in w.orphans && Valid(w, v) && !w.vals[v].borrowed
    ensures var p, c := w.vals[v].ptr, w.vals[v].ctx;
      && p in w.heap && w.ctxs[c].ptr in w.nctxs
      && w.heap[p].id in w.nctxs[w.ctxs[c].ptr].values && w.nctxs[w.ctxs[c].ptr].values[w.heap[p].id] == p
      && v in w.ctxs[c].live
      && (forall u {:trigger u in w.vals} :: u in w.vals && u !in w.orphans && w.vals[u].ptr == p ==> u == v)
  {
    var p, c := w.vals[v].ptr, w.vals[v].ctx;
    assert Backed(w.vals[v], v, w.heap, w.ctxs);
    assert CellSound(w.heap[p], p, w.nctxs, b);
    assert Owns(w, v, p);
    forall u {:trigger u in w.vals} | u in w.vals && u !in w.orphans && w.vals[u].ptr == p ensures u == v {
      SoleOwner(w, b, v, u, p);
    }
  }

  // A borrowed view points somewhere, and a cell is outside the indexes, only while a native frame of its
  // context is active; so between the calls of the outermost program no view does and no cell is.
  lemma BorrowedOnlyInside(prog: seq<Cmd>, x: Moment)
    requires Reached(prog, x) && !x.w.rogue
    ensures var w := x.w;
      && (forall v {:trigger v in w.vals} :: v in w.vals && w.vals[v].borrowed && w.vals[v].ptr != 0 ==> w.vals[v].ctx in x.b.ctxs)
      && (forall p {:trigger p in w.heap} :: p in w.heap && w.heap[p].id == 0 ==>
            w.heap[p].ctx in w.nctxs && w.nctxs[w.heap[p].ctx].ref in x.b.ctxs)
  {
    RunsAreSafe(prog, x);
    var w := x.w;
    forall v {:trigger v in w.vals} | v in w.vals && w.vals[v].borrowed && w.vals[v].ptr != 0 ensures w.vals[v].ctx in x.b.ctxs {
      BorrowedNeedsBusy(w, x.b, v);
    }
    forall p {:trigger p in w.heap} | p in w.heap && w.heap[p].id == 0
      ensures w.heap[p].ctx in w.nctxs && w.nctxs[w.heap[p].ctx].ref in x.b.ctxs
    {
      assert CellSound(w.heap[p], p, w.nctxs, x.b);
    }
  }

  lemma NothingBorrowedBetweenCalls(prog: seq<Cmd>)
    requires !Run(prog).rogue
    ensures var w := Run(prog);
      && (forall v {:trigger v in w.vals} :: v in w.vals && w.vals[v].borrowed ==> w.vals[v].ptr == 0)
      && (forall p {:trigger p in w.heap} :: p in w.heap ==> w.heap[p].id != 0)
  {
    hide Reached, Exec;
    EndIsReached(prog);
    BorrowedOnlyInside(prog, At(Run(prog), IDLE));
  }

  /* ---- orphans ---- */

  // A run that breaks no obligation orphans a wrapper exactly if a host call, at any depth, does not find
  // its function.
  lemma OrphansOfARun(prog: seq<Cmd>)
    requires !Run(prog).rogue
    ensures Run(prog).orphans == {} <==> forall x {:trigger Reached(prog, x)} :: Reached(prog, x) ==> Found(x)
  {
    hide ExecPasses, Exec, Inv, PinsSound, Found;
    EmptyInv();
    OrphansExactly(EMPTY, IDLE, prog);
    assert EMPTY.orphans == {} && Run(prog) == Exec(EMPTY, IDLE, prog);
    if AllFound(EMPTY, IDLE, prog) {
      forall x {:trigger Reached(prog, x)} | Reached(prog, x) ensures Found(x) {
        assert ExecPasses(EMPTY, IDLE, prog, x);
      }
    } else {
      var x :| ExecPasses(EMPTY, IDLE, prog, x) && !Found(x);
      assert Reached(prog, x);
    }
  }

  /* ---- conservation ---- */

  lemma SameSizeSubset(a: set<nat>, b: set<nat>)
    requires a <= b && |a| == |b|
    ensures a == b
  {
    assert b == a + (b - a);
    assert |b| == |a| + |b - a|;
    assert b - a == {};
  }

  lemma {:induction false} Below(n: nat) returns (s: set<nat>)
    ensures forall i: nat {:trigger i in s} :: i in s <==> i < n
    ensures |s| == n
  {
    if n == 0 {
      s := {};
    } else {
      var t := Below(n - 1);
      s := t + {n - 1};
    }
  }

  lemma {:induction false} DistinctCount(m: multiset<nat>) returns (s: set<nat>)
    requires forall x {:trigger m[x]} :: m[x] <= 1
    ensures forall x {:trigger x in s} :: x in s <==> m[x] == 1
    ensures |s| == |m|
    decreases |m|
  {
    if m == multiset{} {
      s := {};
    } else {
      var x :| x in m;
      var t := DistinctCount(m - multiset{x});
      s := t + {x};
    }
  }

  ghost predicate IsLive(heap: map<Addr, NativeValue>, s: nat) {
    exists p :: HasSerial(heap, p, s)
  }

  // Every allocation ever made is still there, at one address, or was deleted, once; never both.
  lemma LiveOrFreedOnce(w: World, s: nat)
    requires SerialInv(w.heap, w.nextSerial, w.freed) && |w.freed| + |w.heap| == w.nextSerial && s < w.nextSerial
    ensures w.freed[s] <= 1 && (w.freed[s] == 0 <==> IsLive(w.heap, s))
  {
    var live := LiveSerials(w.heap, w.nextSerial, w.freed);
    var gone := DistinctCount(w.freed);
    var all := Below(w.nextSerial);
    assert live !! gone;
    assert live + gone <= all;
    SameSizeSubset(live + gone, all);
    assert s in live + gone;
  }

  lemma LiveSerials(heap: map<Addr, NativeValue>, nextSerial: nat, freed: multiset<nat>) returns (live: set<nat>)
    requires SerialInv(heap, nextSerial, freed)
    ensures |live| == |heap| && forall s: nat {:trigger s in live} :: s in live <==> IsLive(heap, s)
    ensures forall s: nat {:trigger s in live} :: s in live ==> s < nextSerial && freed[s] == 0
  {
    live := set p | p in heap :: heap[p].serial;
    SerialsCount(heap, heap.Keys);
    assert live == set p | p in heap.Keys && p in heap :: heap[p].serial;
    forall s: nat {:trigger s in live} ensures s in live <==> IsLive(heap, s) {
      if s in live {
        var p :| p in heap && heap[p].serial == s;
        assert HasSerial(heap, p, s);
      }
    }
  }

  lemma EachCellDeletedOnce(prog: seq<Cmd>, x: Moment, s: nat)
    requires Reached(prog, x) && !x.w.rogue && s < x.w.nextSerial
    ensures x.w.freed[s] <= 1 && (x.w.freed[s] == 0 <==> IsLive(x.w.heap, s))
    ensures |x.w.freed| + |x.w.heap| == x.w.nextSerial
  {
    RunsAreSafe(prog, x);
    LiveOrFreedOnce(x.w, s);
  }

  /* ---- contexts ---- */

  // At every moment a closed context has nothing left: no native cell, no native context, no wrapper with a
  // pointer, not even an orphan, and no registered function.
  lemma ClosedContextIsEmpty(prog: seq<Cmd>, x: Moment, c: CtxRef)
    requires Reached(prog, x) && !x.w.rogue && c in x.w.ctxs && x.w.ctxs[c].closed
    ensures var w := x.w;
      && (forall a {:trigger a in w.nctxs} :: a in w.nctxs ==> w.nctxs[a].ref != c)
      && (forall p {:trigger p in w.heap} :: p in w.heap ==> w.heap[p].ctx in w.nctxs && w.nctxs[w.heap[p].ctx].ref != c)
      && (forall v {:trigger v in w.vals} :: v in w.vals && w.vals[v].ctx == c ==> w.vals[v].ptr == 0)
      && (forall id {:trigger id in w.fns} :: id in w.fns ==> w.fns[id] != c)
      && w.ctxs[c] == GoContext(0, true, {}, {})
  {
    RunsAreSafe(prog, x);
    NothingLeft(x.w, x.b, c);
  }

  lemma NothingLeft(w: World, b: Busy, c: CtxRef)
    requires Inv(w, b) && c in w.ctxs && w.ctxs[c].closed
    ensures forall a {:trigger a in w.nctxs} :: a in w.nctxs ==> w.nctxs[a].ref != c
    ensures forall p {:trigger p in w.heap} :: p in w.heap ==> w.heap[p].ctx in w.nctxs && w.nctxs[w.heap[p].ctx].ref != c
    ensures forall v {:trigger v in w.vals} :: v in w.vals && w.vals[v].ctx == c ==> w.vals[v].ptr == 0
    ensures forall id {:trigger id in w.fns} :: id in w.fns ==> w.fns[id] != c
    ensures w.ctxs[c] == GoContext(0, true, {}, {})
  {
    assert ContextSound(w.ctxs[c], c, w.nctxs);
    forall p {:trigger p in w.heap} | p in w.heap ensures w.heap[p].ctx in w.nctxs && w.nctxs[w.heap[p].ctx].ref != c {
      assert CellSound(w.heap[p], p, w.nctxs, b);
      assert w.heap[p].ctx in w.nctxs;
    }
    forall v {:trigger v in w.vals} | v in w.vals && w.vals[v].ctx == c ensures w.vals[v].ptr == 0 {
      assert v in w.orphans ==> OrphanSound(w.vals[v], v, w.ctxs);
      assert v !in w.orphans && w.vals[v].ptr != 0 ==> Backed(w.vals[v], v, w.heap, w.ctxs);
    }
  }

  // Nothing is leaked for good: whenever every context is closed, no native cell or context is left, no
  // function is registered, no wrapper points anywhere, and every cell ever allocated has been deleted.
  lemma AllClosedAllFreed(prog: seq<Cmd>, x: Moment)
    requires Reached(prog, x) && !x.w.rogue
    requires forall c {:trigger c in x.w.ctxs} :: c in x.w.ctxs ==> x.w.ctxs[c].closed
    ensures var w := x.w;
      && w.heap == map[] && w.nctxs == map[] && w.fns == map[] && |w.freed| == w.nextSerial
      && (forall v {:trigger v in w.vals} :: v in w.vals ==> w.vals[v].ptr == 0)
  {
    RunsAreSafe(prog, x);
    var w := x.w;
    forall a {:trigger a in w.nctxs} ensures a !in w.nctxs {
      assert a in w.nctxs ==> ContextSound(w.ctxs[w.nctxs[a].ref], w.nctxs[a].ref, w.nctxs);
    }
    forall p {:trigger p in w.heap} ensures p !in w.heap {
      assert p in w.heap ==> CellSound(w.heap[p], p, w.nctxs, x.b);
    }
    forall id {:trigger id in w.fns} ensures id !in w.fns {}
    assert w.heap == map[] && w.nctxs == map[] && w.fns == map[];
    forall v {:trigger v in w.vals} | v in w.vals ensures w.vals[v].ptr == 0 {
      NothingLeft(w, x.b, w.vals[v].ctx);
    }
  }

  // Closing a context that no native frame uses deletes exactly its own cells, clears exactly the wrappers tracked in
  // it, orphans included, and unregisters exactly its functions; every other context, cell and wrapper is as it was.
  // A second time it does nothing.
  lemma CloseIsExact(w: World, b: Busy, c: CtxRef)
    requires Inv(w, b) && Open(w, c) && c !in b.ctxs
    ensures var w' := Step(w, b, CloseCtx(c));
      && (forall p {:trigger p in w'.heap} :: p in w'.heap <==> p in w.heap && w.heap[p].ctx != w.ctxs[c].ptr)
      && (forall p {:trigger w'.heap[p]} :: p in w'.heap ==> w'.heap[p] == w.heap[p])
      && w'.vals.Keys == w.vals.Keys
      && (forall v {:trigger v in w.vals} :: v in w.vals ==>
            v in w'.vals && w'.vals[v] == if v in w.ctxs[c].live then w.vals[v].(ptr := 0) else w.vals[v])
      && w'.ctxs == w.ctxs[c := GoContext(0, true, {}, {})]
      && (forall id {:trigger id in w'.fns} :: id in w'.fns <==> id in w.fns && w.fns[id] != c)
      && (forall id {:trigger w'.fns[id]} :: id in w'.fns ==> w'.fns[id] == w.fns[id])
      && w'.hidden == w.hidden && Steady(w, w') && Inv(w', b)
      && Step(w', b, CloseCtx(c)) == w'
  {
    hide Inv, Close, FnInv, LinkInv, LiveInv, Closed, NativeInv, ValueInv, SerialInv;
    Parts(w, b);
    CloseKeepsInv(w, b, c);
    CloseStep(w, b, c);
    CloseStep(Close(w, c), b, c);
    ClosedExactly(w, Close(w, c), c);
  }

  lemma CloseStep(w: World, b: Busy, c: CtxRef)
    requires c !in b.ctxs
    ensures Step(w, b, CloseCtx(c)) == Close(w, c)
    ensures c in w.ctxs && w.ctxs[c].closed ==> Close(w, c) == w
  {
    hide ContextDispose, NullIn;
  }

  lemma ClosedExactly(w: World, w': World, c: CtxRef)
    requires FnInv(w.ctxs, w.fns, w.fnSeq) && c in w.ctxs && Closed(w, w', c)
    ensures forall p {:trigger p in w'.heap} :: p in w'.heap <==> p in w.heap && w.heap[p].ctx != w.ctxs[c].ptr
    ensures forall p {:trigger w'.heap[p]} :: p in w'.heap ==> w'.heap[p] == w.heap[p]
    ensures w'.vals.Keys == w.vals.Keys
    ensures forall v {:trigger v in w.vals} :: v in w.vals ==>
      v in w'.vals && w'.vals[v] == if v in w.ctxs[c].live then w.vals[v].(ptr := 0) else w.vals[v]
    ensures w'.ctxs == w.ctxs[c := GoContext(0, true, {}, {})]
    ensures forall id {:trigger id in w'.fns} :: id in w'.fns <==> id in w.fns && w.fns[id] != c
    ensures forall id {:trigger w'.fns[id]} :: id in w'.fns ==> w'.fns[id] == w.fns[id]
    ensures w'.hidden == w.hidden
  {
    forall id {:trigger id in w.fns} | id in w.fns && w.fns[id] != c ensures id !in w.ctxs[c].fns {
      assert id in w.ctxs[c].fns ==> FnOwner(w.fns, id, c);
    }
  }
}
