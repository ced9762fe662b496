/**
 When a wrapper is orphaned: exactly when a host call does not find its function.
 */
module Orphans {
  import opened Handles
  import opened HandleInvariants
  import opened Framing
  import opened Programs
  import opened HandleLists
  import opened HostCalls
  import opened HostReturns
  import opened ProgramSafety
  import opened Moments

  // The frame of a host call itself: no orphan if its function is found, one new orphan if not.
  lemma HostCallOrphans(w: World, b: Busy, u: Upcall)
    requires Inv(w, b) && PinsSound(w, b) && Open(w, u.c)
    ensures var w' := HostCall(w, b, u);
      && (u.id in w.fns ==> w'.orphans == Exec(BeforeBody(w, u).0, Inside(b, u.c), u.body).orphans)
      && (u.id !in w.fns ==> w'.orphans == w.orphans + {w.nextRef} && w.nextRef !in w.orphans)
  {
    EnteredOpen(w, b, u);
    if u.id !in w.fns {
      NextIsNoOrphan(w, b);
      InvWeaken(w, b, Inside(b, u.c));
      MissingOrphan(w, Inside(b, u.c), u);
    }
  }

  lemma NextIsNoOrphan(w: World, b: Busy)
    requires Inv(w, b)
    ensures w.nextRef !in w.orphans
  {
  }

  lemma MissingOrphan(w: World, b1: Busy, u: Upcall)
    requires Inv(w, b1) && Open(w, u.c) && u.c in b1.ctxs
    ensures var ca := w.ctxs[u.c].ptr;
      HostMissing(WrapAll(w, ca, u.cells).0, u.c, ca, FrameHandles(w, u), u.missing).orphans == w.orphans + {w.nextRef}
  {
    hide Inv, Keeps, WrapAll, HostMissing, Grown, Loose, Unseen;
    var (w1, ps) := WrapAll(w, w.ctxs[u.c].ptr, u.cells);
    FrameMade(w, b1, u);
    HostMissingSafe(w1, b1, u.c, ps, u.missing);
  }

  // A host call in an open context finds its function.
  ghost predicate Found(x: Moment) {
    x.Calling? && Open(x.w, x.u.c) ==> x.u.id in x.w.fns
  }

  ghost predicate AllFound(w: World, b: Busy, cmds: seq<Cmd>) {
    forall x {:trigger ExecPasses(w, b, cmds, x)} :: ExecPasses(w, b, cmds, x) ==> Found(x)
  }

  lemma {:induction false} ExecFinds(w: World, b: Busy, cmds: seq<Cmd>)
    requires AllFound(w, b, cmds)
    ensures Exec(w, b, cmds).orphans == w.orphans
    decreases cmds, 0
  {
    if cmds != [] {
      var w1 := Step(w, b, cmds[0]);
      forall x {:trigger StepPasses(w, b, cmds[0], x)} | StepPasses(w, b, cmds[0], x) ensures Found(x) {
        assert ExecPasses(w, b, cmds, x);
      }
      forall x {:trigger ExecPasses(w1, b, cmds[1..], x)} | ExecPasses(w1, b, cmds[1..], x) ensures Found(x) {
        assert ExecPasses(w, b, cmds, x);
      }
      StepFinds(w, b, cmds[0]);
      ExecFinds(w1, b, cmds[1..]);
    }
  }

  lemma {:induction false} UpcallsFind(w: World, b: Busy, ups: seq<Upcall>)
    requires forall x {:trigger UpcallsPass(w, b, ups, x)} :: UpcallsPass(w, b, ups, x) ==> Found(x)
    ensures Upcalls(w, b, ups).orphans == w.orphans
    decreases ups, 0
  {
    if ups != [] {
      var w1 := HostCall(w, b, ups[0]);
      forall x {:trigger HostCallPasses(w, b, ups[0], x)} | HostCallPasses(w, b, ups[0], x) ensures Found(x) {
        assert UpcallsPass(w, b, ups, x);
      }
      forall x {:trigger UpcallsPass(w1, b, ups[1..], x)} | UpcallsPass(w1, b, ups[1..], x) ensures Found(x) {
        assert UpcallsPass(w, b, ups, x);
      }
      HostCallFinds(w, b, ups[0]);
      UpcallsFind(w1, b, ups[1..]);
    }
  }

  lemma {:induction false} StepFinds(w: World, b: Busy, cmd: Cmd)
    requires forall x {:trigger StepPasses(w, b, cmd, x)} :: StepPasses(w, b, cmd, x) ==> Found(x)
    ensures Step(w, b, cmd).orphans == w.orphans
    decreases cmd, 1
  {
    match cmd
    case Create(c, inner, _, _) =>
      if Open(w, c) {
        forall x {:trigger UpcallsPass(w, Inside(b, c), inner, x)} | UpcallsPass(w, Inside(b, c), inner, x) ensures Found(x) {
          assert StepPasses(w, b, cmd, x);
        }
        UpcallsFind(w, Inside(b, c), inner);
        CreateLater(w, b, cmd);
      }
    case Use(v, _, inner, _) =>
      if Nameable(w, v) && Valid(w, v) && Args(w, cmd).ok {
        var w0 := UseStart(w, cmd);
        forall x {:trigger UpcallsPass(w0, Pin(w, b, v), inner, x)} | UpcallsPass(w0, Pin(w, b, v), inner, x) ensures Found(x) {
          assert StepPasses(w, b, cmd, x);
        }
        UpcallsFind(w0, Pin(w, b, v), inner);
        UseStepLater(w, b, cmd);
      }
    case CallMethod(v, _, getter, _, inner, _) =>
      if Nameable(w, v) && Valid(w, v) && Args(w, cmd).ok { MethodFinds(w, b, cmd); }
    case _ =>
  }

  lemma {:induction false} MethodFinds(w: World, b: Busy, cmd: Cmd)
    requires cmd.CallMethod? && Nameable(w, cmd.v) && Valid(w, cmd.v) && Args(w, cmd).ok
    requires forall x {:trigger StepPasses(w, b, cmd, x)} :: StepPasses(w, b, cmd, x) ==> Found(x)
    ensures Step(w, b, cmd).orphans == w.orphans
    decreases cmd, 0
  {
    var b1 := Pin(w, b, cmd.v);
    var w0 := Touch(Args(w, cmd).w, w.vals[cmd.v].ptr);
    forall x {:trigger UpcallsPass(w0, b1, cmd.getter, x)} | UpcallsPass(w0, b1, cmd.getter, x) ensures Found(x) {
      assert StepPasses(w, b, cmd, x);
    }
    UpcallsFind(w0, b1, cmd.getter);
    LookupLater(w, b, cmd);
    if Lookup(w, b, cmd).1 != 0 {
      var w2 := CallStart(w, b, cmd);
      forall x {:trigger UpcallsPass(w2, b1, cmd.inner, x)} | UpcallsPass(w2, b1, cmd.inner, x) ensures Found(x) {
        assert StepPasses(w, b, cmd, x);
      }
      UpcallsFind(w2, b1, cmd.inner);
      MethodLater(w, b, cmd);
    }
  }

  lemma {:induction false} HostCallFinds(w: World, b: Busy, u: Upcall)
    requires forall x {:trigger HostCallPasses(w, b, u, x)} :: HostCallPasses(w, b, u, x) ==> Found(x)
    ensures HostCall(w, b, u).orphans == w.orphans
    decreases u
  {
    assert HostCallPasses(w, b, u, Calling(w, b, u));
    if Open(w, u.c) {
      var w1 := BeforeBody(Entered(w, u), u).0;
      forall x {:trigger ExecPasses(w1, Inside(b, u.c), u.body, x)} | ExecPasses(w1, Inside(b, u.c), u.body, x) ensures Found(x) {
        assert HostCallPasses(w, b, u, x);
      }
      ExecFinds(w1, Inside(b, u.c), u.body);
    }
  }

  // A call that does not find its function leaves an orphan to the end.
  lemma MissedStays(w: World, b: Busy, cmds: seq<Cmd>, x: Moment)
    requires Inv(w, b) && PinsSound(w, b) && !Exec(w, b, cmds).rogue
    requires ExecPasses(w, b, cmds, x) && !Found(x)
    ensures x.w.nextRef in Exec(w, b, cmds).orphans && x.w.nextRef !in w.orphans
  {
    ExecBetween(w, b, cmds, x);
    ExecMoments(w, b, cmds, x);
    HostCallOrphans(x.w, x.b, x.u);
  }

  // A program that breaks no obligation orphans nothing if and only if every host call it makes, at any
  // depth, finds its function.
  lemma OrphansExactly(w: World, b: Busy, cmds: seq<Cmd>)
    requires Inv(w, b) && PinsSound(w, b) && !Exec(w, b, cmds).rogue
    ensures Exec(w, b, cmds).orphans == w.orphans <==> AllFound(w, b, cmds)
  {
    hide Inv, PinsSound, Exec, ExecPasses, Found;
    if AllFound(w, b, cmds) {
      ExecFinds(w, b, cmds);
    } else {
      var x :| ExecPasses(w, b, cmds, x) && !Found(x);
      MissedStays(w, b, cmds, x);
    }
  }
}
