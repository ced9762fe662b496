/**
 Promise.Await (promise.go) over an arbitrary environment.  Between any two reads
 of the loop, JavaScript, pumps and other goroutines may settle the promise,
 invalidate its wrapper, cancel the Go context, or start and stop termination.
 */
module Await {
  import opened Options

  datatype PromiseState = Pending | Fulfilled | Rejected

  // The world at one moment.
  datatype Tick = Tick(valid: bool, state: PromiseState, terminating: bool, cancelled: bool)

  // The moments at which round k of the loop looks at the world, and how its pump and timer end.
  datatype Round = Round(top: Tick, read: Tick, term: Tick, done: Tick, pumpFails: bool, waited: Tick)

  // The moments after the loop, and what StringValue of the rejection yields (None: an error).
  datatype Finale = Finale(state: Tick, result: Tick, text: Option<string>)

  datatype Environment = Environment(rounds: nat -> Round, finales: nat -> Finale)

  // Time passes: settled promises stay settled, invalid wrappers stay invalid, cancelled contexts stay cancelled.
  predicate Later(a: Tick, b: Tick) {
    && (b.valid ==> a.valid)
    && (a.state != Pending ==> b.state == a.state)
    && (a.cancelled ==> b.cancelled)
  }

  ghost predicate RoundInTime(r: Round) {
    Later(r.top, r.read) && Later(r.read, r.term) && Later(r.term, r.done) && Later(r.done, r.waited)
  }

  ghost predicate InTime(env: Environment) {
    forall k: nat {:trigger FromRound(env, k)} :: FromRound(env, k)
  }

  // Round k, and what may follow it: another round, or the end of the loop.
  ghost predicate FromRound(env: Environment, k: nat) {
    && RoundInTime(env.rounds(k)) && Later(env.rounds(k).waited, env.rounds(k + 1).top)
    && Later(env.rounds(k).read, env.finales(k).state) && Later(env.finales(k).state, env.finales(k).result)
  }

  // Promise.State: an invalid wrapper reads as pending
  function State(t: Tick): PromiseState {
    if t.valid then t.state else Pending
  }

  datatype Outcome =
    | InvalidValue
    | Terminated
    | Cancelled
    | PumpFailed
    | Value(isNil: bool)
    | Rejection(message: string)
    | DidNotSettle
    | StillRunning          // not a result of the source: the loop has not ended within the rounds looked at

  datatype Event = Checkpoint | Read(state: PromiseState) | Saw(stop: bool) | Pump

  // A state is only ever read right after a checkpoint.
  ghost predicate ReadsFollowCheckpoints(log: seq<Event>) {
    forall i {:trigger log[i]} :: 0 <= i < |log| && log[i].Read? ==> i > 0 && log[i - 1] == Checkpoint
  }

  // Nothing is pumped once cancellation or termination was seen.
  ghost predicate NoPumpAfterStop(log: seq<Event>) {
    forall i, j {:trigger log[i], log[j]} :: 0 <= i < j < |log| && log[i] == Saw(true) ==> log[j] != Pump
  }

  ghost predicate NotStopped(log: seq<Event>) {
    forall i {:trigger log[i]} :: 0 <= i < |log| ==> log[i] != Saw(true)
  }

  lemma JoinLogs(log: seq<Event>, more: seq<Event>)
    requires ReadsFollowCheckpoints(log) && ReadsFollowCheckpoints(more) && NotStopped(log) && NoPumpAfterStop(more)
    ensures ReadsFollowCheckpoints(log + more) && NoPumpAfterStop(log + more)
    ensures NotStopped(more) ==> NotStopped(log + more)
  {
    var both := log + more;
    assert forall i {:trigger both[i]} :: 0 <= i < |log| ==> both[i] == log[i] && log[i] != Saw(true);
    forall i {:trigger both[i]} | 0 <= i < |both| && both[i].Read? ensures i > 0 && both[i - 1] == Checkpoint {
      if i < |log| { assert log[i].Read?; } else { assert more[i - |log|].Read?; }
    }
    forall i, j {:trigger both[i], both[j]} | 0 <= i < j < |both| && both[i] == Saw(true) ensures both[j] != Pump {
      assert i >= |log| && more[i - |log|] == Saw(true);
    }
    if NotStopped(more) {
      forall i {:trigger both[i]} | 0 <= i < |both| ensures both[i] != Saw(true) {
        if i < |log| { assert log[i] != Saw(true); } else { assert more[i - |log|] != Saw(true); }
      }
    }
  }

  datatype Verdict = Continue | Settled | Exit(outcome: Outcome)

  // What one round comes to, in the order in which the loop looks at the world.
  ghost predicate Decides(v: Verdict, now: Round, hasCtx: bool, hasPump: bool) {
    && (v == Settled <==> now.top.valid && State(now.read) != Pending)
    && (v == Exit(InvalidValue) <==> !now.top.valid)
    && (v == Exit(Terminated) <==> Waits(now) && now.term.terminating)
    && (v == Exit(PumpFailed) <==> Waits(now) && !now.term.terminating && !(hasCtx && now.done.cancelled) && hasPump && now.pumpFails)
    && (v == Exit(Cancelled) <==>
          (Waits(now) && !now.term.terminating && hasCtx && (now.done.cancelled || (!hasPump && now.waited.cancelled))))
    && (v == Continue <==> GoesOn(now, hasCtx, hasPump))
  }

  // The promise is there, and pending.
  ghost predicate Waits(now: Round) {
    now.top.valid && State(now.read) == Pending
  }

  // Nothing ends the loop in this round.
  ghost predicate GoesOn(now: Round, hasCtx: bool, hasPump: bool) {
    && Waits(now) && !now.term.terminating && !(hasCtx && now.done.cancelled)
    && (if hasPump then !now.pumpFails else !(hasCtx && now.waited.cancelled))
  }

  // The body of the loop.
  method Step(now: Round, hasCtx: bool, hasPump: bool) returns (v: Verdict, ghost log: seq<Event>)
    ensures ReadsFollowCheckpoints(log) && NoPumpAfterStop(log)
    ensures Decides(v, now, hasCtx, hasPump)
    ensures v == Continue ==> NotStopped(log)
    ensures now.top.valid <==> Checkpoint in log
    ensures Pump in log <==> Waits(now) && !now.term.terminating && !(hasCtx && now.done.cancelled) && hasPump
  {
    log := [];
    if !now.top.valid { return Exit(InvalidValue), log; }
    var state := State(now.read);
    log := [Checkpoint, Read(state)];
    if state != Pending { return Settled, log; }
    log := log + [Saw(now.term.terminating)];
    if now.term.terminating { return Exit(Terminated), log; }
    if hasCtx {
      log := log + [Saw(now.done.cancelled)];
      if now.done.cancelled { return Exit(Cancelled), log; }
    }
    if hasPump {
      log := log + [Pump];
      if now.pumpFails { return Exit(PumpFailed), log; }
    } else if hasCtx && now.waited.cancelled {
      return Exit(Cancelled), log;
    }
    return Continue, log;
  }

  // the error of a promise that was rejected
  ghost predicate RejectedWith(message: string, end: Finale) {
    message == if end.result.valid && end.text.Some? && end.text.value != "" then "promise rejected: " + end.text.value
               else "promise rejected"
  }

  // After the loop the state is read again, and decides.
  ghost predicate Finishes(r: Outcome, end: Finale) {
    && (r.Value? <==> State(end.state) == Fulfilled) && (r.Value? ==> (r.isNil <==> !end.result.valid))
    && (r.Rejection? <==> State(end.state) == Rejected) && (r.Rejection? ==> RejectedWith(r.message, end))
    && (r.DidNotSettle? <==> State(end.state) == Pending)
  }

  // After the loop.
  method Finish(end: Finale) returns (r: Outcome)
    ensures Finishes(r, end)
  {
    match State(end.state) {
      case Fulfilled =>
        return Value(!end.result.valid);
      case Rejected =>
        if !end.result.valid || end.text.None? || end.text.value == "" {
          return Rejection("promise rejected");
        }
        return Rejection("promise rejected: " + end.text.value);
      case Pending =>
        return DidNotSettle;
    }
  }

  // What the first `fuel` rounds do.  `round` is the round that ended the loop, `log` what happened.
  method Await(env: Environment, hasCtx: bool, hasPump: bool, fuel: nat)
    returns (r: Outcome, round: nat, ghost log: seq<Event>)
    requires InTime(env)
    // the first round in which something ends the loop ends it
    ensures r.StillRunning? <==> forall n: nat {:trigger env.rounds(n)} :: n < fuel ==> GoesOn(env.rounds(n), hasCtx, hasPump)
    ensures r.StillRunning? ==> round == fuel
    ensures !r.StillRunning? ==> round < fuel && !GoesOn(env.rounds(round), hasCtx, hasPump)
    ensures forall n: nat {:trigger env.rounds(n)} :: n < round ==> GoesOn(env.rounds(n), hasCtx, hasPump)
    // what it finds decides the outcome: a promise that has settled is read once more
    ensures !r.StillRunning? ==> if Settles(env.rounds(round)) then Finishes(r, env.finales(round))
      else Decides(Exit(r), env.rounds(round), hasCtx, hasPump)
    // so a value means fulfilled and a rejection rejected, and if neither comes back from a promise that settled,
    // its wrapper was invalidated on the way
    ensures r.Value? ==> State(env.finales(round).state) == Fulfilled && (r.isNil <==> !env.finales(round).result.valid)
    ensures r.Rejection? ==> State(env.finales(round).state) == Rejected && RejectedWith(r.message, env.finales(round))
    ensures r.DidNotSettle? ==> env.rounds(round).read.state != Pending && !env.finales(round).state.valid
    ensures ReadsFollowCheckpoints(log) && NoPumpAfterStop(log)
  {
    round, log := 0, [];
    var v := Continue;
    while round < fuel && v == Continue
      invariant round <= fuel
      invariant forall n: nat {:trigger env.rounds(n)} :: n < round ==> GoesOn(env.rounds(n), hasCtx, hasPump)
      invariant ReadsFollowCheckpoints(log) && NoPumpAfterStop(log) && (v == Continue ==> NotStopped(log))
      invariant v != Continue ==> round < fuel && Decides(v, env.rounds(round), hasCtx, hasPump)
      decreases fuel - round, if v == Continue then 1 else 0
    {
      ghost var more;
      v, more := Step(env.rounds(round), hasCtx, hasPump);
      JoinLogs(log, more);
      log := log + more;
      if v == Continue { round := round + 1; }
    }
    if v == Continue { return StillRunning, round, log; }
    if v.Exit? {
      Causes(v, env.rounds(round), hasCtx, hasPump);
      return v.outcome, round, log;
    }
    assert FromRound(env, round);
    r := Finish(env.finales(round));
  }

  // The promise is there, and no longer pending.
  ghost predicate Settles(now: Round) {
    now.top.valid && State(now.read) != Pending
  }

  // A round that exits does so for one of the four reasons.
  lemma Causes(v: Verdict, now: Round, hasCtx: bool, hasPump: bool)
    requires Decides(v, now, hasCtx, hasPump) && v.Exit?
    ensures v.outcome in {InvalidValue, Terminated, PumpFailed, Cancelled}
  {
  }
}
