/**
 The re-entrant isolate lock (isolate.go: enter, mustEnter, leave).

 A goroutine is pinned to an OS thread while its LockOSThread count is not zero
 and may run on any free thread otherwise.  `enter` is two atomic steps: it pins,
 and then runs the critical section under the isolate's mutex.  `leave` is one.
 */
module IsolateLock {
  import opened Options

  type Thread = nat    // pthread_self(); never 0
  type Gid = nat
  type IsoId = nat

  // the fields ownerThread and depth
  datatype Lock = Lock(owner: Thread, depth: nat)

  const FREE := Lock(0, 0)

  // `held` is a history variable: the releases the goroutine has been handed and has not called yet.
  datatype Goroutine = Goroutine(thread: Thread, pins: nat, pending: Option<IsoId>, held: multiset<IsoId>)

  datatype Machine = Machine(gs: map<Gid, Goroutine>, locks: map<IsoId, Lock>)

  /* ---- the two critical sections ---- */

  predicate Grants(l: Lock, t: Thread) {
    l.depth == 0 || l.owner == t
  }

  function Grab(l: Lock, t: Thread): Lock
    requires Grants(l, t)
  {
    if l.depth == 0 then Lock(t, 1) else Lock(l.owner, l.depth + 1)
  }

  predicate Panics(l: Lock, t: Thread) {
    l.depth == 0 || l.owner != t
  }

  function Drop(l: Lock, t: Thread): Lock
    requires !Panics(l, t)
  {
    Lock(if l.depth == 1 then 0 else l.owner, l.depth - 1)
  }

  /* ---- the source's objects ---- */

  class Worker {
    var thread: Thread
    var pins: nat

    constructor ()
      ensures pins == 0
    {
      thread, pins := 0, 0;
    }

    // runtime.LockOSThread, called while running on t
    method LockOSThread(t: Thread)
      requires pins > 0 ==> t == thread
      modifies this
      ensures thread == t && pins == old(pins) + 1
    {
      thread, pins := t, pins + 1;
    }

    method UnlockOSThread()
      requires pins > 0
      modifies this
      ensures thread == old(thread) && pins == old(pins) - 1
    {
      pins := pins - 1;
    }
  }

  class Isolate {
    var ptr: nat
    var ownerThread: Thread
    var depth: nat

    function State(): Lock
      reads this
    {
      Lock(ownerThread, depth)
    }

    constructor (p: nat)
      ensures ptr == p && State() == FREE
    {
      ptr, ownerThread, depth := p, 0, 0;
    }

    // Enter succeeds on a live isolate that is free or the caller's thread's own, and then belongs to that thread,
    // one deeper.  A refused or failing enter leaves the isolate and the pin count as they were.
    method Enter(g: Worker, t: Thread) returns (ok: bool)
      requires g.pins > 0 ==> t == g.thread
      modifies this, g
      ensures ptr == old(ptr)
      ensures ok <==> old(ptr) != 0 && (old(depth) == 0 || old(ownerThread) == t)
      ensures ok ==> ownerThread == t && depth == old(depth) + 1 && g.thread == t && g.pins == old(g.pins) + 1
      ensures !ok ==> ownerThread == old(ownerThread) && depth == old(depth) && g.pins == old(g.pins)
      ensures ok <==> old(ptr) != 0 && Grants(old(State()), t)
      ensures ok ==> State() == Grab(old(State()), t)
      ensures g.pins > 0 ==> g.thread == t
    {
      if ptr == 0 { return false; }
      g.LockOSThread(t);
      if depth == 0 {
        ownerThread := t;
        depth := 1;
        return true;
      }
      if ownerThread != t {
        g.UnlockOSThread();
        return false;
      }
      depth := depth + 1;
      return true;
    }

    // Leave panics outside the isolate or on another thread; otherwise it gives one level back, and with the last
    // one the isolate.
    method Leave(g: Worker, t: Thread) returns (panicked: bool)
      requires g.pins > 0
      modifies this, g
      ensures ptr == old(ptr)
      ensures panicked <==> old(depth) == 0 || old(ownerThread) != t
      ensures !panicked ==> depth == old(depth) - 1 && ownerThread == if depth == 0 then 0 else t
      ensures panicked ==> depth == old(depth) && ownerThread == old(ownerThread)
      ensures panicked <==> Panics(old(State()), t)
      ensures !panicked ==> State() == Drop(old(State()), t)
      ensures g.thread == old(g.thread) && g.pins == old(g.pins) - (if panicked then 0 else 1)
    {
      if depth == 0 || ownerThread != t { return true; }
      depth := depth - 1;
      if depth == 0 { ownerThread := 0; }
      g.UnlockOSThread();
      return false;
    }

    // Dispose brackets itself with the lock like every other call, and may be nested.
    method Dispose(g: Worker, t: Thread) returns (panicked: bool)
      requires g.pins > 0 ==> t == g.thread
      modifies this, g
      ensures panicked <==> old(ptr) != 0 && old(depth) != 0 && old(ownerThread) != t
      ensures ptr == if panicked then old(ptr) else 0
      ensures old(State().depth == 0 ==> State() == FREE) ==> State() == old(State())
      ensures g.pins == old(g.pins)
    {
      if ptr == 0 { return false; }
      var ok := Enter(g, t);
      if !ok { return true; }
      ptr := 0;
      panicked := Leave(g, t);
    }
  }

  /* ---- all goroutines together ---- */

  datatype Step =
    | Spawn(g: Gid)
    | NewIsolate(i: IsoId)
    | Pin(g: Gid, i: IsoId, t: Thread)    // first half of enter; t is the thread g is running on
    | Decide(g: Gid)                      // second half
    | Leave(g: Gid, i: IsoId)             // a release, called once by the goroutine that got it

  // The scheduler runs g on t: its own thread when pinned, otherwise one no other goroutine is pinned to.
  ghost predicate RunsOn(m: Machine, g: Gid, t: Thread) {
    && g in m.gs && t != 0
    && if m.gs[g].pins > 0 then t == m.gs[g].thread
       else forall h :: h in m.gs && m.gs[h].pins > 0 ==> m.gs[h].thread != t
  }

  ghost predicate Enabled(m: Machine, s: Step) {
    match s
    case Spawn(g) => g !in m.gs
    case NewIsolate(i) => i !in m.locks
    case Pin(g, i, t) => RunsOn(m, g, t) && m.gs[g].pending.None? && i in m.locks
    case Decide(g) => g in m.gs && m.gs[g].pending.Some? && m.gs[g].pending.value in m.locks
    case Leave(g, i) => g in m.gs && m.gs[g].pending.None? && i in m.gs[g].held && i in m.locks
  }

  ghost function Next(m: Machine, s: Step): Machine
    requires Enabled(m, s)
  {
    match s
    case Spawn(g) => m.(gs := m.gs[g := Goroutine(0, 0, None, multiset{})])
    case NewIsolate(i) => m.(locks := m.locks[i := FREE])
    case Pin(g, i, t) =>
      m.(gs := m.gs[g := m.gs[g].(thread := t, pins := m.gs[g].pins + 1, pending := Some(i))])
    case Decide(g) =>
      var me := m.gs[g];
      var i := me.pending.value;
      if Grants(m.locks[i], me.thread) then
        Machine(m.gs[g := me.(pending := None, held := me.held + multiset{i})],
                m.locks[i := Grab(m.locks[i], me.thread)])
      else
        m.(gs := m.gs[g := me.(pending := None, pins := if me.pins > 0 then me.pins - 1 else 0)])
    case Leave(g, i) =>
      var me := m.gs[g];
      if Panics(m.locks[i], me.thread) then m
      else
        Machine(m.gs[g := me.(pins := if me.pins > 0 then me.pins - 1 else 0, held := me.held - multiset{i})],
                m.locks[i := Drop(m.locks[i], me.thread)])
  }

  ghost predicate RunOk(m: Machine, steps: seq<Step>)
    decreases |steps|
  {
    steps == [] || (Enabled(m, steps[0]) && RunOk(Next(m, steps[0]), steps[1..]))
  }

  ghost function Run(m: Machine, steps: seq<Step>): Machine
    requires RunOk(m, steps)
    decreases |steps|
  {
    if steps == [] then m else Run(Next(m, steps[0]), steps[1..])
  }

  ghost predicate Pinned(m: Machine, g: Gid) {
    g in m.gs && m.gs[g].pins > 0
  }

  // A goroutine's pin count is the number of releases it holds, plus one while it waits for the mutex.
  ghost predicate PinsExact(g: Goroutine) {
    g.pins == |g.held| + (if g.pending.Some? then 1 else 0) && (g.pins > 0 ==> g.thread != 0)
  }

  // Goroutine g is inside isolate i, and holds every release that is out.
  ghost predicate Inside(m: Machine, g: Gid, i: IsoId) {
    && g in m.gs && i in m.locks
    && m.gs[g].thread == m.locks[i].owner && m.gs[g].held[i] == m.locks[i].depth
  }

  ghost predicate LockSound(m: Machine, i: IsoId)
    requires i in m.locks
  {
    if m.locks[i].depth == 0 then m.locks[i] == FREE && forall g {:trigger g in m.gs} :: g in m.gs ==> m.gs[g].held[i] == 0
    else exists g :: Sole(m, g, i)
  }

  ghost predicate Sole(m: Machine, g: Gid, i: IsoId) {
    Inside(m, g, i) && forall h {:trigger h in m.gs} :: h in m.gs && h != g ==> m.gs[h].held[i] == 0
  }

  ghost predicate AllExact(m: Machine) {
    forall g {:trigger g in m.gs} :: g in m.gs ==> PinsExact(m.gs[g])
  }

  ghost predicate HeldKnown(m: Machine) {
    forall g, i {:trigger m.gs[g].held[i]} :: g in m.gs && m.gs[g].held[i] > 0 ==> i in m.locks
  }

  ghost predicate OwnThreads(m: Machine) {
    forall g, h {:trigger Pinned(m, g), Pinned(m, h)} ::
      Pinned(m, g) && Pinned(m, h) && m.gs[g].thread == m.gs[h].thread ==> g == h
  }

  ghost predicate AllSound(m: Machine) {
    forall i {:trigger i in m.locks} :: i in m.locks ==> LockSound(m, i)
  }

  ghost predicate LockInv(m: Machine) {
    AllExact(m) && HeldKnown(m) && OwnThreads(m) && AllSound(m)
  }

  lemma HoldingPins(g: Goroutine, i: IsoId)
    requires PinsExact(g) && g.held[i] > 0
    ensures g.pins > 0 && |g.held - multiset{i}| == |g.held| - 1
  {
    assert multiset{i} <= g.held;
    assert g.held == (g.held - multiset{i}) + multiset{i};
  }

  // Whoever holds a release of i is the one inside, on the owner's thread, and nobody else holds one.
  lemma HolderIsInside(m: Machine, g: Gid, i: IsoId)
    requires LockInv(m) && g in m.gs && m.gs[g].held[i] > 0
    ensures Inside(m, g, i) && m.locks[i].depth > 0 && m.gs[g].pins > 0
    ensures forall h {:trigger h in m.gs} :: h in m.gs && h != g ==> m.gs[h].held[i] == 0
  {
    assert LockSound(m, i);
    HoldingPins(m.gs[g], i);
  }

  // A pinned goroutine on the owner's thread is the one inside.
  lemma OwnerIsInside(m: Machine, g: Gid, i: IsoId)
    requires LockInv(m) && Pinned(m, g) && i in m.locks && m.locks[i].depth > 0
    requires m.locks[i].owner == m.gs[g].thread
    ensures m.gs[g].held[i] == m.locks[i].depth
  {
    assert LockSound(m, i);
    var o :| Sole(m, o, i);
    HolderIsInside(m, o, i);
    assert Pinned(m, o);
  }

  /* ---- every step keeps the invariant ---- */

  // An isolate whose holders and lock are as before.
  lemma SoundKept(m: Machine, m': Machine, j: IsoId)
    requires LockInv(m) && j in m.locks && j in m'.locks && m'.locks[j] == m.locks[j] && m.gs.Keys <= m'.gs.Keys
    requires forall h {:trigger h in m'.gs} :: h in m'.gs ==> m'.gs[h].held[j] == if h in m.gs then m.gs[h].held[j] else 0
    requires forall h {:trigger h in m.gs} :: h in m.gs && m.gs[h].held[j] > 0 ==> m'.gs[h].thread == m.gs[h].thread
    ensures LockSound(m', j)
  {
    assert LockSound(m, j);
    if m.locks[j].depth > 0 {
      var o :| Sole(m, o, j);
      assert o in m.gs && o in m'.gs;
      assert Sole(m', o, j);
    }
  }

  // what a step of g on isolate i must leave
  lemma LocksKept(m: Machine, m': Machine, g: Gid, i: IsoId)
    requires LockInv(m) && g in m.gs && g in m'.gs && i in m'.locks
    requires m'.gs == m.gs[g := m'.gs[g]] && m'.locks == m.locks[i := m'.locks[i]]
    requires m'.gs[g].thread == m.gs[g].thread && m'.gs[g].pins <= m.gs[g].pins && PinsExact(m'.gs[g])
    requires forall j {:trigger m'.gs[g].held[j]} :: j != i ==> m'.gs[g].held[j] == m.gs[g].held[j]
    requires LockSound(m', i)
    ensures LockInv(m')
  {
    hide AllSound, HeldKnown, OwnThreads, LockSound;
    AllKept(m, m', g, i);
    HeldKept(m, m', g, i);
    ThreadsKept(m, m', g);
  }

  lemma AllKept(m: Machine, m': Machine, g: Gid, i: IsoId)
    requires LockInv(m) && g in m.gs && g in m'.gs && i in m'.locks
    requires m'.gs == m.gs[g := m'.gs[g]] && m'.locks == m.locks[i := m'.locks[i]] && m'.gs[g].thread == m.gs[g].thread
    requires forall j {:trigger m'.gs[g].held[j]} :: j != i ==> m'.gs[g].held[j] == m.gs[g].held[j]
    requires LockSound(m', i)
    ensures AllSound(m')
  {
    hide LockSound, LockInv;
    forall j {:trigger j in m'.locks} | j in m'.locks && j != i ensures LockSound(m', j) {
      SoundKept(m, m', j);
    }
  }

  lemma HeldKept(m: Machine, m': Machine, g: Gid, i: IsoId)
    requires HeldKnown(m) && g in m.gs && g in m'.gs && i in m'.locks
    requires m'.gs == m.gs[g := m'.gs[g]] && m'.locks == m.locks[i := m'.locks[i]]
    requires forall j {:trigger m'.gs[g].held[j]} :: j != i ==> m'.gs[g].held[j] == m.gs[g].held[j]
    ensures HeldKnown(m')
  {
    forall h, j {:trigger m'.gs[h].held[j]} | h in m'.gs && m'.gs[h].held[j] > 0 ensures j in m'.locks {
      assert m.gs[h].held[j] > 0 || j == i;
    }
  }

  lemma ThreadsKept(m: Machine, m': Machine, g: Gid)
    requires OwnThreads(m) && g in m.gs && g in m'.gs && m'.gs == m.gs[g := m'.gs[g]]
    requires m'.gs[g].thread == m.gs[g].thread && m'.gs[g].pins <= m.gs[g].pins
    ensures OwnThreads(m')
  {
    forall h, k | Pinned(m', h) && Pinned(m', k) && m'.gs[h].thread == m'.gs[k].thread ensures h == k {
      assert Pinned(m, h) && Pinned(m, k);
    }
  }

  lemma PinDistinct(m: Machine, g: Gid, t: Thread, h: Gid)
    requires OwnThreads(m) && RunsOn(m, g, t) && h in m.gs && h != g && m.gs[h].pins > 0
    ensures m.gs[h].thread != t
  {
    assert Pinned(m, h);
    if m.gs[g].pins > 0 { assert Pinned(m, g); }
  }

  lemma PinLocks(m: Machine, g: Gid, i: IsoId, t: Thread)
    requires LockInv(m) && Enabled(m, Pin(g, i, t))
    ensures AllSound(Next(m, Pin(g, i, t)))
  {
    var m' := Next(m, Pin(g, i, t));
    assert PinsExact(m.gs[g]);
    forall j {:trigger j in m'.locks} | j in m'.locks ensures LockSound(m', j) {
      if m.gs[g].held[j] > 0 { HoldingPins(m.gs[g], j); }
      SoundKept(m, m', j);
    }
  }

  lemma PinThreads(m: Machine, g: Gid, i: IsoId, t: Thread)
    requires OwnThreads(m) && Enabled(m, Pin(g, i, t))
    ensures OwnThreads(Next(m, Pin(g, i, t)))
  {
    var m' := Next(m, Pin(g, i, t));
    forall h, k | Pinned(m', h) && Pinned(m', k) && m'.gs[h].thread == m'.gs[k].thread ensures h == k {
      if h != g && k != g {
        assert Pinned(m, h) && Pinned(m, k);
      } else if h != g {
        PinDistinct(m, g, t, h);
      } else if k != g {
        PinDistinct(m, g, t, k);
      }
    }
  }

  lemma PinKeeps(m: Machine, g: Gid, i: IsoId, t: Thread)
    requires LockInv(m) && Enabled(m, Pin(g, i, t))
    ensures LockInv(Next(m, Pin(g, i, t)))
  {
    PinLocks(m, g, i, t);
    PinThreads(m, g, i, t);
    hide AllSound, OwnThreads;
    var m' := Next(m, Pin(g, i, t));
    assert PinsExact(m.gs[g]);
    forall h, j {:trigger m'.gs[h].held[j]} | h in m'.gs && m'.gs[h].held[j] > 0 ensures j in m'.locks {
      assert m.gs[h].held[j] > 0;
    }
  }

  lemma DecideSound(m: Machine, g: Gid)
    requires LockInv(m) && Enabled(m, Decide(g))
    ensures LockSound(Next(m, Decide(g)), m.gs[g].pending.value)
  {
    var m' := Next(m, Decide(g));
    var i := m.gs[g].pending.value;
    assert PinsExact(m.gs[g]) && LockSound(m, i) && Pinned(m, g);
    if Grants(m.locks[i], m.gs[g].thread) {
      if m.locks[i].depth > 0 {
        OwnerIsInside(m, g, i);
        HolderIsInside(m, g, i);
      }
      assert Sole(m', g, i);
    } else {
      SoundKept(m, m', i);
    }
  }

  lemma DecideKeeps(m: Machine, g: Gid)
    requires LockInv(m) && Enabled(m, Decide(g))
    ensures LockInv(Next(m, Decide(g)))
  {
    assert PinsExact(m.gs[g]);
    DecideSound(m, g);
    hide LockSound, LockInv;
    LocksKept(m, Next(m, Decide(g)), g, m.gs[g].pending.value);
  }

  // A release called once, by the goroutine it was handed to, never panics.
  lemma ReleaseNeverPanics(m: Machine, g: Gid, i: IsoId)
    requires LockInv(m) && Enabled(m, Leave(g, i))
    ensures !Panics(m.locks[i], m.gs[g].thread)
  {
    HolderIsInside(m, g, i);
  }

  // And one too many always does, whatever thread the goroutine is on by then.
  lemma ExtraReleasePanics(m: Machine, g: Gid, i: IsoId, t: Thread)
    requires LockInv(m) && RunsOn(m, g, t) && i in m.locks
    ensures Panics(m.locks[i], t) <==> m.gs[g].held[i] == 0
  {
    if m.gs[g].held[i] > 0 {
      HolderIsInside(m, g, i);
    } else if !Panics(m.locks[i], t) {
      assert LockSound(m, i);
      var o :| Sole(m, o, i);
      HolderIsInside(m, o, i);
      assert Pinned(m, o);
      if m.gs[g].pins > 0 { assert Pinned(m, g); }
    }
  }

  lemma LeaveSound(m: Machine, g: Gid, i: IsoId)
    requires LockInv(m) && Enabled(m, Leave(g, i))
    ensures LockSound(Next(m, Leave(g, i)), i)
  {
    var m' := Next(m, Leave(g, i));
    HolderIsInside(m, g, i);
    if m'.locks[i].depth > 0 { assert Sole(m', g, i); }
  }

  lemma LeaveKeeps(m: Machine, g: Gid, i: IsoId)
    requires LockInv(m) && Enabled(m, Leave(g, i))
    ensures LockInv(Next(m, Leave(g, i)))
  {
    assert PinsExact(m.gs[g]);
    HoldingPins(m.gs[g], i);
    LeaveSound(m, g, i);
    ReleaseNeverPanics(m, g, i);
    hide LockSound, LockInv;
    LocksKept(m, Next(m, Leave(g, i)), g, i);
  }

  lemma BirthKeeps(m: Machine, s: Step)
    requires LockInv(m) && Enabled(m, s) && (s.Spawn? || s.NewIsolate?)
    ensures LockInv(Next(m, s))
  {
    var m' := Next(m, s);
    forall j {:trigger j in m'.locks} | j in m'.locks ensures LockSound(m', j) {
      if j in m.locks {
        SoundKept(m, m', j);
      } else {
        forall h {:trigger h in m'.gs} | h in m'.gs ensures m'.gs[h].held[j] == 0 {
          if h in m.gs { assert m.gs[h].held[j] == 0; }
        }
      }
    }
    forall h, k | Pinned(m', h) && Pinned(m', k) && m'.gs[h].thread == m'.gs[k].thread ensures h == k {
      assert Pinned(m, h) && Pinned(m, k);
    }
    forall h, j {:trigger m'.gs[h].held[j]} | h in m'.gs && m'.gs[h].held[j] > 0 ensures j in m'.locks {
      assert h in m.gs && m.gs[h].held[j] > 0;
    }
  }

  lemma NextKeepsLockInv(m: Machine, s: Step)
    requires LockInv(m) && Enabled(m, s)
    ensures LockInv(Next(m, s))
  {
    hide LockInv, Enabled, Next;
    match s
    case Spawn(_) => BirthKeeps(m, s);
    case NewIsolate(_) => BirthKeeps(m, s);
    case Pin(g, i, t) => PinKeeps(m, g, i, t);
    case Decide(g) => DecideKeeps(m, g);
    case Leave(g, i) => LeaveKeeps(m, g, i);
  }

  lemma {:induction false} RunKeepsLockInv(m: Machine, steps: seq<Step>)
    requires LockInv(m) && RunOk(m, steps)
    ensures LockInv(Run(m, steps))
    decreases |steps|
  {
    if steps != [] {
      NextKeepsLockInv(m, steps[0]);
      RunKeepsLockInv(Next(m, steps[0]), steps[1..]);
    }
  }

  /* ---- what every run promises ---- */

  const START := Machine(map[], map[])

  // At most one goroutine is inside an isolate; the depth is the number of releases it holds; every
  // other goroutine holds none.
  lemma MutualExclusion(steps: seq<Step>, i: IsoId, g: Gid, h: Gid)
    requires RunOk(START, steps)
    ensures var m := Run(START, steps);
      g in m.gs && h in m.gs && m.gs[g].held[i] > 0 ==>
        && i in m.locks && m.locks[i] == Lock(m.gs[g].thread, m.gs[g].held[i])
        && (m.gs[h].held[i] > 0 ==> h == g)
  {
    RunKeepsLockInv(START, steps);
    var m := Run(START, steps);
    if g in m.gs && m.gs[g].held[i] > 0 { HolderIsInside(m, g, i); }
  }

  lemma NoReleaseEverPanics(steps: seq<Step>, g: Gid, i: IsoId)
    requires RunOk(START, steps) && Enabled(Run(START, steps), Leave(g, i))
    ensures var m := Run(START, steps);
      !Panics(m.locks[i], m.gs[g].thread)
  {
    RunKeepsLockInv(START, steps);
    ReleaseNeverPanics(Run(START, steps), g, i);
  }

  // In every interleaving: the goroutine that decides gets in if and only if no other goroutine holds a release
  // of the isolate.  Then it holds one more, and the lock is its thread's, as deep as it holds releases; if not, it
  // is unpinned again and the lock is as it was.
  lemma DecideExactly(steps: seq<Step>, g: Gid)
    requires RunOk(START, steps) && Enabled(Run(START, steps), Decide(g))
    ensures var m := Run(START, steps);
      var m' := Next(m, Decide(g));
      var (me, me') := (m.gs[g], m'.gs[g]);
      var i := me.pending.value;
      && (me'.held == me.held + multiset{i} <==> forall h {:trigger m.gs[h].held} :: h in m.gs && h != g ==> m.gs[h].held[i] == 0)
      && (me'.held == me.held + multiset{i} ==> m'.locks == m.locks[i := Lock(me.thread, me'.held[i])] && me'.pins == me.pins)
      && (me'.held != me.held + multiset{i} ==> me'.held == me.held && m'.locks == m.locks && me'.pins == me.pins - 1)
      && me'.thread == me.thread && me'.pending.None? && m'.gs == m.gs[g := me']
  {
    RunKeepsLockInv(START, steps);
    DecideIn(Run(START, steps), g);
  }

  lemma DecideIn(m: Machine, g: Gid)
    requires LockInv(m) && Enabled(m, Decide(g))
    ensures var m' := Next(m, Decide(g));
      var (me, me') := (m.gs[g], m'.gs[g]);
      var i := me.pending.value;
      && (me'.held == me.held + multiset{i} <==> forall h {:trigger m.gs[h].held} :: h in m.gs && h != g ==> m.gs[h].held[i] == 0)
      && (me'.held == me.held + multiset{i} ==> m'.locks == m.locks[i := Lock(me.thread, me'.held[i])] && me'.pins == me.pins)
      && (me'.held != me.held + multiset{i} ==> me'.held == me.held && m'.locks == m.locks && me'.pins == me.pins - 1)
      && me'.thread == me.thread && me'.pending.None? && m'.gs == m.gs[g := me']
  {
    var me := m.gs[g];
    var i := me.pending.value;
    assert PinsExact(me) && LockSound(m, i) && Pinned(m, g);
    assert (me.held + multiset{i})[i] == me.held[i] + 1;
    if m.locks[i].depth > 0 {
      var o :| Sole(m, o, i);
      HolderIsInside(m, o, i);
      assert Pinned(m, o);
      if m.locks[i].owner == me.thread { OwnerIsInside(m, g, i); }
    }
  }

  // A release takes one level back, and gives the isolate free with the last one.
  lemma LeaveExactly(steps: seq<Step>, g: Gid, i: IsoId)
    requires RunOk(START, steps) && Enabled(Run(START, steps), Leave(g, i))
    ensures var m := Run(START, steps);
      var m' := Next(m, Leave(g, i));
      var (me, me') := (m.gs[g], m'.gs[g]);
      && me'.held == me.held - multiset{i} && me'.pins == me.pins - 1 && me'.thread == me.thread && me'.pending.None?
      && m'.gs == m.gs[g := me']
      && m'.locks == m.locks[i := if me'.held[i] == 0 then FREE else Lock(me.thread, me'.held[i])]
  {
    RunKeepsLockInv(START, steps);
    LeaveIn(Run(START, steps), g, i);
  }

  lemma LeaveIn(m: Machine, g: Gid, i: IsoId)
    requires LockInv(m) && Enabled(m, Leave(g, i))
    ensures var m' := Next(m, Leave(g, i));
      var (me, me') := (m.gs[g], m'.gs[g]);
      && me'.held == me.held - multiset{i} && me'.pins == me.pins - 1 && me'.thread == me.thread && me'.pending.None?
      && m'.gs == m.gs[g := me']
      && m'.locks == m.locks[i := if me'.held[i] == 0 then FREE else Lock(me.thread, me'.held[i])]
  {
    hide LockInv;
    HolderIsInside(m, g, i);
  }

  // An isolate is free exactly when no release of it is out.
  lemma FreeExactly(steps: seq<Step>, i: IsoId)
    requires RunOk(START, steps) && i in Run(START, steps).locks
    ensures var m := Run(START, steps);
      m.locks[i] == FREE <==> forall g {:trigger g in m.gs} :: g in m.gs ==> m.gs[g].held[i] == 0
  {
    RunKeepsLockInv(START, steps);
    var m := Run(START, steps);
    assert LockSound(m, i);
    if m.locks[i].depth > 0 { var o :| Sole(m, o, i); }
  }

  // What a goroutine may do next: a new one can be started and a new isolate made; one that is not waiting can
  // call enter, on some thread, and decide; and it can call any release it holds.
  lemma CallsCanBeMade(steps: seq<Step>, g: Gid, i: IsoId) returns (t: Thread)
    requires RunOk(START, steps)
    ensures var m := Run(START, steps);
      && (g !in m.gs ==> Enabled(m, Spawn(g))) && (i !in m.locks ==> Enabled(m, NewIsolate(i)))
      && (g in m.gs && i in m.locks && m.gs[g].pending.None? ==>
            && Enabled(m, Pin(g, i, t)) && Enabled(Next(m, Pin(g, i, t)), Decide(g))
            && Next(m, Pin(g, i, t)).gs[g].pending == Some(i))
      && (g in m.gs && m.gs[g].pending.None? && m.gs[g].held[i] > 0 ==> Enabled(m, Leave(g, i)))
  {
    RunKeepsLockInv(START, steps);
    var m := Run(START, steps);
    t := FreeThread(m.gs);
    if g in m.gs {
      assert PinsExact(m.gs[g]);
      if m.gs[g].pins > 0 { t := m.gs[g].thread; }
    }
  }

  // a thread that no goroutine is pinned to
  lemma {:induction false} FreeThread(gs: map<Gid, Goroutine>) returns (t: Thread)
    ensures t != 0 && forall g {:trigger g in gs} :: g in gs ==> gs[g].thread < t
    decreases |gs|
  {
    if gs == map[] {
      t := 1;
    } else {
      var g :| g in gs;
      var rest := gs - {g};
      assert rest.Keys == gs.Keys - {g};
      var u := FreeThread(rest);
      t := if u > gs[g].thread then u else gs[g].thread + 1;
      forall h {:trigger h in gs} | h in gs ensures gs[h].thread < t { assert h != g ==> h in rest; }
    }
  }

  // the depth of isolate i as far as thread t owns it
  function OwnDepth(l: Lock, t: Thread): nat {
    if l.owner == t then l.depth else 0
  }

  ghost function Any(s: set<IsoId>): (i: IsoId)
    requires s != {}
    ensures i in s
  {
    var i :| i in s;
    i
  }

  ghost function OwnDepths(locks: map<IsoId, Lock>, s: set<IsoId>, t: Thread): nat
    requires s <= locks.Keys
    decreases |s|
  {
    if s == {} then 0 else OwnDepth(locks[Any(s)], t) + OwnDepths(locks, s - {Any(s)}, t)
  }

  lemma {:induction false} SumIsCount(locks: map<IsoId, Lock>, s: set<IsoId>, t: Thread, held: multiset<IsoId>)
    requires s <= locks.Keys
    requires forall i {:trigger held[i]} :: held[i] == if i in s then OwnDepth(locks[i], t) else 0
    ensures OwnDepths(locks, s, t) == |held|
    decreases |s|
  {
    if s == {} {
      assert held == multiset{};
    } else {
      var i := Any(s);
      var rest := held[i := 0];
      SumIsCount(locks, s - {i}, t, rest);
      assert held == rest[i := held[i]];
    }
  }

  // A thread's LockOSThread count is the sum of the depths it owns over all isolates, plus one while
  // its goroutine is between pinning and the critical section.
  lemma PinsAreDepths(steps: seq<Step>, g: Gid)
    requires RunOk(START, steps) && g in Run(START, steps).gs && Run(START, steps).gs[g].pins > 0
    ensures var m := Run(START, steps);
      m.gs[g].pins == OwnDepths(m.locks, m.locks.Keys, m.gs[g].thread) + (if m.gs[g].pending.Some? then 1 else 0)
  {
    RunKeepsLockInv(START, steps);
    var m := Run(START, steps);
    assert Pinned(m, g) && PinsExact(m.gs[g]);
    forall i {:trigger m.gs[g].held[i]}
      ensures m.gs[g].held[i] == if i in m.locks.Keys then OwnDepth(m.locks[i], m.gs[g].thread) else 0
    {
      if i in m.locks {
        assert LockSound(m, i);
        if m.gs[g].held[i] > 0 {
          HolderIsInside(m, g, i);
        } else if m.locks[i].depth > 0 && m.locks[i].owner == m.gs[g].thread {
          OwnerIsInside(m, g, i);
        }
      }
    }
    SumIsCount(m.locks, m.locks.Keys, m.gs[g].thread, m.gs[g].held);
  }
}
