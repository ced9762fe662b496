/**
 Module linking (module.go, context.go, internal/gv8.cc).  Instantiate binds a
 resolver to the root's script id; V8 then asks about every request of every
 module it reaches, and each answer binds the resolver one step further.  The
 order of V8's walk follows Cyclic Module Records, section 16.2.1.5 of ECMA-262.
 */
module ModuleLinking {
  import opened Options

  type Mod = nat
  type Spec = nat
  type Resolver = nat

  // moduleResolversByScript and moduleResolversByName
  datatype Bindings = Bindings(byScript: map<int, Resolver>, byName: map<string, Resolver>)

  // What V8 and the compiler know about modules, and what the resolver answers.  A resolver may
  // instantiate other modules with other resolvers on the way (`side`).
  datatype Modules = Modules(
    requests: map<Mod, seq<Spec>>,
    scriptId: map<Mod, int>,
    name: map<Mod, string>,
    answer: map<(Spec, Mod), Option<Mod>>,
    side: map<(Spec, Mod), seq<(Mod, Resolver)>>)

  function IdOf(ms: Modules, m: Mod): int {
    if m in ms.scriptId then ms.scriptId[m] else 0
  }

  function NameOf(ms: Modules, m: Mod): string {
    if m in ms.name then ms.name[m] else ""
  }

  // bindModuleResolver on an open context
  function Bind(b: Bindings, id: int, name: string, r: Option<Resolver>): Bindings {
    if r.None? then b
    else
      Bindings(if id != 0 then b.byScript[id := r.value] else b.byScript,
               if name != "" then b.byName[name := r.value] else b.byName)
  }

  // moduleResolverForScript
  function ForScript(b: Bindings, id: int): Option<Resolver> {
    if id != 0 && id in b.byScript then Some(b.byScript[id]) else None
  }

  // moduleResolverForResource
  function ForResource(b: Bindings, name: string): Option<Resolver> {
    if name != "" && name in b.byName then Some(b.byName[name]) else None
  }

  // After a binding, the id and the name lead to the resolver bound to them, and every other id and name to what
  // they led to before.
  lemma BindLooksUp(b: Bindings, id: int, name: string, r: Option<Resolver>, id': int, name': string)
    ensures var b' := Bind(b, id, name, r);
      && ForScript(b', id') == (if r.Some? && id' == id && id != 0 then r else ForScript(b, id'))
      && ForResource(b', name') == (if r.Some? && name' == name && name != "" then r else ForResource(b, name'))
    ensures ForScript(b, 0) == None && ForResource(b, "") == None
  {
  }

  class Context {
    var closed: bool
    var byScript: map<int, Resolver>
    var byName: map<string, Resolver>

    function State(): Bindings
      reads this
    {
      Bindings(byScript, byName)
    }

    constructor ()
      ensures !closed && State() == Bindings(map[], map[])
    {
      closed, byScript, byName := false, map[], map[];
    }

    // `id` and `name` are the module's; a nil module is None
    method BindModuleResolver(m: Option<(int, string)>, r: Option<Resolver>)
      modifies this
      ensures closed == old(closed)
      ensures State() ==
        if old(closed) || m.None? then old(State()) else Bind(old(State()), m.value.0, m.value.1, r)
    {
      if m.None? || r.None? || closed { return; }
      if m.value.0 != 0 { byScript := byScript[m.value.0 := r.value]; }
      if m.value.1 != "" { byName := byName[m.value.1 := r.value]; }
    }

    method ModuleResolverForScript(id: int) returns (r: Option<Resolver>)
      ensures r == ForScript(State(), id)
    {
      if id == 0 || id !in byScript { return None; }
      return Some(byScript[id]);
    }

    method ModuleResolverForResource(name: string) returns (r: Option<Resolver>)
      ensures r == ForResource(State(), name)
    {
      if name == "" || name !in byName { return None; }
      return Some(byName[name]);
    }

    // Close drops every binding, and nothing can be bound any more
    method Close()
      modifies this
      ensures closed && State() == if old(closed) then old(State()) else Bindings(map[], map[])
    {
      if closed { return; }
      closed, byScript, byName := true, map[], map[];
    }
  }

  /* ---- V8's walk ---- */

  datatype Status = Ok | NotConfigured(referrer: Mod) | Unresolved(referrer: Mod)

  // `asks` is a history variable: the referrers V8 asked about, with the resolver found for each.
  datatype Link = Link(visited: set<Mod>, bindings: Bindings, asks: seq<(Mod, Option<Resolver>)>, status: Status)

  ghost predicate Wf(ms: Modules) {
    forall m, k {:trigger ms.requests[m][k]} :: m in ms.requests && 0 <= k < |ms.requests[m]| ==>
      var q := (ms.requests[m][k], m);
      q in ms.answer && q in ms.side && (ms.answer[q].Some? ==> ms.answer[q].value in ms.requests)
  }

  function BindAll(b: Bindings, ms: Modules, side: seq<(Mod, Resolver)>): Bindings
    decreases |side|
  {
    if side == [] then b
    else BindAll(Bind(b, IdOf(ms, side[0].0), NameOf(ms, side[0].0), Some(side[0].1)), ms, side[1..])
  }

  // gv8ResolveModuleCallback for one request
  ghost function Ask(l: Link, ms: Modules, m: Mod, spec: Spec): (r: (Link, Option<Mod>))
    requires (spec, m) in ms.answer && (spec, m) in ms.side
    ensures r.0.visited == l.visited && (r.1.Some? <==> r.0.status.Ok?)
    ensures r.1.Some? ==> ms.answer[(spec, m)] == r.1
  {
    var found := ForScript(l.bindings, IdOf(ms, m));
    var l1 := l.(asks := l.asks + [(m, found)]);
    if found.None? then (l1.(status := NotConfigured(m)), None)
    else
      var b1 := BindAll(l.bindings, ms, ms.side[(spec, m)]);
      match ms.answer[(spec, m)]
      case None => (l1.(bindings := b1, status := Unresolved(m)), None)
      case Some(child) =>
        (l1.(bindings := Bind(b1, IdOf(ms, child), NameOf(ms, child), found), status := Ok), Some(child))
  }

  // gv8ResolveModuleCallback, on the context's maps
  method ResolveModule(c: Context, ms: Modules, m: Mod, spec: Spec) returns (child: Option<Mod>, status: Status)
    requires !c.closed && (spec, m) in ms.answer && (spec, m) in ms.side
    modifies c
    ensures !c.closed
    ensures var (l, found) := Ask(Link({}, old(c.State()), [], Ok), ms, m, spec);
      c.State() == l.bindings && child == found && status == l.status
  {
    var resolver := c.ModuleResolverForScript(IdOf(ms, m));
    if resolver.None? { return None, NotConfigured(m); }
    BindOnTheSide(c, ms, ms.side[(spec, m)]);
    child := ms.answer[(spec, m)];
    if child.None? { return None, Unresolved(m); }
    c.BindModuleResolver(Some((IdOf(ms, child.value), NameOf(ms, child.value))), resolver);
    status := Ok;
  }

  // what the resolver instantiates while it resolves
  method BindOnTheSide(c: Context, ms: Modules, side: seq<(Mod, Resolver)>)
    requires !c.closed
    modifies c
    ensures !c.closed && c.State() == BindAll(old(c.State()), ms, side)
  {
    var k := 0;
    assert side[0..] == side;
    while k < |side|
      invariant 0 <= k <= |side| && !c.closed
      invariant BindAll(old(c.State()), ms, side) == BindAll(c.State(), ms, side[k..])
    {
      assert side[k..][1..] == side[k + 1..];
      c.BindModuleResolver(Some((IdOf(ms, side[k].0), NameOf(ms, side[k].0))), Some(side[k].1));
      k := k + 1;
    }
  }

  // all requests of one module, in order
  ghost function AskAll(l: Link, ms: Modules, m: Mod, k: nat): (r: (Link, seq<Mod>))
    requires Wf(ms) && m in ms.requests && k <= |ms.requests[m]| && l.status.Ok?
    ensures r.0.visited == l.visited
    ensures r.0.status.Ok? ==> r.1 == Answers(ms, m, k)
    ensures forall c :: c in r.1 ==> c in ms.requests
    decreases |ms.requests[m]| - k
  {
    if k == |ms.requests[m]| then (l, [])
    else
      var spec := ms.requests[m][k];
      var (l1, child) := Ask(l, ms, m, spec);
      if child.None? then (l1, [])
      else
        var (l2, rest) := AskAll(l1, ms, m, k + 1);
        (l2, [child.value] + rest)
  }

  // the modules that m imports, as far as they resolve
  ghost function Answers(ms: Modules, m: Mod, k: nat): seq<Mod>
    requires Wf(ms) && m in ms.requests && k <= |ms.requests[m]|
    decreases |ms.requests[m]| - k
  {
    if k == |ms.requests[m]| then []
    else
      var a := ms.answer[(ms.requests[m][k], m)];
      (if a.Some? then [a.value] else []) + Answers(ms, m, k + 1)
  }

  ghost function Unvisited(ms: Modules, l: Link): nat {
    |ms.requests.Keys - l.visited|
  }

  lemma VisitShrinks(ms: Modules, a: set<Mod>, b: set<Mod>)
    requires a <= b
    ensures |ms.requests.Keys - b| <= |ms.requests.Keys - a|
    ensures (exists m :: m in b && m !in a && m in ms.requests) ==> |ms.requests.Keys - b| < |ms.requests.Keys - a|
  {
    var more := ms.requests.Keys - a;
    var fewer := ms.requests.Keys - b;
    assert more == fewer + (more - fewer);
    if m :| m in b && m !in a && m in ms.requests { assert m in more - fewer; }
  }

  // A module is prepared once: all its requests are resolved, then its imports are prepared.
  ghost function Visit(l: Link, ms: Modules, m: Mod): (r: Link)
    requires Wf(ms) && m in ms.requests && l.status.Ok?
    ensures l.visited <= r.visited
    decreases Unvisited(ms, l), 0
  {
    if m in l.visited then l
    else
      var l0 := l.(visited := l.visited + {m});
      VisitShrinks(ms, l.visited, l0.visited);
      assert m in l0.visited && m !in l.visited;
      var (l1, children) := AskAll(l0, ms, m, 0);
      if !l1.status.Ok? then l1 else VisitAll(l1, ms, children)
  }

  ghost function VisitAll(l: Link, ms: Modules, children: seq<Mod>): (r: Link)
    requires Wf(ms) && (forall c :: c in children ==> c in ms.requests) && l.status.Ok?
    ensures l.visited <= r.visited
    decreases Unvisited(ms, l), 1 + |children|
  {
    if children == [] then l
    else
      var l1 := Visit(l, ms, children[0]);
      VisitShrinks(ms, l.visited, l1.visited);
      if !l1.status.Ok? then l1 else VisitAll(l1, ms, children[1..])
  }

  // Module.Instantiate.  V8 does not enter modules that an earlier call has linked.
  ghost function Instantiate(b: Bindings, ms: Modules, linked: set<Mod>, root: Mod, r: Option<Resolver>): Link
    requires Wf(ms) && root in ms.requests
  {
    Visit(Link(linked, Bind(b, IdOf(ms, root), NameOf(ms, root), r), [], Ok), ms, root)
  }

  /* ---- propagation ---- */

  // A module the resolver links on the side shares no script id and no name with the graph.
  ghost predicate Apart(ms: Modules, x: Mod) {
    forall m {:trigger m in ms.requests} :: m in ms.requests ==>
      (IdOf(ms, x) == IdOf(ms, m) ==> IdOf(ms, m) == 0) && (NameOf(ms, x) == NameOf(ms, m) ==> NameOf(ms, m) == "")
  }

  ghost predicate SidesApart(ms: Modules) {
    forall q, x {:trigger x in ms.side[q]} :: q in ms.side && x in ms.side[q] ==> Apart(ms, x.0)
  }

  // Wherever module m can be looked up, it is found bound to r.
  ghost predicate Bound(b: Bindings, ms: Modules, m: Mod, r: Resolver) {
    && (IdOf(ms, m) != 0 ==> ForScript(b, IdOf(ms, m)) == Some(r))
    && (NameOf(ms, m) != "" ==> ForResource(b, NameOf(ms, m)) == Some(r))
  }

  // A binding made for r, or made apart from the graph, keeps every binding of the graph to r.
  ghost predicate Spreads(b: Bindings, b': Bindings, ms: Modules, r: Resolver) {
    forall m {:trigger Bound(b', ms, m, r)} :: m in ms.requests && Bound(b, ms, m, r) ==> Bound(b', ms, m, r)
  }

  lemma SpreadsTrans(b: Bindings, b1: Bindings, b2: Bindings, ms: Modules, r: Resolver)
    requires Spreads(b, b1, ms, r) && Spreads(b1, b2, ms, r)
    ensures Spreads(b, b2, ms, r)
  {
    forall m | m in ms.requests && Bound(b, ms, m, r) ensures Bound(b2, ms, m, r) {
      assert Bound(b1, ms, m, r);
    }
  }

  lemma {:induction false} SidesSpread(b: Bindings, ms: Modules, side: seq<(Mod, Resolver)>, r: Resolver)
    requires forall x {:trigger x in side} :: x in side ==> Apart(ms, x.0)
    ensures Spreads(b, BindAll(b, ms, side), ms, r)
    decreases |side|
  {
    if side != [] {
      var b1 := Bind(b, IdOf(ms, side[0].0), NameOf(ms, side[0].0), Some(side[0].1));
      assert side[0] in side && forall x :: x in side[1..] ==> x in side;
      assert Spreads(b, b1, ms, r);
      SidesSpread(b1, ms, side[1..], r);
      SpreadsTrans(b, b1, BindAll(b1, ms, side[1..]), ms, r);
    }
  }

  // What V8 has been told so far: r for every referrer with a script id, nothing for one without; and
  // the walk has failed for lack of a resolver exactly if it has asked about one without.
  ghost predicate Told(l: Link, ms: Modules, linked: set<Mod>, r: Resolver) {
    && (forall a {:trigger a in l.asks} :: a in l.asks ==> a.1 == if IdOf(ms, a.0) == 0 then None else Some(r))
    && (l.status.NotConfigured? <==> exists a :: a in l.asks && a.1.None?)
    && (forall x {:trigger x in l.visited} :: x in l.visited && x !in linked ==> x in ms.requests && Bound(l.bindings, ms, x, r))
  }

  lemma AskSpreads(l: Link, ms: Modules, m: Mod, spec: Spec, linked: set<Mod>, r: Resolver)
    requires Wf(ms) && SidesApart(ms) && (spec, m) in ms.answer && (spec, m) in ms.side && m in ms.requests
    requires ms.answer[(spec, m)].Some? ==> ms.answer[(spec, m)].value in ms.requests
    requires l.status.Ok? && Told(l, ms, linked, r) && Bound(l.bindings, ms, m, r)
    ensures var (l', child) := Ask(l, ms, m, spec);
      && Told(l', ms, linked, r) && Spreads(l.bindings, l'.bindings, ms, r)
      && (child.Some? ==> Bound(l'.bindings, ms, child.value, r))
  {
    var found := ForScript(l.bindings, IdOf(ms, m));
    var (l', child) := Ask(l, ms, m, spec);
    assert l'.asks == l.asks + [(m, found)];
    assert (m, found) in l'.asks;
    if found.None? {
      assert (m, found).1.None?;
    } else {
      assert found == Some(r);
      var b1 := BindAll(l.bindings, ms, ms.side[(spec, m)]);
      SidesSpread(l.bindings, ms, ms.side[(spec, m)], r);
      if child.Some? { SpreadsTrans(l.bindings, b1, l'.bindings, ms, r); }
      forall a | a in l'.asks ensures a.1.Some? { assert a in l.asks || a == (m, found); }
      forall x {:trigger x in l'.visited} | x in l'.visited && x !in linked ensures x in ms.requests && Bound(l'.bindings, ms, x, r) {
        assert Bound(l.bindings, ms, x, r);
      }
    }
  }

  lemma {:induction false} AskAllSpreads(l: Link, ms: Modules, m: Mod, k: nat, linked: set<Mod>, r: Resolver)
    requires Wf(ms) && SidesApart(ms) && m in ms.requests && k <= |ms.requests[m]|
    requires l.status.Ok? && Told(l, ms, linked, r) && Bound(l.bindings, ms, m, r)
    ensures var (l', children) := AskAll(l, ms, m, k);
      && Told(l', ms, linked, r) && Spreads(l.bindings, l'.bindings, ms, r)
      && (l'.status.Ok? ==> forall c :: c in children ==> Bound(l'.bindings, ms, c, r))
    decreases |ms.requests[m]| - k
  {
    if k < |ms.requests[m]| {
      var spec := ms.requests[m][k];
      var (l1, child) := Ask(l, ms, m, spec);
      AskSpreads(l, ms, m, spec, linked, r);
      if child.Some? {
        AskAllSpreads(l1, ms, m, k + 1, linked, r);
        SpreadsTrans(l.bindings, l1.bindings, AskAll(l1, ms, m, k + 1).0.bindings, ms, r);
      }
    }
  }

  lemma {:induction false} VisitSpreads(l: Link, ms: Modules, m: Mod, linked: set<Mod>, r: Resolver)
    requires Wf(ms) && SidesApart(ms) && m in ms.requests && l.status.Ok?
    requires Told(l, ms, linked, r) && Bound(l.bindings, ms, m, r)
    ensures var l' := Visit(l, ms, m);
      Told(l', ms, linked, r) && Spreads(l.bindings, l'.bindings, ms, r)
    decreases Unvisited(ms, l), 0
  {
    if m !in l.visited {
      var l0 := l.(visited := l.visited + {m});
      VisitShrinks(ms, l.visited, l0.visited);
      assert m in l0.visited && m !in l.visited;
      AskAllSpreads(l0, ms, m, 0, linked, r);
      var (l1, children) := AskAll(l0, ms, m, 0);
      if l1.status.Ok? {
        VisitAllSpreads(l1, ms, children, linked, r);
        SpreadsTrans(l.bindings, l1.bindings, VisitAll(l1, ms, children).bindings, ms, r);
      }
    }
  }

  lemma {:induction false} VisitAllSpreads(l: Link, ms: Modules, children: seq<Mod>, linked: set<Mod>, r: Resolver)
    requires Wf(ms) && SidesApart(ms) && l.status.Ok? && Told(l, ms, linked, r)
    requires forall c :: c in children ==> c in ms.requests && Bound(l.bindings, ms, c, r)
    ensures var l' := VisitAll(l, ms, children);
      Told(l', ms, linked, r) && Spreads(l.bindings, l'.bindings, ms, r)
    decreases Unvisited(ms, l), 1 + |children|
  {
    if children != [] {
      var l1 := Visit(l, ms, children[0]);
      VisitSpreads(l, ms, children[0], linked, r);
      VisitShrinks(ms, l.visited, l1.visited);
      if l1.status.Ok? {
        VisitAllSpreads(l1, ms, children[1..], linked, r);
        SpreadsTrans(l.bindings, l1.bindings, VisitAll(l1, ms, children[1..]).bindings, ms, r);
      }
    }
  }

  // One non-nil resolver: whatever was bound and linked before and whatever the graph, cycles included, every
  // referrer V8 asks about is found bound to it, except those without a script id; and "no module resolver
  // configured" is reported exactly if V8 asks about one of those.  Every module visited, the root in any
  // case, is found under its resource name too, which is what a later dynamic import looks up.
  lemma ResolverReachesEveryReferrer(b: Bindings, ms: Modules, linked: set<Mod>, root: Mod, r: Resolver)
    requires Wf(ms) && SidesApart(ms) && root in ms.requests
    ensures var l := Instantiate(b, ms, linked, root, Some(r));
      && (forall a {:trigger a in l.asks} :: a in l.asks && IdOf(ms, a.0) != 0 ==> a.1 == Some(r))
      && (l.status.NotConfigured? <==> exists a :: a in l.asks && IdOf(ms, a.0) == 0)
      && (forall m {:trigger m in l.visited} :: (m == root || (m in l.visited && m !in linked)) && NameOf(ms, m) != "" ==>
            ForResource(l.bindings, NameOf(ms, m)) == Some(r))
  {
    var l0 := Link(linked, Bind(b, IdOf(ms, root), NameOf(ms, root), Some(r)), [], Ok);
    assert Bound(l0.bindings, ms, root, r);
    VisitSpreads(l0, ms, root, linked, r);
    var l := Instantiate(b, ms, linked, root, Some(r));
    assert Told(l, ms, linked, r);
    assert Bound(l.bindings, ms, root, r);
    if a :| a in l.asks && IdOf(ms, a.0) == 0 { assert a.1.None?; }
  }

  lemma NeverUnconfigured(b: Bindings, ms: Modules, linked: set<Mod>, root: Mod, r: Resolver)
    requires Wf(ms) && SidesApart(ms) && root in ms.requests
    requires forall m {:trigger IdOf(ms, m)} :: m in ms.requests ==> IdOf(ms, m) != 0
    ensures !Instantiate(b, ms, linked, root, Some(r)).status.NotConfigured?
  {
    ResolverReachesEveryReferrer(b, ms, linked, root, r);
    AsksInGraph(Link(linked, Bind(b, IdOf(ms, root), NameOf(ms, root), Some(r)), [], Ok), ms, root);
  }

  /* ---- what is visited ---- */

  ghost predicate AsksKnown(l: Link, ms: Modules) {
    forall a {:trigger a in l.asks} :: a in l.asks ==> a.0 in ms.requests
  }

  lemma {:induction false} AskAllInGraph(l: Link, ms: Modules, m: Mod, k: nat)
    requires Wf(ms) && m in ms.requests && k <= |ms.requests[m]| && l.status.Ok? && AsksKnown(l, ms)
    ensures AsksKnown(AskAll(l, ms, m, k).0, ms)
    decreases |ms.requests[m]| - k
  {
    if k < |ms.requests[m]| {
      var (l1, child) := Ask(l, ms, m, ms.requests[m][k]);
      if child.Some? { AskAllInGraph(l1, ms, m, k + 1); }
    }
  }

  lemma {:induction false} AsksInGraph(l: Link, ms: Modules, m: Mod)
    requires Wf(ms) && m in ms.requests && l.status.Ok? && AsksKnown(l, ms)
    ensures AsksKnown(Visit(l, ms, m), ms)
    decreases Unvisited(ms, l), 0
  {
    if m !in l.visited {
      var l0 := l.(visited := l.visited + {m});
      VisitShrinks(ms, l.visited, l0.visited);
      assert m in l0.visited && m !in l.visited;
      AskAllInGraph(l0, ms, m, 0);
      var (l1, children) := AskAll(l0, ms, m, 0);
      if l1.status.Ok? { AllAsksInGraph(l1, ms, children); }
    }
  }

  lemma {:induction false} AllAsksInGraph(l: Link, ms: Modules, children: seq<Mod>)
    requires Wf(ms) && (forall c :: c in children ==> c in ms.requests) && l.status.Ok? && AsksKnown(l, ms)
    ensures AsksKnown(VisitAll(l, ms, children), ms)
    decreases Unvisited(ms, l), 1 + |children|
  {
    if children != [] {
      var l1 := Visit(l, ms, children[0]);
      AsksInGraph(l, ms, children[0]);
      VisitShrinks(ms, l.visited, l1.visited);
      if l1.status.Ok? { AllAsksInGraph(l1, ms, children[1..]); }
    }
  }

  // The imports of m are all in s.
  ghost predicate ClosedAt(ms: Modules, m: Mod, s: set<Mod>)
    requires Wf(ms) && m in ms.requests
  {
    forall c {:trigger c in s} :: c in Answers(ms, m, 0) ==> c in s
  }

  // So are the imports of all of s that was not linked before.
  ghost predicate Closed(ms: Modules, linked: set<Mod>, s: set<Mod>)
    requires Wf(ms)
  {
    forall m {:trigger m in s} :: m in s && m !in linked ==> m in ms.requests && ClosedAt(ms, m, s)
  }

  ghost predicate NewClosed(ms: Modules, l: Link, l': Link)
    requires Wf(ms)
  {
    forall x {:trigger x in l'.visited} ::
      x in l'.visited && x !in l.visited ==> x in ms.requests && ClosedAt(ms, x, l'.visited)
  }

  lemma {:induction false} VisitCloses(l: Link, ms: Modules, m: Mod)
    requires Wf(ms) && m in ms.requests && l.status.Ok?
    ensures var l' := Visit(l, ms, m);
      l'.status.Ok? ==> m in l'.visited && NewClosed(ms, l, l')
    decreases Unvisited(ms, l), 0
  {
    if m !in l.visited {
      var l0 := l.(visited := l.visited + {m});
      VisitShrinks(ms, l.visited, l0.visited);
      assert m in l0.visited && m !in l.visited;
      var (l1, children) := AskAll(l0, ms, m, 0);
      if l1.status.Ok? {
        VisitAllCloses(l1, ms, children);
        var l' := VisitAll(l1, ms, children);
        if l'.status.Ok? {
          forall c {:trigger c in l'.visited} | c in Answers(ms, m, 0) ensures c in l'.visited { assert c in children; }
        }
      }
    }
  }

  lemma {:induction false} VisitAllCloses(l: Link, ms: Modules, children: seq<Mod>)
    requires Wf(ms) && (forall c :: c in children ==> c in ms.requests) && l.status.Ok?
    ensures var l' := VisitAll(l, ms, children);
      l'.status.Ok? ==> (forall c :: c in children ==> c in l'.visited) && NewClosed(ms, l, l')
    decreases Unvisited(ms, l), 1 + |children|
  {
    if children != [] {
      var l1 := Visit(l, ms, children[0]);
      VisitCloses(l, ms, children[0]);
      VisitShrinks(ms, l.visited, l1.visited);
      if l1.status.Ok? {
        VisitAllCloses(l1, ms, children[1..]);
        var l' := VisitAll(l1, ms, children[1..]);
        forall c | c in children ensures l'.status.Ok? ==> c in l'.visited {
          assert c == children[0] || c in children[1..];
        }
      }
    }
  }

  // Only what the root leads to is visited.
  lemma {:induction false} VisitStaysIn(l: Link, ms: Modules, m: Mod, linked: set<Mod>, s: set<Mod>)
    requires Wf(ms) && m in ms.requests && l.status.Ok? && Closed(ms, linked, s) && m in s && linked <= l.visited <= s
    ensures Visit(l, ms, m).visited <= s
    decreases Unvisited(ms, l), 0
  {
    if m !in l.visited {
      var l0 := l.(visited := l.visited + {m});
      VisitShrinks(ms, l.visited, l0.visited);
      assert m in l0.visited && m !in l.visited;
      var (l1, children) := AskAll(l0, ms, m, 0);
      if l1.status.Ok? {
        assert ClosedAt(ms, m, s);
        VisitAllStaysIn(l1, ms, children, linked, s);
      }
    }
  }

  lemma {:induction false} VisitAllStaysIn(l: Link, ms: Modules, children: seq<Mod>, linked: set<Mod>, s: set<Mod>)
    requires Wf(ms) && (forall c :: c in children ==> c in ms.requests && c in s) && l.status.Ok?
    requires Closed(ms, linked, s) && linked <= l.visited <= s
    ensures VisitAll(l, ms, children).visited <= s
    decreases Unvisited(ms, l), 1 + |children|
  {
    if children != [] {
      var l1 := Visit(l, ms, children[0]);
      VisitStaysIn(l, ms, children[0], linked, s);
      VisitShrinks(ms, l.visited, l1.visited);
      if l1.status.Ok? { VisitAllStaysIn(l1, ms, children[1..], linked, s); }
    }
  }

  // A successful link adds exactly the modules that the root leads to without passing through one that was
  // linked before: together with those, the least set around the root that is closed under their imports.
  lemma LinkVisitsReachable(b: Bindings, ms: Modules, linked: set<Mod>, root: Mod, r: Option<Resolver>, s: set<Mod>)
    requires Wf(ms) && root in ms.requests && Instantiate(b, ms, linked, root, r).status.Ok?
    ensures var l := Instantiate(b, ms, linked, root, r);
      && root in l.visited && linked <= l.visited && Closed(ms, linked, l.visited)
      && (Closed(ms, linked, s) && root in s && linked <= s ==> l.visited <= s)
      && (Closed(ms, {}, linked) ==> Closed(ms, {}, l.visited))
  {
    var l0 := Link(linked, Bind(b, IdOf(ms, root), NameOf(ms, root), r), [], Ok);
    VisitCloses(l0, ms, root);
    if Closed(ms, linked, s) && root in s && linked <= s { VisitStaysIn(l0, ms, root, linked, s); }
    if Closed(ms, {}, linked) { LinkedStaysClosed(ms, linked, Instantiate(b, ms, linked, root, r).visited); }
  }

  lemma LinkedStaysClosed(ms: Modules, linked: set<Mod>, s: set<Mod>)
    requires Wf(ms) && Closed(ms, {}, linked) && Closed(ms, linked, s) && linked <= s
    ensures Closed(ms, {}, s)
  {
    forall m {:trigger m in s} | m in s ensures m in ms.requests && ClosedAt(ms, m, s) {
      if m in linked { assert ClosedAt(ms, m, linked); }
    }
  }

  /* ---- when a link succeeds ---- */

  // m imports nothing, or it has a script id and every request of it is answered.
  ghost predicate Linkable(ms: Modules, m: Mod)
    requires Wf(ms) && m in ms.requests
  {
    ms.requests[m] == [] || (IdOf(ms, m) != 0 && forall spec {:trigger spec in ms.requests[m]} :: spec in ms.requests[m] ==> Answered(ms, spec, m))
  }

  ghost predicate Answered(ms: Modules, spec: Spec, m: Mod) {
    (spec, m) in ms.answer && ms.answer[(spec, m)].Some?
  }

  // a chain of imports from the root, through modules that were not linked before
  ghost predicate Chain(ms: Modules, linked: set<Mod>, root: Mod, p: seq<Mod>)
    requires Wf(ms)
  {
    && p != [] && p[0] == root
    && (forall i {:trigger p[i]} :: 0 <= i < |p| ==> p[i] in ms.requests && p[i] !in linked)
    && (forall i {:trigger p[i]} :: 0 < i < |p| ==> p[i] in Answers(ms, p[i - 1], 0))
  }

  ghost predicate NewlyReached(ms: Modules, linked: set<Mod>, root: Mod, m: Mod)
    requires Wf(ms)
  {
    exists p :: Chain(ms, linked, root, p) && p[|p| - 1] == m
  }

  lemma AskSucceeds(l: Link, ms: Modules, m: Mod, spec: Spec, linked: set<Mod>, r: Resolver)
    requires (spec, m) in ms.answer && (spec, m) in ms.side && Bound(l.bindings, ms, m, r)
    ensures Ask(l, ms, m, spec).1.Some? <==> IdOf(ms, m) != 0 && Answered(ms, spec, m)
    ensures Ask(l, ms, m, spec).0.status == NotConfigured(m) ==> IdOf(ms, m) == 0
    ensures Ask(l, ms, m, spec).0.status == Unresolved(m) ==> !Answered(ms, spec, m)
    ensures Ask(l, ms, m, spec).0.status in {Ok, NotConfigured(m), Unresolved(m)}
  {
  }

  lemma {:induction false} AskAllSucceeds(l: Link, ms: Modules, m: Mod, k: nat, linked: set<Mod>, r: Resolver)
    requires Wf(ms) && SidesApart(ms) && m in ms.requests && k <= |ms.requests[m]|
    requires l.status.Ok? && Told(l, ms, linked, r) && Bound(l.bindings, ms, m, r)
    ensures AskAll(l, ms, m, k).0.status.Ok? <==>
      k == |ms.requests[m]| || (IdOf(ms, m) != 0 && forall j {:trigger ms.requests[m][j]} :: k <= j < |ms.requests[m]| ==> Answered(ms, ms.requests[m][j], m))
    ensures Blames(AskAll(l, ms, m, k).0.status, ms)
    decreases |ms.requests[m]| - k
  {
    if k < |ms.requests[m]| {
      var spec := ms.requests[m][k];
      var (l1, child) := Ask(l, ms, m, spec);
      AskSpreads(l, ms, m, spec, linked, r);
      AskSucceeds(l, ms, m, spec, linked, r);
      if child.Some? { AskAllSucceeds(l1, ms, m, k + 1, linked, r); }
    }
  }

  // A failed link names a module that is to blame.
  ghost predicate Blames(status: Status, ms: Modules)
    requires Wf(ms)
  {
    match status
    case Ok => true
    case NotConfigured(m) => m in ms.requests && ms.requests[m] != [] && IdOf(ms, m) == 0
    case Unresolved(m) => m in ms.requests && exists spec :: spec in ms.requests[m] && !Answered(ms, spec, m)
  }

  lemma AskAllLinkable(l: Link, ms: Modules, m: Mod, linked: set<Mod>, r: Resolver)
    requires Wf(ms) && SidesApart(ms) && m in ms.requests
    requires l.status.Ok? && Told(l, ms, linked, r) && Bound(l.bindings, ms, m, r)
    ensures AskAll(l, ms, m, 0).0.status.Ok? <==> Linkable(ms, m)
  {
    AskAllSucceeds(l, ms, m, 0, linked, r);
    var q := ms.requests[m];
    forall j {:trigger q[j]} | 0 <= j < |q| ensures q[j] in q {}
  }

  // Every module that the walk adds is linkable if it succeeds; and it does if all that it can add are.
  lemma {:induction false} VisitSucceeds(l: Link, ms: Modules, m: Mod, linked: set<Mod>, r: Resolver, s: set<Mod>)
    requires Wf(ms) && SidesApart(ms) && m in ms.requests && l.status.Ok?
    requires Told(l, ms, linked, r) && Bound(l.bindings, ms, m, r)
    requires Closed(ms, linked, s) && m in s && linked <= l.visited <= s
    ensures var l' := Visit(l, ms, m);
      && (l'.status.Ok? ==> forall x {:trigger x in l'.visited} :: x in l'.visited && x !in l.visited ==> x in ms.requests && Linkable(ms, x))
      && ((forall x {:trigger x in s} :: x in s && x !in linked ==> Linkable(ms, x)) ==> l'.status.Ok?)
      && Blames(l'.status, ms)
    decreases Unvisited(ms, l), 0
  {
    if m !in l.visited {
      var l0 := l.(visited := l.visited + {m});
      VisitShrinks(ms, l.visited, l0.visited);
      assert m in l0.visited && m !in l.visited;
      AskAllSpreads(l0, ms, m, 0, linked, r);
      AskAllSucceeds(l0, ms, m, 0, linked, r);
      AskAllLinkable(l0, ms, m, linked, r);
      var (l1, children) := AskAll(l0, ms, m, 0);
      if l1.status.Ok? {
        assert ClosedAt(ms, m, s);
        VisitAllSucceeds(l1, ms, children, linked, r, s);
      }
    }
  }

  lemma {:induction false} VisitAllSucceeds(l: Link, ms: Modules, children: seq<Mod>, linked: set<Mod>, r: Resolver, s: set<Mod>)
    requires Wf(ms) && SidesApart(ms) && l.status.Ok? && Told(l, ms, linked, r)
    requires forall c :: c in children ==> c in ms.requests && Bound(l.bindings, ms, c, r) && c in s
    requires Closed(ms, linked, s) && linked <= l.visited <= s
    ensures var l' := VisitAll(l, ms, children);
      && (l'.status.Ok? ==> forall x {:trigger x in l'.visited} :: x in l'.visited && x !in l.visited ==> x in ms.requests && Linkable(ms, x))
      && ((forall x {:trigger x in s} :: x in s && x !in linked ==> Linkable(ms, x)) ==> l'.status.Ok?)
      && Blames(l'.status, ms)
    decreases Unvisited(ms, l), 1 + |children|
  {
    if children != [] {
      var l1 := Visit(l, ms, children[0]);
      VisitSpreads(l, ms, children[0], linked, r);
      VisitSucceeds(l, ms, children[0], linked, r, s);
      VisitStaysIn(l, ms, children[0], linked, s);
      VisitShrinks(ms, l.visited, l1.visited);
      if l1.status.Ok? { VisitAllSucceeds(l1, ms, children[1..], linked, r, s); }
    }
  }

  // What is newly reached from the root, with what was linked before, is closed.
  ghost function NewlyReachable(ms: Modules, linked: set<Mod>, root: Mod): set<Mod>
    requires Wf(ms)
  {
    set m | m in ms.requests && NewlyReached(ms, linked, root, m)
  }

  lemma ReachableIsClosed(ms: Modules, linked: set<Mod>, root: Mod)
    requires Wf(ms) && root in ms.requests
    ensures var s := NewlyReachable(ms, linked, root) + linked;
      Closed(ms, linked, s) && root in s
  {
    var s := NewlyReachable(ms, linked, root) + linked;
    if root !in linked { assert Chain(ms, linked, root, [root]); }
    forall m {:trigger m in s} | m in s && m !in linked ensures m in ms.requests && ClosedAt(ms, m, s) {
      var p :| Chain(ms, linked, root, p) && p[|p| - 1] == m;
      AnswersInGraph(ms, m, 0);
      forall c {:trigger c in s} | c in Answers(ms, m, 0) ensures c in s {
        if c !in linked { assert Chain(ms, linked, root, p + [c]) && (p + [c])[|p|] == c; }
      }
    }
  }

  lemma {:induction false} AnswersInGraph(ms: Modules, m: Mod, k: nat)
    requires Wf(ms) && m in ms.requests && k <= |ms.requests[m]|
    ensures forall c {:trigger c in Answers(ms, m, k)} :: c in Answers(ms, m, k) ==> c in ms.requests
    decreases |ms.requests[m]| - k
  {
    if k < |ms.requests[m]| { AnswersInGraph(ms, m, k + 1); }
  }

  // A closed set around the root has every chain in it.
  lemma {:induction false} ChainStaysIn(ms: Modules, linked: set<Mod>, root: Mod, p: seq<Mod>, s: set<Mod>)
    requires Wf(ms) && Chain(ms, linked, root, p) && Closed(ms, linked, s) && root in s
    ensures p[|p| - 1] in s && p[|p| - 1] !in linked
    decreases |p|
  {
    if |p| > 1 {
      var q := p[..|p| - 1];
      forall i {:trigger q[i]} | 0 < i < |q| ensures q[i] in Answers(ms, q[i - 1], 0) { assert q[i] == p[i] && q[i - 1] == p[i - 1]; }
      ChainStaysIn(ms, linked, root, q, s);
      assert p[|p| - 1] in Answers(ms, p[|p| - 2], 0) && ClosedAt(ms, q[|q| - 1], s);
    }
  }

  // With a resolver, import cycles included: Instantiate succeeds if and only if every module newly reached from the
  // root imports nothing, or has a script id and has all its requests answered.  If it fails, the module it names has
  // no script id, or a request that is not answered.
  lemma LinkSucceedsExactly(b: Bindings, ms: Modules, linked: set<Mod>, root: Mod, r: Resolver)
    requires Wf(ms) && SidesApart(ms) && root in ms.requests
    ensures var l := Instantiate(b, ms, linked, root, Some(r));
      && (l.status.Ok? <==> forall m {:trigger NewlyReached(ms, linked, root, m)} ::
            NewlyReached(ms, linked, root, m) ==> m in ms.requests && Linkable(ms, m))
      && Blames(l.status, ms)
  {
    var l0 := Link(linked, Bind(b, IdOf(ms, root), NameOf(ms, root), Some(r)), [], Ok);
    var s := NewlyReachable(ms, linked, root) + linked;
    var l := Instantiate(b, ms, linked, root, Some(r));
    ReachableIsClosed(ms, linked, root);
    VisitSucceeds(l0, ms, root, linked, r, s);
    if l.status.Ok? {
      VisitCloses(l0, ms, root);
      forall m {:trigger NewlyReached(ms, linked, root, m)} | NewlyReached(ms, linked, root, m) ensures m in ms.requests && Linkable(ms, m) {
        var p :| Chain(ms, linked, root, p) && p[|p| - 1] == m;
        ChainStaysIn(ms, linked, root, p, l.visited);
      }
    }
  }

  /* ---- where the conditions matter ---- */

  // bindModuleResolver ignores a nil resolver: an unbound root fails exactly if it is linked for the first
  // time and imports anything.
  lemma NilResolver(b: Bindings, ms: Modules, linked: set<Mod>, root: Mod)
    requires Wf(ms) && root in ms.requests && ForScript(b, IdOf(ms, root)).None?
    ensures Instantiate(b, ms, linked, root, None).status ==
      if root in linked || ms.requests[root] == [] then Ok else NotConfigured(root)
  {
    if root !in linked {
      var l0 := Link(linked + {root}, b, [], Ok);
      var (l1, children) := AskAll(l0, ms, root, 0);
      if ms.requests[root] != [] {
        var (l2, child) := Ask(l0, ms, root, ms.requests[root][0]);
        assert child.None? && l2.status == NotConfigured(root);
        assert l1 == l2;
      } else {
        assert (l1, children) == (l0, []);
        assert VisitAll(l0, ms, []) == l0;
      }
      assert Visit(Link(linked, b, [], Ok), ms, root) == if l1.status.Ok? then VisitAll(l1, ms, children) else l1;
    }
  }

  // The module side[k] is the last of those linked on the side that has the script id.
  ghost predicate LastFor(ms: Modules, side: seq<(Mod, Resolver)>, id: int, k: int) {
    0 <= k < |side| && IdOf(ms, side[k].0) == id && forall j {:trigger side[j]} :: k < j < |side| ==> IdOf(ms, side[j].0) != id
  }

  // The last module linked on the side with the script id of m was given another resolver than r.
  ghost predicate Misled(ms: Modules, side: seq<(Mod, Resolver)>, m: Mod, r: Resolver) {
    exists k :: LastFor(ms, side, IdOf(ms, m), k) && side[k].1 != r
  }

  // Under a script id is found what the last side module with that id was bound to, or what was bound before.
  lemma {:induction false} LastSideWins(b: Bindings, ms: Modules, side: seq<(Mod, Resolver)>, id: int)
    requires id != 0
    ensures forall k {:trigger LastFor(ms, side, id, k)} :: LastFor(ms, side, id, k) ==>
      ForScript(BindAll(b, ms, side), id) == Some(side[k].1)
    ensures (forall k {:trigger LastFor(ms, side, id, k)} :: !LastFor(ms, side, id, k)) ==>
      ForScript(BindAll(b, ms, side), id) == ForScript(b, id)
    decreases |side|
  {
    if side != [] {
      var rest := side[1..];
      var b1 := Bind(b, IdOf(ms, side[0].0), NameOf(ms, side[0].0), Some(side[0].1));
      LastSideWins(b1, ms, rest, id);
      forall k {:trigger LastFor(ms, rest, id, k)} | LastFor(ms, rest, id, k) ensures LastFor(ms, side, id, k + 1) {
        forall j {:trigger side[j]} | k + 1 < j < |side| ensures IdOf(ms, side[j].0) != id { assert side[j] == rest[j - 1]; }
      }
      forall k {:trigger LastFor(ms, side, id, k)} | LastFor(ms, side, id, k) && k > 0 ensures LastFor(ms, rest, id, k - 1) {
        forall j {:trigger rest[j]} | k - 1 < j < |rest| ensures IdOf(ms, rest[j].0) != id { assert rest[j] == side[j + 1]; }
      }
      if k :| LastFor(ms, rest, id, k) {
        assert LastFor(ms, side, id, k + 1);
        forall i {:trigger LastFor(ms, side, id, i)} | LastFor(ms, side, id, i) ensures i == k + 1 {
          OneLast(ms, side, id, i, k + 1);
        }
      } else if IdOf(ms, side[0].0) == id {
        NoneAfter(ms, side, id);
      }
    }
  }

  lemma OneLast(ms: Modules, side: seq<(Mod, Resolver)>, id: int, i: int, k: int)
    requires LastFor(ms, side, id, i) && LastFor(ms, side, id, k)
    ensures i == k
  {
    assert IdOf(ms, side[i].0) == IdOf(ms, side[k].0) == id;
  }

  // Where some entry has an id, one is the last.
  lemma {:induction false} SomeLast(ms: Modules, side: seq<(Mod, Resolver)>, id: int, j: int)
    requires 0 <= j < |side|
    ensures IdOf(ms, side[j].0) == id ==> exists k :: LastFor(ms, side, id, k)
    decreases |side| - j
  {
    if i :| j < i < |side| && IdOf(ms, side[i].0) == id {
      SomeLast(ms, side, id, i);
    } else if IdOf(ms, side[j].0) == id {
      assert LastFor(ms, side, id, j);
    }
  }

  lemma NoneAfter(ms: Modules, side: seq<(Mod, Resolver)>, id: int)
    requires side != [] && IdOf(ms, side[0].0) == id
    requires forall k {:trigger LastFor(ms, side[1..], id, k)} :: !LastFor(ms, side[1..], id, k)
    ensures LastFor(ms, side, id, 0)
  {
    var rest := side[1..];
    forall j {:trigger side[j]} | 0 < j < |side| ensures IdOf(ms, side[j].0) != id {
      assert rest[j - 1] == side[j];
      SomeLast(ms, rest, id, j - 1);
    }
  }

  // A module bound to r is found bound to something else after side links exactly if they mislead.
  lemma SideMisleads(b: Bindings, ms: Modules, side: seq<(Mod, Resolver)>, m: Mod, r: Resolver)
    requires ForScript(b, IdOf(ms, m)) == Some(r)
    ensures ForScript(BindAll(b, ms, side), IdOf(ms, m)) != Some(r) <==> Misled(ms, side, m, r)
  {
    var id := IdOf(ms, m);
    LastSideWins(b, ms, side, id);
    if Misled(ms, side, m, r) {
      var k :| LastFor(ms, side, id, k) && side[k].1 != r;
      assert ForScript(BindAll(b, ms, side), id) == Some(side[k].1);
    } else if k :| LastFor(ms, side, id, k) {
      assert side[k].1 == r;
    }
  }

  // One request of a referrer bound to r, and any module x bound to r: afterwards x is put to another resolver
  // if and only if the side links mislead for x and the answer, if there is one, has not its script id.
  lemma RequestMisleads(l: Link, ms: Modules, m: Mod, spec: Spec, x: Mod, r: Resolver)
    requires (spec, m) in ms.answer && (spec, m) in ms.side
    requires ForScript(l.bindings, IdOf(ms, m)) == Some(r) && ForScript(l.bindings, IdOf(ms, x)) == Some(r)
    ensures var (l', child) := Ask(l, ms, m, spec);
      ForScript(l'.bindings, IdOf(ms, x)) != Some(r) <==>
        Misled(ms, ms.side[(spec, m)], x, r) && (child.Some? ==> IdOf(ms, child.value) != IdOf(ms, x))
  {
    SideMisleads(l.bindings, ms, ms.side[(spec, m)], x, r);
  }

  // Module 1 makes two requests.  Answering the first, the resolver links module 3 with another
  // resolver; 3 has the script id of 1, so the second request of 1 is put to that other resolver.
  const SHARED := Modules(
    map[1 := [10, 11], 2 := []],
    map[1 := 5, 2 := 6, 3 := 5],
    map[],
    map[(10, 1) := Some(2), (11, 1) := Some(2)],
    map[(10, 1) := [(3, 77)], (11, 1) := []])

  lemma SharedScriptIdMisleads(b: Bindings)
    ensures Wf(SHARED) && !SidesApart(SHARED)
    ensures (1, Some(77)) in Instantiate(b, SHARED, {}, 1, Some(42)).asks
  {
    assert SHARED.requests[1] == [10, 11] && SHARED.side[(10, 1)] == [(3, 77)];
    assert (3, 77) in SHARED.side[(10, 1)] && !Apart(SHARED, 3) by { assert 1 in SHARED.requests; }
    var b0 := Bind(b, 5, "", Some(42));
    var l0 := Link({1}, b0, [], Ok);
    var (l1, c1) := Ask(l0, SHARED, 1, 10);
    assert BindAll(b0, SHARED, [(3, 77)]) == Bind(b0, 5, "", Some(77)) by {
      assert [(3, 77)][1..] == [];
    }
    assert ForScript(l1.bindings, 5) == Some(77);
    var (l2, c2) := Ask(l1, SHARED, 1, 11);
    assert (1, Some(77)) in l2.asks;
    AskAllTwo(l0);
    var (l3, children) := AskAll(l0, SHARED, 1, 0);
    var l4 := VisitAll(l3, SHARED, children);
    AsksGrowAll(l3, SHARED, children, (1, Some(77)));
    assert Instantiate(b, SHARED, {}, 1, Some(42)) == l4 by {
      assert {1} == {} + {1};
    }
  }

  lemma AskAllTwo(l: Link)
    requires l.status.Ok? && Wf(SHARED)
    ensures Ask(l, SHARED, 1, 10).1.Some? ==>
      AskAll(l, SHARED, 1, 0).0.asks == Ask(Ask(l, SHARED, 1, 10).0, SHARED, 1, 11).0.asks
  {
    var (l1, c1) := Ask(l, SHARED, 1, 10);
    if c1.Some? {
      var (l2, c2) := Ask(l1, SHARED, 1, 11);
      assert AskAll(l1, SHARED, 1, 1).0.asks == l2.asks;
    }
  }

  // What has been asked stays on record.
  lemma {:induction false} AskAllGrows(l: Link, ms: Modules, m: Mod, k: nat, a: (Mod, Option<Resolver>))
    requires Wf(ms) && m in ms.requests && k <= |ms.requests[m]| && l.status.Ok? && a in l.asks
    ensures a in AskAll(l, ms, m, k).0.asks
    decreases |ms.requests[m]| - k
  {
    if k < |ms.requests[m]| {
      var (l1, child) := Ask(l, ms, m, ms.requests[m][k]);
      assert a in l1.asks;
      if child.Some? { AskAllGrows(l1, ms, m, k + 1, a); }
    }
  }

  lemma {:induction false} AsksGrow(l: Link, ms: Modules, m: Mod, a: (Mod, Option<Resolver>))
    requires Wf(ms) && m in ms.requests && l.status.Ok? && a in l.asks
    ensures a in Visit(l, ms, m).asks
    decreases Unvisited(ms, l), 0
  {
    if m !in l.visited {
      var l0 := l.(visited := l.visited + {m});
      VisitShrinks(ms, l.visited, l0.visited);
      assert m in l0.visited && m !in l.visited;
      AskAllGrows(l0, ms, m, 0, a);
      var (l1, children) := AskAll(l0, ms, m, 0);
      if l1.status.Ok? { AsksGrowAll(l1, ms, children, a); }
    }
  }

  lemma {:induction false} AsksGrowAll(l: Link, ms: Modules, children: seq<Mod>, a: (Mod, Option<Resolver>))
    requires Wf(ms) && (forall c :: c in children ==> c in ms.requests) && l.status.Ok? && a in l.asks
    ensures a in VisitAll(l, ms, children).asks
    decreases Unvisited(ms, l), 1 + |children|
  {
    if children != [] {
      var l1 := Visit(l, ms, children[0]);
      AsksGrow(l, ms, children[0], a);
      VisitShrinks(ms, l.visited, l1.visited);
      if l1.status.Ok? { AsksGrowAll(l1, ms, children[1..], a); }
    }
  }
}
