/**
 The two-layer handle heap.  The native side owns `gv8_value` cells and indexes
 them, per native context, by id.  The Go side owns `Value` wrappers and indexes
 them, per Go context, in `live` (the source's `liveValues`).

 Reading freed or null native memory is not excluded by a precondition: it sets
 `fault`.  A caller that breaks an obligation, which the library does not check,
 sets `rogue` and the run goes on.  Both stay set, so "never at fault unless rogue
 before" is a statement about whole runs.
 */
module Handles {

  type Addr = nat     // a native address; 0 is the null pointer, and freed addresses may be used again
  type Ref = nat      // a Go *Value; 0 is nil
  type CtxRef = nat   // Context.ref
  type Js = int       // the identity of a JavaScript value

  // struct gv8_value.  `serial` is a history variable: the number of the allocation.
  datatype NativeValue = NativeValue(id: nat, ctx: Addr, js: Js, serial: nat)

  // struct gv8_ctx
  datatype NativeCtx = NativeCtx(ref: CtxRef, values: map<nat, Addr>, nextId: nat)

  // type Value.  `born` is a history variable: the JavaScript value it was created for.
  datatype GoValue = GoValue(ptr: Addr, ctx: CtxRef, borrowed: bool, born: Js)

  // type Context
  datatype GoContext = GoContext(ptr: Addr, closed: bool, live: set<Ref>, fns: set<nat>)

  // A JavaScript function made for a callback id.
  datatype HostFn = HostFn(id: nat, ctx: CtxRef)

  // What JavaScript gets from a host function: nothing, a value, or an exception.
  datatype Answer = NoAnswer | Gives(js: Js) | Throws(js: Js)

  datatype World = World(
    heap: map<Addr, NativeValue>,    // allocated gv8_value cells
    nctxs: map<Addr, NativeCtx>,     // allocated gv8_ctx cells
    vals: map<Ref, GoValue>,
    ctxs: map<CtxRef, GoContext>,
    ctxSeq: nat,
    fns: map<nat, CtxRef>,           // hostFnRefs: callback id to the context it was made in
    fnSeq: nat,
    functions: set<HostFn>,          // every function ever made; a history variable
    nextRef: nat,
    hidden: set<Ref>,                // wrappers that user code never receives
    orphans: set<Ref>,               // hidden wrappers whose cell native code has already deleted
    nextSerial: nat,                 // number of cells ever allocated
    freed: multiset<nat>,            // serial of every delete ever executed
    answers: seq<Answer>,            // what host functions have given JavaScript so far; a history variable
    fault: bool,
    rogue: bool)

  // The wrappers and contexts that a native call further up the stack still uses.
  datatype Busy = Busy(refs: set<Ref>, ctxs: set<CtxRef>)

  const IDLE := Busy({}, {})

  // Native code never touches the Go side.
  ghost predicate GoUnchanged(w: World, w': World) {
    && w'.vals == w.vals && w'.ctxs == w.ctxs && w'.ctxSeq == w.ctxSeq
    && w'.fns == w.fns && w'.fnSeq == w.fnSeq && w'.functions == w.functions && w'.nextRef == w.nextRef
    && w'.hidden == w.hidden && w'.orphans == w.orphans && w'.rogue == w.rogue && w'.answers == w.answers
    && (w.fault ==> w'.fault)
  }

  /* ---- native side ---- */

  lemma FreshExists(used: set<Addr>)
    ensures exists p: Addr :: p != 0 && p !in used
  {
    var bound := UpperBound(used);
    assert bound + 1 != 0 && bound + 1 !in used;
  }

  lemma {:induction false} UpperBound(s: set<Addr>) returns (m: nat)
    ensures forall p :: p in s ==> p <= m
    decreases |s|
  {
    if s == {} {
      m := 0;
    } else {
      var x :| x in s;
      var k := UpperBound(s - {x});
      m := if k < x then x else k;
      forall p | p in s ensures p <= m {
        if p != x { assert p in s - {x}; }
      }
    }
  }

  // The allocator may return any address that is not allocated, so `hint` is the environment's choice.
  ghost function Pick(used: set<Addr>, hint: Addr): (p: Addr)
    ensures p != 0 && p !in used
  {
    if hint != 0 && hint !in used then hint
    else
      FreshExists(used);
      var p: Addr :| p != 0 && p !in used;
      p
  }

  // wrapValue: allocate a cell and index it in the context
  ghost function Wrap(w: World, ca: Addr, js: Js, hint: Addr): (r: (World, Addr))
    ensures GoUnchanged(w, r.0)
  {
    if ca !in w.nctxs then (w.(fault := true), 0)
    else
      var p := Pick(w.heap.Keys, hint);
      var n := w.nctxs[ca];
      var id := n.nextId + 1;
      (w.(heap := w.heap[p := NativeValue(id, ca, js, w.nextSerial)],
          nctxs := w.nctxs[ca := n.(values := n.values[id := p], nextId := id)],
          nextSerial := w.nextSerial + 1), p)
  }

  // wrapBorrowedValue: allocate a cell that no index knows, id 0
  ghost function WrapBorrowed(w: World, ca: Addr, js: Js, hint: Addr): (r: (World, Addr))
    ensures GoUnchanged(w, r.0)
  {
    var p := Pick(w.heap.Keys, hint);
    (w.(heap := w.heap[p := NativeValue(0, ca, js, w.nextSerial)], nextSerial := w.nextSerial + 1), p)
  }

  // GV8ValueRelease
  ghost function NativeRelease(w: World, p: Addr): (w': World)
    ensures GoUnchanged(w, w') && w'.nextSerial == w.nextSerial
  {
    if p == 0 then w
    else if p !in w.heap then w.(fault := true)
    else
      var cell := w.heap[p];
      if cell.id != 0 && cell.ctx !in w.nctxs then w.(fault := true)
      else
        var n := if cell.id != 0 then w.nctxs[cell.ctx] else NativeCtx(0, map[], 0);
        w.(heap := w.heap - {p},
           nctxs := if cell.id != 0 then w.nctxs[cell.ctx := n.(values := n.values - {cell.id})] else w.nctxs,
           freed := w.freed + multiset{cell.serial})
  }

  // GV8ValueRetain
  ghost function NativeRetain(w: World, p: Addr, hint: Addr): (r: (World, Addr))
    ensures GoUnchanged(w, r.0)
  {
    if p == 0 then (w, 0)
    else if p !in w.heap then (w.(fault := true), 0)
    else Wrap(w, w.heap[p].ctx, w.heap[p].js, hint)
  }

  // The cells a context's index points at are all allocated, each reached once.
  ghost predicate IndexSound(heap: map<Addr, NativeValue>, index: map<nat, Addr>) {
    && (forall id :: id in index ==> index[id] in heap)
    && (forall i, j :: i in index && j in index && index[i] == index[j] ==> i == j)
  }

  ghost function Serials(heap: map<Addr, NativeValue>, gone: set<Addr>): multiset<nat> {
    multiset(set p | p in gone && p in heap :: heap[p].serial)
  }

  // GV8ContextDispose: delete every indexed cell, then the context
  ghost function ContextDispose(w: World, ca: Addr): (w': World)
    ensures GoUnchanged(w, w')
  {
    if ca == 0 then w
    else if ca !in w.nctxs then w.(fault := true)
    else if !IndexSound(w.heap, w.nctxs[ca].values) then w.(fault := true)
    else
      var gone := w.nctxs[ca].values.Values;
      w.(heap := w.heap - gone,
         nctxs := w.nctxs - {ca},
         freed := w.freed + Serials(w.heap, gone))
  }

  /* ---- Go side ---- */

  // the negation of Context.isClosed
  ghost predicate Open(w: World, c: CtxRef) {
    c in w.ctxs && !w.ctxs[c].closed && w.ctxs[c].ptr != 0
  }

  // Value.valid
  ghost predicate Valid(w: World, v: Ref) {
    v in w.vals && w.vals[v].ptr != 0 && Open(w, w.vals[v].ctx)
  }

  ghost predicate Nameable(w: World, v: Ref) {
    v in w.vals && v !in w.hidden
  }

  ghost function Invalidate(w: World, v: Ref): World {
    if v in w.vals then w.(vals := w.vals[v := w.vals[v].(ptr := 0)]) else w
  }

  // newValue, with Context.trackValue: a closed context invalidates the wrapper at once
  ghost function NewValue(w: World, c: CtxRef, p: Addr, js: Js): (r: (World, Ref))
    ensures r.0.rogue == w.rogue && r.0.fault == w.fault && r.0.orphans == w.orphans && r.0.functions == w.functions && r.0.answers == w.answers
  {
    if p == 0 then (w, 0)
    else
      var v := w.nextRef;
      if c !in w.ctxs || w.ctxs[c].closed then
        (w.(vals := w.vals[v := GoValue(0, c, false, js)], nextRef := v + 1), v)
      else
        (w.(vals := w.vals[v := GoValue(p, c, false, js)],
            ctxs := w.ctxs[c := w.ctxs[c].(live := w.ctxs[c].live + {v})],
            nextRef := v + 1), v)
  }

  ghost function NewBorrowed(w: World, c: CtxRef, p: Addr, js: Js): (World, Ref) {
    if p == 0 then (w, 0)
    else (w.(vals := w.vals[w.nextRef := GoValue(p, c, true, js)], nextRef := w.nextRef + 1), w.nextRef)
  }

  // Context.untrackValue
  ghost function Untrack(w: World, v: Ref): World
    requires v in w.vals
  {
    var c := w.vals[v].ctx;
    if c in w.ctxs then w.(ctxs := w.ctxs[c := w.ctxs[c].(live := w.ctxs[c].live - {v})]) else w
  }

  // Value.Release
  ghost function Release(w: World, v: Ref): (w': World)
    ensures w'.orphans == w.orphans && w'.hidden == w.hidden && w'.nextRef == w.nextRef && w'.rogue == w.rogue
    ensures w'.fns == w.fns && w'.fnSeq == w.fnSeq && w'.functions == w.functions && w'.ctxSeq == w.ctxSeq
    ensures (w.fault ==> w'.fault) && w'.answers == w.answers
  {
    if v !in w.vals || w.vals[v].ptr == 0 then w
    else if w.vals[v].borrowed then Invalidate(w, v)
    else Invalidate(NativeRelease(Untrack(w, v), w.vals[v].ptr), v)
  }

  // the wrappers with every pointer in `live` cleared
  ghost function NullIn(vals: map<Ref, GoValue>, live: set<Ref>): map<Ref, GoValue> {
    map r | r in vals :: if r in live then vals[r].(ptr := 0) else vals[r]
  }

  // Context.Close
  ghost function Close(w: World, c: CtxRef): (w': World)
    ensures w'.rogue == w.rogue && (w.fault ==> w'.fault) && w'.orphans == w.orphans && w'.nextRef == w.nextRef
    ensures w'.functions == w.functions && w'.answers == w.answers
  {
    if c !in w.ctxs || w.ctxs[c].ptr == 0 || w.ctxs[c].closed then w
    else
      var g := w.ctxs[c];
      var w1 := w.(
        ctxs := w.ctxs[c := GoContext(0, true, {}, {})],
        vals := NullIn(w.vals, g.live),
        fns := w.fns - g.fns);
      ContextDispose(w1, g.ptr)
  }

  // NewContext
  ghost function NewContext(w: World, hint: Addr): World {
    var c := w.ctxSeq + 1;
    var ca := Pick(w.nctxs.Keys, hint);
    w.(nctxs := w.nctxs[ca := NativeCtx(c, map[], 0)],
       ctxs := w.ctxs[c := GoContext(ca, false, {}, {})],
       ctxSeq := c)
  }

  // handoffHostValue: give native code a cell of its own and drop the Go side's
  ghost function Handoff(w: World, v: Ref, hint: Addr): (r: (World, Addr))
    ensures r.0.rogue == w.rogue && (w.fault ==> r.0.fault) && r.0.orphans == w.orphans && r.0.functions == w.functions && r.0.answers == w.answers
  {
    if v !in w.vals || w.vals[v].ptr == 0 then (w, 0)
    else
      var (w1, p) := NativeRetain(w, w.vals[v].ptr, hint);
      (if w.vals[v].borrowed then Invalidate(w1, v) else Release(w1, v), p)
  }

  /* ---- the invariant ---- */

  // The index of every context and the cells it points at describe each other; a cell outside
  // every index (id 0) belongs to a context that a native frame is using.
  ghost predicate NativeInv(heap: map<Addr, NativeValue>, nctxs: map<Addr, NativeCtx>, b: Busy) {
    && 0 !in heap && 0 !in nctxs
    && (forall a, id {:trigger id in nctxs[a].values} :: a in nctxs && id in nctxs[a].values ==>
          0 < id <= nctxs[a].nextId && Indexed(heap, nctxs[a].values[id], a, id))
    && (forall p {:trigger p in heap} :: p in heap ==> CellSound(heap[p], p, nctxs, b))
  }

  ghost predicate Indexed(heap: map<Addr, NativeValue>, p: Addr, a: Addr, id: nat) {
    p in heap && heap[p].ctx == a && heap[p].id == id
  }

  ghost predicate CellSound(cell: NativeValue, p: Addr, nctxs: map<Addr, NativeCtx>, b: Busy) {
    && cell.ctx in nctxs
    && if cell.id == 0 then nctxs[cell.ctx].ref in b.ctxs
       else cell.id in nctxs[cell.ctx].values && nctxs[cell.ctx].values[cell.id] == p
  }

  // An open Go context and its native context point at each other.
  ghost predicate LinkInv(nctxs: map<Addr, NativeCtx>, ctxs: map<CtxRef, GoContext>, ctxSeq: nat) {
    && (forall a {:trigger a in nctxs} :: a in nctxs ==> nctxs[a].ref in ctxs && ctxs[nctxs[a].ref].ptr == a)
    && (forall c {:trigger c in ctxs} :: c in ctxs ==> 0 < c <= ctxSeq && ContextSound(ctxs[c], c, nctxs))
  }

  ghost predicate ContextSound(g: GoContext, c: CtxRef, nctxs: map<Addr, NativeCtx>) {
    if g.closed then g == GoContext(0, true, {}, {})
    else g.ptr in nctxs && nctxs[g.ptr].ref == c
  }

  // liveValues holds owners of its own context only.
  ghost predicate LiveInv(ctxs: map<CtxRef, GoContext>, vals: map<Ref, GoValue>, orphans: set<Ref>) {
    forall c, r {:trigger r in ctxs[c].live} :: c in ctxs && r in ctxs[c].live ==>
      r in vals && LiveSound(vals[r], c, r in orphans)
  }

  ghost predicate LiveSound(v: GoValue, c: CtxRef, orphan: bool) {
    v.ctx == c && !v.borrowed && (v.ptr != 0 || orphan)
  }

  // A registered callback id belongs to one context, which is open and lists it.
  ghost predicate FnInv(ctxs: map<CtxRef, GoContext>, fns: map<nat, CtxRef>, fnSeq: nat) {
    && (forall id {:trigger id in fns} :: id in fns ==>
          0 < id <= fnSeq && fns[id] in ctxs && !ctxs[fns[id]].closed && id in ctxs[fns[id]].fns)
    && (forall c, id {:trigger id in ctxs[c].fns} :: c in ctxs && id in ctxs[c].fns ==>
          id <= fnSeq && FnOwner(fns, id, c))
  }

  ghost predicate FnOwner(fns: map<nat, CtxRef>, id: nat, c: CtxRef) {
    id in fns ==> fns[id] == c
  }

  // As long as its context is open, the id of a function stays registered, for that context.
  ghost predicate MadeInv(functions: set<HostFn>, ctxs: map<CtxRef, GoContext>, fns: map<nat, CtxRef>, fnSeq: nat) {
    forall f {:trigger f in functions} :: f in functions ==> f.id <= fnSeq && f.ctx in ctxs && MadeSound(f, ctxs[f.ctx], fns)
  }

  ghost predicate MadeSound(f: HostFn, g: GoContext, fns: map<nat, CtxRef>) {
    g.closed || (f.id in fns && fns[f.id] == f.ctx)
  }

  ghost predicate ContextInv(w: World) {
    && LinkInv(w.nctxs, w.ctxs, w.ctxSeq)
    && LiveInv(w.ctxs, w.vals, w.orphans)
    && FnInv(w.ctxs, w.fns, w.fnSeq)
    && MadeInv(w.functions, w.ctxs, w.fns, w.fnSeq)
  }

  // What a wrapper that still holds a pointer is entitled to: its cell is allocated, refers to the
  // JavaScript value it was made for, lives in its own context's native context, and is indexed
  // exactly when the wrapper owns it.
  ghost predicate Backed(v: GoValue, r: Ref, heap: map<Addr, NativeValue>, ctxs: map<CtxRef, GoContext>) {
    && v.ptr in heap
    && heap[v.ptr].js == v.born
    && v.ctx in ctxs && !ctxs[v.ctx].closed
    && heap[v.ptr].ctx == ctxs[v.ctx].ptr
    && (v.borrowed <==> heap[v.ptr].id == 0)
    && (!v.borrowed ==> r in ctxs[v.ctx].live)
  }

  // An orphan with a pointer is still tracked, so that Close clears it.
  ghost predicate OrphanSound(v: GoValue, r: Ref, ctxs: map<CtxRef, GoContext>) {
    !v.borrowed && (v.ptr != 0 ==> v.ctx in ctxs && r in ctxs[v.ctx].live)
  }

  // Wrapper r is the owner of the cell at p.
  ghost predicate Owns(w: World, r: Ref, p: Addr) {
    r in w.vals && r !in w.orphans && !w.vals[r].borrowed && w.vals[r].ptr == p
  }

  ghost predicate Owned(w: World, p: Addr) {
    exists r :: Owns(w, r, p)
  }

  ghost predicate ValueInv(w: World) {
    && 0 < w.nextRef
    && (forall r {:trigger r in w.vals} :: r in w.vals ==> 0 < r < w.nextRef && w.vals[r].ctx in w.ctxs)
    && (forall r {:trigger r in w.vals} :: r in w.vals && r !in w.orphans && w.vals[r].ptr != 0 ==>
          Backed(w.vals[r], r, w.heap, w.ctxs))
    && (forall r, s, p :: p != 0 && Owns(w, r, p) && Owns(w, s, p) ==> r == s)
    && (forall r {:trigger r in w.orphans} :: r in w.orphans ==> r in w.vals && OrphanSound(w.vals[r], r, w.ctxs))
    && w.orphans <= w.hidden
    && (forall r {:trigger r in w.hidden} :: r in w.hidden ==> r < w.nextRef)
  }

  ghost predicate HasSerial(heap: map<Addr, NativeValue>, p: Addr, s: nat) {
    p in heap && heap[p].serial == s
  }

  // Every allocation is either still live, at one address, or was deleted exactly once.
  ghost predicate SerialInv(heap: map<Addr, NativeValue>, nextSerial: nat, freed: multiset<nat>) {
    && (forall p {:trigger p in heap} :: p in heap ==>
          heap[p].serial < nextSerial && freed[heap[p].serial] == 0)
    && (forall p, q, s :: HasSerial(heap, p, s) && HasSerial(heap, q, s) ==> p == q)
    && (forall s: nat {:trigger freed[s]} :: freed[s] <= 1 && (freed[s] == 1 ==> s < nextSerial))
  }

  ghost predicate Inv(w: World, b: Busy) {
    && NativeInv(w.heap, w.nctxs, b)
    && ContextInv(w)
    && ValueInv(w)
    && SerialInv(w.heap, w.nextSerial, w.freed)
    && |w.freed| + |w.heap| == w.nextSerial
    && !w.fault
    && !w.rogue
    && (forall c :: c in b.ctxs ==> Open(w, c))
  }
}
