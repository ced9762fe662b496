/**
 V8's handle scopes (internal/v8/include/v8-local-handle.h): a bump allocator
 whose position is saved by the constructor of HandleScope and restored by its
 destructor.  Addresses count slots.

 Extend and DeleteExtensions have no visible bodies.  Their contracts here are:
 Extend makes room of at least one slot that no open scope uses; DeleteExtensions
 gives up slots that no open scope uses.
 */
module HandleScopes {

  type Slot = nat
  type Address = int

  // The room Extend would like to hand out: `size` slots from `start`.
  datatype Room = Room(start: Slot, size: nat)

  // A well-bracketed program: handles and nested scopes.  `given` is what DeleteExtensions gives up.
  datatype Op = Create(value: Address, room: Room) | Nested(body: seq<Op>, given: set<Slot>)

  predicate Apart(start: Slot, end: Slot, used: set<Slot>) {
    forall a {:trigger a in used} :: a in used ==> a < start || end <= a
  }

  // struct HandleScopeData and the memory behind it.  `live` is a history variable: the slots handed
  // out by scopes that are still open.
  class HandleScopeData {
    var next: Slot
    var limit: Slot
    var level: int
    var slots: map<Slot, Address>
    var live: set<Slot>

    ghost predicate Valid()
      reads this
    {
      next <= limit && live <= slots.Keys && Apart(next, limit, live)
    }

    ghost function Held(s: set<Slot>): (m: map<Slot, Address>)
      requires s <= slots.Keys
      reads this
    {
      map a | a in s :: slots[a]
    }

    constructor ()
      ensures Valid() && next == limit == 0 && level == 0 && live == {}
    {
      next, limit, level := 0, 0, 0;
      slots, live := map[], {};
    }

    // a slot above every live one
    method Above() returns (top: Slot)
      ensures forall a {:trigger a in live} :: a in live ==> a < top
    {
      var rest := live;
      top := 0;
      while rest != {}
        invariant rest <= live
        invariant forall a {:trigger a in live} :: a in live && a !in rest ==> a < top
        decreases |rest|
      {
        var x :| x in rest;
        if top <= x { top := x + 1; }
        rest := rest - {x};
      }
    }

    // HandleScope::Extend: whatever room the environment proposes if it may have it, some room if not
    method Extend(room: Room) returns (result: Slot)
      requires Valid() && next == limit
      modifies this`limit
      ensures result < limit && Apart(result, limit, live)
      ensures room.size > 0 && Apart(room.start, room.start + room.size, live) ==>
        result == room.start && limit == room.start + room.size
    {
      if room.size > 0 && forall a | a in live :: a < room.start || room.start + room.size <= a {
        result, limit := room.start, room.start + room.size;
      } else {
        var top := Above();
        result, limit := top, top + 1;
      }
    }

    // The new handle is a slot that no open scope holds, within the limit: the next one, or the first of new room
    // if there is none left.  Every handle of an open scope keeps its contents.
    method CreateHandle(value: Address, room: Room) returns (result: Slot)
      requires Valid()
      modifies this
      ensures Valid() && level == old(level)
      ensures result !in old(live) && result < limit && next == result + 1
      ensures live == old(live) + {result} && slots == old(slots)[result := value]
      ensures Held(old(live)) == old(Held(live))
      ensures old(next) != old(limit) ==> result == old(next) && limit == old(limit)
      ensures old(next) == old(limit) && room.size > 0 && Apart(room.start, room.start + room.size, old(live)) ==>
        result == room.start && limit == room.start + room.size
    {
      result := next;
      if result == limit {
        result := Extend(room);
      }
      next := result + 1;
      slots := slots[result := value];
      live := live + {result};
    }

    // HandleScope::DeleteExtensions, after next and limit are back
    method DeleteExtensions(given: set<Slot>)
      requires live <= slots.Keys
      modifies this`slots
      ensures live <= slots.Keys && slots.Keys == old(slots.Keys) - (given - live)
      ensures forall a {:trigger a in slots} :: a in slots ==> slots[a] == old(slots)[a]
    {
      slots := map a | a in slots && (a in live || a !in given) :: slots[a];
    }
  }

  class HandleScope {
    var prevNext: Slot
    var prevLimit: Slot
    const data: HandleScopeData
    const outer: set<Slot>      // history variable: the handles that were live when the scope was opened

    // Initialize
    constructor (d: HandleScopeData)
      requires d.Valid()
      modifies d`level
      ensures data == d && outer == d.live && d.Valid() && d.level == old(d.level) + 1
      ensures prevNext == d.next && prevLimit == d.limit
    {
      data, outer := d, d.live;
      prevNext, prevLimit := d.next, d.limit;
      new;
      d.level := d.level + 1;
    }

    // The destructor: the free segment is again the one the scope found, and everything allocated since
    // is given up; memory goes only if the scope was extended.
    method Close(given: set<Slot>)
      requires data.Valid() && outer <= data.live
      requires prevNext <= prevLimit && Apart(prevNext, prevLimit, outer)
      modifies this, data
      ensures data.Valid() && data.live == outer
      ensures data.next == old(prevNext) && data.limit == old(prevLimit) && data.level == old(data.level) - 1
      ensures data.Held(outer) == old(data.Held(outer)) && prevNext == old(data.next)
      ensures data.slots.Keys == old(data.slots.Keys) - (if old(data.limit) == old(prevLimit) then {} else given - outer)
    {
      data.next, prevNext := prevNext, data.next;
      data.level := data.level - 1;
      data.live := outer;
      if data.limit != prevLimit {
        data.limit := prevLimit;
        data.DeleteExtensions(given);
      }
    }
  }

  function Creates(ops: seq<Op>): nat {
    if ops == [] then 0 else (if ops[0].Create? then 1 else 0) + Creates(ops[1..])
  }

  // Any program leaves the handles of enclosing scopes in place, unchanged and apart from its own, of
  // which there are as many as it created at its own level.
  method Run(d: HandleScopeData, ops: seq<Op>)
    requires d.Valid()
    modifies d
    ensures d.Valid() && d.level == old(d.level)
    ensures old(d.live) <= d.live && |d.live| == |old(d.live)| + Creates(ops)
    ensures d.Held(old(d.live)) == old(d.Held(d.live))
    decreases ops, 0
  {
    if ops == [] { return; }
    match ops[0] {
      case Create(value, room) =>
        var h := d.CreateHandle(value, room);
      case Nested(body, given) =>
        RunScope(d, body, given);
    }
    label Rest:
    Run(d, ops[1..]);
    assert forall a {:trigger a in old(d.live)} :: a in old(d.live) ==> d.slots[a] == old@Rest(d.slots[a]) by {
      assert forall a :: a in old(d.live) ==> d.Held(old@Rest(d.live))[a] == old@Rest(d.Held(d.live))[a];
    }
  }

  // A scope, whatever happens inside, restores next, limit and level exactly.
  method RunScope(d: HandleScopeData, body: seq<Op>, given: set<Slot>)
    requires d.Valid()
    modifies d
    ensures d.Valid() && d.live == old(d.live)
    ensures d.next == old(d.next) && d.limit == old(d.limit) && d.level == old(d.level)
    ensures d.Held(old(d.live)) == old(d.Held(d.live))
    decreases body, 1
  {
    var scope := new HandleScope(d);
    Run(d, body);
    scope.Close(given);
  }
}
