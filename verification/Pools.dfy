/** The pool object: slot records linked and stamped in place. */
module Pools {
  import opened Base
  import opened PoolModel

  class ObjectPool {
    const layout: Layout
    const id: size
    const slots: array<Slot>
    var freeHead: nat
    var inUse: nat
    var last: size
    ghost var chain: seq<nat>

    ghost function View(): (p: Pool)
      reads this, slots
    {
      Pool(layout, slots[..], freeHead, inUse, id, last, chain)
    }

    /** Threads every slot onto the free list, first to last. */
    constructor (l: Layout, identity: size, initial: size)
      requires LayoutOk(l) && identity != 0
      ensures fresh(slots) && View() == Fresh(l, identity, initial) && Inv(View())
    {
      FreshInv(l, identity, initial);
      hide LayoutOk, Inv, InOrder, FreshSlots;
      var links := new Slot[l.capacity](i => Slot(END, 0, false));
      layout, id, slots := l, identity, links;
      freeHead, inUse, last, chain := 0, 0, initial, InOrder(l.capacity);
      new;
      for i := 0 to l.capacity
        modifies links
        invariant forall k :: 0 <= k < i ==> links[k] == FreshSlots(l.capacity)[k]
      {
        links[i] := Slot(if i + 1 == l.capacity then END else i + 1, 0, false);
      }
      assert slots[..] == FreshSlots(l.capacity);
    }

    method Take() returns (code: Code, lease: Lease, offset: nat)
      modifies this`freeHead, this`inUse, this`last, this`chain, slots
      ensures Acquired(code, lease, offset, View()) == Acquire(old(View()))
    {
      if last >= U64_MAX { return Overflow, NO_LEASE, 0; }
      if freeHead == END { return Busy, NO_LEASE, 0; }
      var index := freeHead;
      if index >= slots.Length || index * layout.stride > SIZE_MAX { return Overflow, NO_LEASE, 0; }
      freeHead := slots[index].next;
      last := last + 1;
      slots[index] := slots[index].(generation := last, inUse := true);
      inUse := inUse + 1;
      chain := if chain == [] then [] else chain[1..];
      return Ok, Lease(id, index, last), index * layout.stride;
    }

    method GiveBack(lease: Lease) returns (code: Code, left: Lease)
      modifies this`freeHead, this`inUse, this`chain, slots
      ensures Released(code, left, View()) == Release(old(View()), lease)
    {
      if lease == NO_LEASE { return NotFound, lease; }
      if !LeaseShaped(lease) || lease.pool != id { return InvalidArgument, lease; }
      if lease.slot >= slots.Length { return Range, lease; }
      var s := slots[lease.slot];
      if !s.inUse || s.generation != lease.generation { return NotFound, lease; }
      slots[lease.slot] := Slot(freeHead, s.generation, false);
      freeHead := lease.slot;
      inUse := if inUse == 0 then 0 else inUse - 1;
      chain := [lease.slot] + chain;
      return Ok, NO_LEASE;
    }
  }

  /** `identity` is the claimed pool id, if any was left; `memory` whether all three allocations succeeded. */
  method CreatePool(o: Options, identity: Option<size>, memory: bool) returns (code: Code, pool: ObjectPool?)
    requires identity.Some? ==> identity.value != 0
    ensures code == match SizePool(o) {
                      case NotSized(c) => c
                      case Sized(_, _, _) => if identity.None? then Overflow else if !memory then NoMemory else Ok
                    }
    ensures pool != null <==> code == Ok
    ensures code == Ok ==> fresh(pool) && fresh(pool.slots) && pool.View() == Fresh(SizePool(o).layout, identity.value, 0) && Inv(pool.View())
  {
    var sized := SizePool(o);
    SizedIsOk(o);
    hide SizePool;
    if sized.NotSized? { return sized.code, null; }
    if identity.None? { return Overflow, null; }
    if !memory { return NoMemory, null; }
    pool := new ObjectPool(sized.layout, identity.value, 0);
    return Ok, pool;
  }
}
