/** The connection pool object: an index updated in step with the object pool beneath it. */
module ConnectionPools {
  import opened Base
  import opened PoolModel
  import opened ConnectionPoolModel
  import opened Pools

  class ConnectionIndex {
    const storage: ObjectPool
    const sized: Sized
    const memory: size
    const maxBytes: size
    const id: size
    const index: array<Option<Entry>>
    var leased: nat
    var available: nat
    var bytes: size
    var lastGeneration: size
    ghost var log: seq<Act>

    ghost function View(): (p: ConnectionPool)
      reads this, index, storage, storage.slots
    {
      ConnectionPool(storage.View(), sized, memory, index[..], leased, available, bytes, maxBytes, id, lastGeneration, log)
    }

    /** Over a fresh object pool, with every index entry empty. */
    constructor (pool: ObjectPool, size_: Sized, budget: size, limit: size)
      requires size_.Sized? && pool.View() == Fresh(size_.layout, pool.id, 0)
      ensures fresh(index) && storage == pool && View() == FreshConnectionPool(size_, budget, limit, pool.id)
    {
      var n := size_.layout.capacity;
      storage, sized, memory, maxBytes, id := pool, size_, budget, limit, pool.id;
      index := new Option<Entry>[n](i => None);
      leased, available, bytes, lastGeneration, log := 0, n, 0, 0, [];
      new;
      assert index[..] == FreshConnectionPool(size_, budget, limit, pool.id).index;
    }

    method Find(lease: Lease) returns (r: Found)
      ensures r == FindEntry(View(), lease)
    {
      if lease == NO_LEASE { return Missing(NotFound); }
      if !LeaseShaped(lease) || lease.pool != id { return Missing(InvalidArgument); }
      if lease.slot >= index.Length { return Missing(Range); }
      var entry := index[lease.slot];
      if entry.None? || entry.value.lease.generation != lease.generation { return Missing(NotFound); }
      var e := entry.value;
      if e.lease != lease || e.bytes == 0 || leased == 0 || e.bytes > bytes { return Missing(Internal); }
      return Found(e);
    }

    method LookupConnection(lease: Lease) returns (code: Code, owner: Option<nat>)
      ensures LookedUp(code, owner) == Lookup(View(), lease)
    {
      hide FindEntry;
      var found := Find(lease);
      match found
      case Missing(c) => return c, None;
      case Found(e) => return Ok, Some(e.owner);
    }

    method AdoptConnection(owner: nat, inspect: Code, transport: Code, info: Info) returns (code: Code, lease: Lease)
      requires Agree(View())
      modifies this`leased, this`available, this`bytes, this`lastGeneration, this`log, index, storage`freeHead, storage`inUse, storage`last, storage`chain, storage.slots
      ensures Adoption(code, lease, View()) == Adopt(old(View()), owner, inspect, transport, info)
      ensures Agree(View())
    {
      hide Agree, Acquire, Appraise;
      ghost var before := View();
      var worth := Appraise(bytes, maxBytes, inspect, transport, info);
      AdoptRefines(before, owner, inspect, transport, info, NO_LEASE);
      if worth.Bad? { return worth.code, NO_LEASE; }
      var offset;
      ghost var a := Acquire(before.storage);
      code, lease, offset := storage.Take();
      if code != Ok { UnchangedAcquire(before.storage); return code, NO_LEASE; }
      EnterAgrees(before, owner, worth.value);
      assert index[..] == before.index;
      index[lease.slot] := Some(Entry(lease, owner, worth.value));
      lastGeneration := lease.generation;
      leased := leased + 1;
      available := if available == 0 then 0 else available - 1;
      bytes := bytes + worth.value;
      log := log + [Adopted(lease, owner)];
      return Ok, lease;
    }

    method GiveBackConnection(lease: Lease, destroy: Code) returns (code: Code, left: Lease)
      requires Agree(View())
      modifies this`leased, this`available, this`bytes, this`log, index, storage`freeHead, storage`inUse, storage`chain, storage.slots
      ensures Return(code, left, View()) == GiveBack(old(View()), lease, destroy)
      ensures Agree(View())
    {
      hide Agree, FindEntry, Release;
      ghost var before := View();
      GiveBackRefines(before, lease, destroy, NO_LEASE);
      LookupExact(before, lease);
      var found := Find(lease);
      if found.Missing? { return found.code, lease; }
      if destroy != Ok && destroy != Io { return destroy, lease; }
      var e := found.entry;
      code, left := storage.GiveBack(e.lease);
      FailedRelease(before.storage, e.lease);
      if code != Ok { return Internal, lease; }
      assert index[..] == before.index;
      index[lease.slot] := None;
      leased := if leased == 0 then 0 else leased - 1;
      available := available + 1;
      bytes := bytes - e.bytes;
      log := log + [Gone(lease)];
      return destroy, NO_LEASE;
    }

    method InspectPool() returns (code: Code)
      requires Agree(View())
      ensures code == Inspect(View()) == Ok
    {
      InspectNeverInternal(View());
      hide Agree;
      var l := sized.layout;
      if || storage.layout != l || storage.id == 0 || storage.inUse > l.capacity || sized.allocation > memory || sized.metadata == 0
         || sized.allocation <= l.bytes || sized.metadata >= sized.allocation - l.bytes
         || storage.id != id || storage.last != lastGeneration || storage.inUse != leased
         || l.capacity - storage.inUse != available || bytes > maxBytes
      {
        return Internal;
      }
      return Ok;
    }
  }

  lemma UnchangedAcquire(p: Pool)
    ensures Acquire(p).code != Ok ==> Acquire(p).pool == p
  {
  }

  lemma FailedRelease(p: Pool, l: Lease)
    ensures Release(p, l).code != Ok ==> Release(p, l).pool == p
  {
  }
}
