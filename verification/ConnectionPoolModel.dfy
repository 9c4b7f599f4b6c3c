/**
  The connection pool as a value: an index beside the object pool, with its own counts and a byte
  total. Underneath it is a map from leases to connections, and the two sets of books always agree.
 */
module ConnectionPoolModel {
  import opened Base
  import opened PoolModel

  const OWNER_BYTES: nat := 8

  /** What a connection reports of itself. */
  datatype Info = Info(readCapacity: size, writeCapacity: size, capacityBytes: size, attached: bool, callback: bool, open: bool)

  /** `owner` names the connection. */
  datatype Entry = Entry(lease: Lease, owner: nat, bytes: nat)

  datatype Act = Adopted(lease: Lease, owner: nat) | Gone(lease: Lease)

  /** `storage` is the object pool, `sized` its fixed allocation; `log` is history. */
  datatype ConnectionPool = ConnectionPool(
    storage: Pool, sized: Sized, memory: size, index: seq<Option<Entry>>, leased: nat, available: nat,
    bytes: size, maxBytes: size, id: size, lastGeneration: size, log: seq<Act>)

  function StorageOptions(capacity: size, memory: size): Options
  {
    Options(OWNER_BYTES, OWNER_BYTES, capacity, memory)
  }

  // ---- Operations ----------------------------------------------------------------------------

  datatype Found = Found(entry: Entry) | Missing(code: Code)

  function FindEntry(p: ConnectionPool, lease: Lease): (r: Found)
  {
    if lease == NO_LEASE then Missing(NotFound)
    else if !LeaseShaped(lease) || lease.pool != p.id then Missing(InvalidArgument)
    else if lease.slot >= |p.index| then Missing(Range)
    else match p.index[lease.slot]
      case None => Missing(NotFound)
      case Some(e) =>
        if e.lease.generation != lease.generation then Missing(NotFound)
        else if e.lease != lease || e.bytes == 0 || p.leased == 0 || e.bytes > p.bytes then Missing(Internal)
        else Found(e)
  }

  datatype LookedUp = LookedUp(code: Code, owner: Option<nat>)

  function Lookup(p: ConnectionPool, lease: Lease): (r: LookedUp)
  {
    match FindEntry(p, lease)
    case Missing(code) => LookedUp(code, None)
    case Found(e) => LookedUp(Ok, Some(e.owner))
  }

  datatype Adoption = Adoption(code: Code, lease: Lease, after: ConnectionPool)

  /** The checks before a slot is taken: the bytes the connection brings, or why it is refused. */
  function Appraise(held: size, limit: size, inspect: Code, transport: Code, info: Info): (r: Checked)
    ensures r.Good? ==> 0 < r.value && held + r.value <= limit && r.value == info.readCapacity + info.writeCapacity
    ensures r.Bad? ==> r.code != Ok
  {
    if inspect != Ok then Bad(inspect)
    else if transport != Ok then Bad(transport)
    else match CheckedAdd(info.readCapacity, info.writeCapacity)
      case Bad(code) => Bad(code)
      case Good(bytes) =>
        if info.readCapacity == 0 || info.writeCapacity == 0 || bytes != info.capacityBytes then Bad(Internal)
        else if info.attached || info.callback || !info.open then Bad(Busy)
        else match CheckedAdd(held, bytes)
          case Bad(code) => Bad(code)
          case Good(total) => if bytes > limit then Bad(Range) else if total > limit then Bad(Busy) else Good(bytes)
  }

  /** Enters a slot just taken into the index, or gives it back if the index already has it. */
  function Enter(p: ConnectionPool, a: Acquired, owner: nat, bytes: nat): (r: Adoption)
    requires p.bytes + bytes <= SIZE_MAX && a.lease.generation <= U64_MAX
  {
    var l := a.lease;
    var q := p.(storage := a.pool, lastGeneration := l.generation);
    if l.pool != p.id || l.slot >= |p.index| || l.generation == 0 then Adoption(Internal, NO_LEASE, q)
    else if p.index[l.slot].Some? then Adoption(Internal, NO_LEASE, q.(storage := Release(a.pool, l).pool))
    else Adoption(Ok, l, q.(index := p.index[l.slot := Some(Entry(l, owner, bytes))], leased := p.leased + 1,
                            available := if p.available == 0 then 0 else p.available - 1, bytes := p.bytes + bytes,
                            log := p.log + [Adopted(l, owner)]))
  }

  function Adopt(p: ConnectionPool, owner: nat, inspect: Code, transport: Code, info: Info): (r: Adoption)
  {
    match Appraise(p.bytes, p.maxBytes, inspect, transport, info)
    case Bad(code) => Adoption(code, NO_LEASE, p)
    case Good(bytes) =>
      var a := Acquire(p.storage);
      if a.code != Ok then Adoption(a.code, NO_LEASE, p) else Enter(p, a, owner, bytes)
  }

  datatype Return = Return(code: Code, lease: Lease, after: ConnectionPool)

  function TakeOut(p: ConnectionPool, e: Entry, lease: Lease, destroy: Code): (r: Return)
    requires e.bytes <= p.bytes && lease.slot < |p.index|
  {
    var s := Release(p.storage, e.lease);
    if s.code != Ok then Return(Internal, lease, p)
    else Return(destroy, NO_LEASE,
                p.(storage := s.pool, index := p.index[lease.slot := None], leased := if p.leased == 0 then 0 else p.leased - 1,
                   available := p.available + 1, bytes := p.bytes - e.bytes, log := p.log + [Gone(lease)]))
  }

  /** `destroy` is how closing the connection went; on `Ok` and on `Io` the connection is gone. */
  function GiveBack(p: ConnectionPool, lease: Lease, destroy: Code): (r: Return)
  {
    match FindEntry(p, lease)
    case Missing(code) => Return(code, lease, p)
    case Found(e) => if destroy != Ok && destroy != Io then Return(destroy, lease, p) else TakeOut(p, e, lease, destroy)
  }

  /** The snapshot of the object pool is compared with everything the connection pool knows. */
  function Inspect(p: ConnectionPool): (code: Code)
  {
    var s := p.storage;
    if p.sized.NotSized? then Internal
    else
      var l := p.sized.layout;
      if || s.layout != l || s.id == 0 || s.inUse > l.capacity || p.sized.allocation > p.memory || p.sized.metadata == 0
         || p.sized.allocation <= l.bytes || p.sized.metadata >= p.sized.allocation - l.bytes
         || s.id != p.id || s.last != p.lastGeneration || s.inUse != p.leased
         || l.capacity - s.inUse != p.available || p.bytes > p.maxBytes
      then Internal else Ok
  }

  function Destroy(p: ConnectionPool): (code: Code)
  {
    if p.leased != 0 then Busy else if p.storage.inUse != 0 then Busy else Ok
  }

  // ---- The books -----------------------------------------------------------------------------

  function Sum(index: seq<Option<Entry>>): (n: nat)
    decreases |index|
  {
    if index == [] then 0 else Sum(index[..|index| - 1]) + Weight(index[|index| - 1])
  }

  function Weight(e: Option<Entry>): nat
  {
    if e.Some? then e.value.bytes else 0
  }

  lemma {:induction false} SumUpdate(index: seq<Option<Entry>>, i: nat, e: Option<Entry>)
    requires i < |index|
    ensures Sum(index[i := e]) + Weight(index[i]) == Sum(index) + Weight(e)
    decreases |index|
  {
    var n := |index| - 1;
    var updated := index[i := e];
    if i == n {
      assert updated[..n] == index[..n];
    } else {
      SumUpdate(index[..n], i, e);
      assert updated[..n] == index[..n][i := e];
    }
  }

  lemma SumHolds(index: seq<Option<Entry>>, i: nat)
    requires i < |index|
    ensures Weight(index[i]) <= Sum(index)
  {
    SumUpdate(index, i, None);
  }

  /** The abstract value: what the pool holds under a lease. */
  function Held(p: ConnectionPool, l: Lease): (e: Option<Entry>)
  {
    if l.slot < |p.index| && p.index[l.slot].Some? && p.index[l.slot].value.lease == l then p.index[l.slot] else None
  }

  /** An index entry stands for exactly the lease its slot is out under. */
  ghost predicate IndexAgrees(p: ConnectionPool)
  {
    && |p.index| == |p.storage.slots|
    && (forall i :: 0 <= i < |p.index| ==> (p.index[i].Some? <==> p.storage.slots[i].inUse))
    && (forall i :: 0 <= i < |p.index| && p.index[i].Some? ==>
          p.index[i].value.lease == Lease(p.id, i, p.storage.slots[i].generation) && 0 < p.index[i].value.bytes)
  }

  ghost predicate CountsAgree(p: ConnectionPool)
  {
    && p.id == p.storage.id && p.leased == p.storage.inUse && p.available == p.storage.layout.capacity - p.leased
    && p.bytes == Sum(p.index) && p.bytes <= p.maxBytes && p.lastGeneration == p.storage.last
    && p.sized.Sized? && p.sized == SizePool(StorageOptions(p.storage.layout.capacity, p.memory)) && p.storage.layout == p.sized.layout
  }

  ghost predicate AdoptedIn(log: seq<Act>, l: Lease)
  {
    exists i :: 0 <= i < |log| && log[i].Adopted? && log[i].lease == l
  }

  ghost predicate GoneIn(log: seq<Act>, l: Lease)
  {
    Gone(l) in log
  }

  ghost predicate LogAgrees(p: ConnectionPool)
  {
    && (forall i :: 0 <= i < |p.log| ==> p.log[i].lease.generation <= p.lastGeneration)
    && (forall l :: Held(p, l).Some? <==> AdoptedIn(p.log, l) && !GoneIn(p.log, l))
    && (forall l :: Held(p, l).Some? ==> Adopted(l, Held(p, l).value.owner) in p.log)
  }

  ghost predicate Agree(p: ConnectionPool)
  {
    PoolModel.Inv(p.storage) && IndexAgrees(p) && CountsAgree(p)
  }

  ghost predicate Inv(p: ConnectionPool)
  {
    Agree(p) && LogAgrees(p)
  }

  // ---- Nothing is ever internally inconsistent -----------------------------------------------

  lemma EntryIsLive(p: ConnectionPool, l: Lease)
    requires Agree(p)
    ensures Held(p, l).Some? <==> Live(p.storage, l)
  {
    hide LayoutOk, Linked, Distinct, ExactlyFree, SizePool, Sum;
  }

  /** Lookup succeeds exactly for the leases held, returns their connection, and never reports Internal. */
  lemma LookupExact(p: ConnectionPool, l: Lease)
    requires Agree(p)
    ensures Lookup(p, l).code == Ok <==> Held(p, l).Some?
    ensures Held(p, l).Some? ==> FindEntry(p, l) == Found(Held(p, l).value) && Lookup(p, l).owner == Some(Held(p, l).value.owner)
    ensures Held(p, l).None? ==> FindEntry(p, l).Missing? && FindEntry(p, l).code in {NotFound, InvalidArgument, Range}
  {
    hide LayoutOk, Linked, Distinct, ExactlyFree, SizePool, Sum;
    if l.slot < |p.index| && p.index[l.slot].Some? {
      SumHolds(p.index, l.slot);
      InUseCounted(p.storage, l.slot);
    }
  }

  lemma InspectNeverInternal(p: ConnectionPool)
    requires Agree(p)
    ensures Inspect(p) == Ok
  {
    hide SizePool, Sum, IndexAgrees, LayoutOk, Linked, Distinct, ExactlyFree;
    SizedIsOk(StorageOptions(p.storage.layout.capacity, p.memory));
  }

  // ---- Refinement of the map -----------------------------------------------------------------

  /** Taking a slot and entering it keeps the books, and the index never already has that slot. */
  lemma EnterAgrees(p: ConnectionPool, owner: nat, bytes: nat)
    requires Agree(p) && Acquire(p.storage).code == Ok && 0 < bytes && p.bytes + bytes <= p.maxBytes
    ensures var r := Enter(p, Acquire(p.storage), owner, bytes);
            r.code == Ok && r.lease == Acquire(p.storage).lease && Agree(r.after)
  {
    hide LayoutOk, ExactlyFree, Distinct, SizePool, Linked;
    AcquireInv(p.storage);
    HeadFits(p.storage);
    HeadIsFree(p.storage);
    AvailableCount(p);
    SumUpdate(p.index, p.storage.freeHead, Some(Entry(Acquire(p.storage).lease, owner, bytes)));
  }

  lemma AvailableCount(p: ConnectionPool)
    requires Agree(p) && Acquire(p.storage).code == Ok
    ensures 0 < p.available
  {
    hide LayoutOk, ExactlyFree, Distinct, SizePool, Linked, Sum;
    AcquireInv(p.storage);
  }

  lemma HeadIsFree(p: Pool)
    requires PoolModel.Inv(p) && p.freeHead != END
    ensures p.chain != [] && p.freeHead < |p.slots| && !p.slots[p.freeHead].inUse
  {
    hide LayoutOk, Distinct;
    assert p.chain[0] in p.chain;
  }

  /** Adopting binds one new lease and disturbs no other; a refusal changes nothing. */
  lemma AdoptRefines(p: ConnectionPool, owner: nat, inspect: Code, transport: Code, info: Info, l: Lease)
    requires Agree(p)
    ensures var r := Adopt(p, owner, inspect, transport, info);
            && Agree(r.after)
            && (r.code != Ok ==> r.after == p)
            && (r.code == Ok ==>
                  && Held(p, r.lease).None? && r.lease.generation > p.lastGeneration
                  && Held(r.after, l) == (if l == r.lease then Some(Entry(l, owner, info.readCapacity + info.writeCapacity)) else Held(p, l))
                  && r.after.log == p.log + [Adopted(r.lease, owner)] && r.after.lastGeneration == r.lease.generation)
  {
    hide Agree, Appraise, Acquire, Release, Sum;
    var b := Appraise(p.bytes, p.maxBytes, inspect, transport, info);
    if b.Good? && Acquire(p.storage).code == Ok {
      EnterAgrees(p, owner, b.value);
      EnterHolds(p, owner, b.value, l);
    }
  }

  lemma EnterHolds(p: ConnectionPool, owner: nat, bytes: nat, l: Lease)
    requires Agree(p) && Acquire(p.storage).code == Ok && 0 < bytes && p.bytes + bytes <= p.maxBytes
    ensures var r := Enter(p, Acquire(p.storage), owner, bytes);
            && r.lease == Acquire(p.storage).lease && Held(p, r.lease).None? && r.lease.generation > p.lastGeneration
            && Held(r.after, l) == (if l == r.lease then Some(Entry(l, owner, bytes)) else Held(p, l))
            && r.after.log == p.log + [Adopted(r.lease, owner)] && r.after.lastGeneration == r.lease.generation
  {
    hide LayoutOk, ExactlyFree, Distinct, SizePool, Linked, Sum;
    EnterAgrees(p, owner, bytes);
    HeadFits(p.storage);
    HeadIsFree(p.storage);
    AcquireAddsOne(p.storage, l);
  }

  lemma TakeOutAgrees(p: ConnectionPool, l: Lease, destroy: Code)
    requires Agree(p) && Held(p, l).Some? && Held(p, l).value.bytes <= p.bytes && destroy in {Ok, Io}
    ensures var r := TakeOut(p, Held(p, l).value, l, destroy); r.code == destroy && Agree(r.after)
  {
    hide LayoutOk, ExactlyFree, Distinct, SizePool, Linked;
    EntryIsLive(p, l);
    ReleaseRemovesOne(p.storage, l, l);
    ReleaseInv(p.storage, l);
    InUseCounted(p.storage, l.slot);
    SumUpdate(p.index, l.slot, None);
  }

  lemma TakeOutHolds(p: ConnectionPool, l: Lease, destroy: Code, k: Lease)
    requires Agree(p) && Held(p, l).Some? && Held(p, l).value.bytes <= p.bytes && destroy in {Ok, Io}
    ensures var r := TakeOut(p, Held(p, l).value, l, destroy);
            && Held(r.after, k) == (if k == l then None else Held(p, k))
            && r.after.log == p.log + [Gone(l)] && r.after.lastGeneration == p.lastGeneration
  {
    hide Agree, Release, Sum;
    TakeOutAgrees(p, l, destroy);
    assert Agree(p) ==> IndexAgrees(p) by { AgreeIndex(p); }
  }

  lemma AgreeIndex(p: ConnectionPool)
    requires Agree(p)
    ensures IndexAgrees(p)
  {
  }

  /**
    Giving back removes exactly that lease, and does so exactly when it is held and its connection was
    destroyed; an unknown lease or a busy connection changes nothing. The pool is never to blame.
   */
  lemma GiveBackRefines(p: ConnectionPool, l: Lease, destroy: Code, k: Lease)
    requires Agree(p)
    ensures var r := GiveBack(p, l, destroy);
            && Agree(r.after)
            && (if Held(p, l).Some? && destroy in {Ok, Io}
                then r.code == destroy && r.lease == NO_LEASE && Held(r.after, k) == (if k == l then None else Held(p, k))
                     && r.after.log == p.log + [Gone(l)] && r.after.lastGeneration == p.lastGeneration
                else r.after == p && r.lease == l && (Held(p, l).None? ==> r.code in {NotFound, InvalidArgument, Range}) && (Held(p, l).Some? ==> r.code == destroy))
  {
    hide Agree, TakeOut, Held;
    LookupExact(p, l);
    if Held(p, l).Some? && destroy in {Ok, Io} {
      HeldBytes(p, l);
      TakeOutAgrees(p, l, destroy);
      TakeOutHolds(p, l, destroy, k);
      TakeOutClears(p, l, destroy);
    }
  }

  lemma HeldBytes(p: ConnectionPool, l: Lease)
    requires Agree(p) && Held(p, l).Some?
    ensures Held(p, l).value.bytes <= p.bytes && l.slot < |p.index|
  {
    hide PoolModel.Inv, SizePool, Sum;
    SumHolds(p.index, l.slot);
  }

  lemma TakeOutClears(p: ConnectionPool, l: Lease, destroy: Code)
    requires Agree(p) && Held(p, l).Some? && Held(p, l).value.bytes <= p.bytes && destroy in {Ok, Io}
    ensures TakeOut(p, Held(p, l).value, l, destroy).lease == NO_LEASE
  {
    hide Agree, Sum;
    EntryIsLive(p, l);
    AgreeStorage(p);
    ReleaseRemovesOne(p.storage, l, l);
  }

  lemma AgreeStorage(p: ConnectionPool)
    requires Agree(p)
    ensures PoolModel.Inv(p.storage)
  {
  }

  // ---- Runs ----------------------------------------------------------------------------------

  datatype Event = DoAdopt(owner: nat, inspect: Code, transport: Code, info: Info) | DoGiveBack(lease: Lease, destroy: Code)

  function Step(p: ConnectionPool, e: Event): (q: ConnectionPool)
  {
    match e
    case DoAdopt(owner, inspect, transport, info) => Adopt(p, owner, inspect, transport, info).after
    case DoGiveBack(lease, destroy) => GiveBack(p, lease, destroy).after
  }

  lemma AdoptedSnoc(log: seq<Act>, a: Act, l: Lease)
    ensures AdoptedIn(log + [a], l) <==> AdoptedIn(log, l) || (a.Adopted? && a.lease == l)
    ensures GoneIn(log + [a], l) <==> GoneIn(log, l) || a == Gone(l)
  {
    var longer := log + [a];
    if AdoptedIn(log, l) {
      var i :| 0 <= i < |log| && log[i].Adopted? && log[i].lease == l;
      assert longer[i] == log[i];
    }
    if a.Adopted? && a.lease == l { assert longer[|log|] == a; }
  }

  lemma NotLogged(p: ConnectionPool, l: Lease)
    requires LogAgrees(p) && l.generation > p.lastGeneration
    ensures !AdoptedIn(p.log, l) && !GoneIn(p.log, l)
  {
  }

  lemma AdoptInv(p: ConnectionPool, owner: nat, inspect: Code, transport: Code, info: Info)
    requires Inv(p)
    ensures Inv(Adopt(p, owner, inspect, transport, info).after)
  {
    hide Agree, Adopt, Held, AdoptedIn, GoneIn;
    var r := Adopt(p, owner, inspect, transport, info);
    AdoptRefines(p, owner, inspect, transport, info, NO_LEASE);
    if r.code == Ok {
      NotLogged(p, r.lease);
      forall l ensures (Held(r.after, l).Some? <==> AdoptedIn(r.after.log, l) && !GoneIn(r.after.log, l))
                       && (Held(r.after, l).Some? ==> Adopted(l, Held(r.after, l).value.owner) in r.after.log)
      {
        AdoptRefines(p, owner, inspect, transport, info, l);
        AdoptedSnoc(p.log, Adopted(r.lease, owner), l);
      }
    }
  }

  lemma GiveBackInv(p: ConnectionPool, lease: Lease, destroy: Code)
    requires Inv(p)
    ensures Inv(GiveBack(p, lease, destroy).after)
  {
    hide Agree, GiveBack, Held, AdoptedIn, GoneIn;
    var r := GiveBack(p, lease, destroy);
    GiveBackRefines(p, lease, destroy, NO_LEASE);
    if Held(p, lease).Some? && destroy in {Ok, Io} {
      assert Adopted(lease, Held(p, lease).value.owner) in p.log;
      forall l ensures (Held(r.after, l).Some? <==> AdoptedIn(r.after.log, l) && !GoneIn(r.after.log, l))
                       && (Held(r.after, l).Some? ==> Adopted(l, Held(r.after, l).value.owner) in r.after.log)
      {
        GiveBackRefines(p, lease, destroy, l);
        AdoptedSnoc(p.log, Gone(lease), l);
      }
    }
  }

  lemma StepInv(p: ConnectionPool, e: Event)
    requires Inv(p)
    ensures Inv(Step(p, e))
  {
    hide Inv, Adopt, GiveBack;
    match e
    case DoAdopt(owner, inspect, transport, info) => AdoptInv(p, owner, inspect, transport, info);
    case DoGiveBack(lease, destroy) => GiveBackInv(p, lease, destroy);
  }

  function Run(p: ConnectionPool, events: seq<Event>): (q: ConnectionPool)
    decreases |events|
  {
    if events == [] then p else Run(Step(p, events[0]), events[1..])
  }

  lemma {:induction false} RunInv(p: ConnectionPool, events: seq<Event>)
    requires Inv(p)
    ensures Inv(Run(p, events))
    decreases |events|
  {
    hide Inv, Step;
    if events != [] {
      StepInv(p, events[0]);
      RunInv(Step(p, events[0]), events[1..]);
    }
  }

  function FreshConnectionPool(sized: Sized, memory: size, maxBytes: size, id: size): (p: ConnectionPool)
    requires sized.Sized?
  {
    var n := sized.layout.capacity;
    ConnectionPool(Fresh(sized.layout, id, 0), sized, memory, seq(n, i => None), 0, n, 0, maxBytes, id, 0, [])
  }

  lemma {:induction false} EmptySum(index: seq<Option<Entry>>)
    requires forall i :: 0 <= i < |index| ==> index[i] == None
    ensures Sum(index) == 0
    decreases |index|
  {
    if index != [] { EmptySum(index[..|index| - 1]); }
  }

  lemma FreshAgrees(capacity: size, memory: size, maxBytes: size, id: size)
    requires SizePool(StorageOptions(capacity, memory)).Sized? && id != 0
    ensures Inv(FreshConnectionPool(SizePool(StorageOptions(capacity, memory)), memory, maxBytes, id))
  {
    hide Sum, SizePool, LayoutOk, Linked, Distinct, ExactlyFree;
    var sized := SizePool(StorageOptions(capacity, memory));
    SizedIsOk(StorageOptions(capacity, memory));
    var p := FreshConnectionPool(sized, memory, maxBytes, id);
    FreshInv(sized.layout, id, 0);
    EmptySum(p.index);
    assert forall l :: Held(p, l).None?;
  }

  /**
    Over any run: a lookup succeeds exactly for leases adopted and not since released, and returns
    the connection adopted under that lease; the byte total is the sum over the connections held and
    within its maximum; inspection finds nothing wrong.
   */
  lemma LookupIffAdoptedNotReleased(start: ConnectionPool, events: seq<Event>, l: Lease)
    requires Inv(start)
    ensures var p := Run(start, events);
            && (Lookup(p, l).code == Ok <==> AdoptedIn(p.log, l) && !GoneIn(p.log, l))
            && (Lookup(p, l).code == Ok ==> Lookup(p, l).owner.Some? && Adopted(l, Lookup(p, l).owner.value) in p.log)
            && p.bytes == Sum(p.index) && p.bytes <= p.maxBytes
            && Inspect(p) == Ok && (Destroy(p) == Ok <==> p.leased == 0)
  {
    hide Held, Lookup, AdoptedIn, GoneIn, PoolModel.Inv, IndexAgrees, Inspect, SizePool, Sum, Step;
    RunInv(start, events);
    var p := Run(start, events);
    LookupExact(p, l);
    InspectNeverInternal(p);
  }

  // ---- What each operation achieves ----------------------------------------------------------

  /** A connection is adopted exactly when it is whole, idle and open, its bytes still fit, and a slot and a generation are left. */
  lemma AdoptExact(p: ConnectionPool, owner: nat, inspect: Code, transport: Code, info: Info)
    requires Agree(p)
    ensures Adopt(p, owner, inspect, transport, info).code == Ok <==>
              && inspect == Ok && transport == Ok
              && info.readCapacity != 0 && info.writeCapacity != 0 && info.readCapacity + info.writeCapacity == info.capacityBytes
              && !info.attached && !info.callback && info.open
              && p.bytes + info.capacityBytes <= p.maxBytes
              && p.leased < p.storage.layout.capacity && p.lastGeneration < U64_MAX
    ensures var r := Adopt(p, owner, inspect, transport, info);
            r.code == Ok ==>
              && r.lease == Lease(p.id, r.lease.slot, p.lastGeneration + 1) && r.after.leased == p.leased + 1 && r.after.available == p.available - 1
              && r.after.bytes == p.bytes + info.capacityBytes && Held(r.after, r.lease) == Some(Entry(r.lease, owner, info.capacityBytes))
  {
    hide Agree, Acquire, Sum, PoolModel.Inv;
    AppraiseExact(p.bytes, p.maxBytes, inspect, transport, info);
    AgreeStorage(p);
    AgreeCounts(p);
    AcquireInv(p.storage);
    var b := Appraise(p.bytes, p.maxBytes, inspect, transport, info);
    if b.Good? && Acquire(p.storage).code == Ok {
      EnterAgrees(p, owner, b.value);
      AcquireAdvances(p.storage);
      EnterHolds(p, owner, b.value, Acquire(p.storage).lease);
      AvailableCount(p);
    }
  }

  lemma AgreeCounts(p: ConnectionPool)
    requires Agree(p)
    ensures p.id == p.storage.id && p.leased == p.storage.inUse && p.lastGeneration == p.storage.last && p.bytes <= p.maxBytes
  {
    hide PoolModel.Inv, IndexAgrees, SizePool, Sum;
  }

  lemma AppraiseExact(held: size, limit: size, inspect: Code, transport: Code, info: Info)
    ensures Appraise(held, limit, inspect, transport, info).Good? <==>
              && inspect == Ok && transport == Ok
              && info.readCapacity != 0 && info.writeCapacity != 0 && info.readCapacity + info.writeCapacity == info.capacityBytes
              && !info.attached && !info.callback && info.open && held + info.capacityBytes <= limit
    ensures inspect == Ok && transport == Ok && info.readCapacity != 0 && info.writeCapacity != 0 && info.readCapacity + info.writeCapacity == info.capacityBytes
            && !info.attached && !info.callback && info.open && held + info.capacityBytes > limit && held + info.capacityBytes <= SIZE_MAX
            ==> Appraise(held, limit, inspect, transport, info) == Bad(if info.capacityBytes > limit then Range else Busy)
  {
  }

  /** Giving a connection back restores the counts and the bytes it brought. */
  lemma GiveBackCounts(p: ConnectionPool, l: Lease, destroy: Code)
    requires Agree(p) && Held(p, l).Some? && destroy in {Ok, Io}
    ensures var r := GiveBack(p, l, destroy);
            && r.after.bytes + Held(p, l).value.bytes == p.bytes && r.after.leased + 1 == p.leased && r.after.available == p.available + 1
            && Live(p.storage, l) && !Live(r.after.storage, l)
  {
    hide Agree, PoolModel.Inv, Release, Sum;
    LookupExact(p, l);
    HeldBytes(p, l);
    EntryIsLive(p, l);
    AgreeStorage(p);
    AgreeCounts(p);
    ReleaseRemovesOne(p.storage, l, l);
    InUseCounted(p.storage, l.slot);
  }
}
