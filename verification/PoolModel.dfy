/**
  A fixed-capacity object pool as a value: slots threaded on an index-linked free list, leases
  stamped with a generation that never comes back, and the storage layout the objects live in.
 */
module PoolModel {
  import opened Base

  const END: nat := SIZE_MAX
  const SLOT_BYTES: nat := 24
  const CONTROL_BYTES: nat := 136
  const MAX_ALIGNMENT: nat := 16
  const POOL_MAX_MEMORY: nat := 67_108_864

  // ---- Layout --------------------------------------------------------------------------------

  datatype Layout = Layout(element: size, alignment: size, capacity: size, stride: size, bytes: size)
  datatype Laid = Laid(layout: Layout) | NotLaid(code: Code)

  /** The bitwise conjunction of two machine words. */
  function BitAnd(a: nat, b: nat): (r: nat)
    decreases a
  {
    if a == 0 || b == 0 then 0 else 2 * BitAnd(a / 2, b / 2) + (a % 2) * (b % 2)
  }

  predicate PowerOfTwo(n: nat)
    decreases n
  {
    n == 1 || (n != 0 && n % 2 == 0 && PowerOfTwo(n / 2))
  }

  lemma {:induction false} BitAndSelf(a: nat)
    ensures BitAnd(a, a) == a
    decreases a
  {
    if a != 0 { BitAndSelf(a / 2); }
  }

  /** The usual bit trick recognises exactly the powers of two. */
  lemma {:induction false} BitTrick(a: nat)
    requires a != 0
    ensures BitAnd(a, a - 1) == 0 <==> PowerOfTwo(a)
    decreases a
  {
    if a % 2 == 1 {
      BitAndSelf(a / 2);
      assert (a - 1) / 2 == a / 2;
    } else {
      BitTrick(a / 2);
      assert (a - 1) / 2 == a / 2 - 1;
    }
  }

  function LayoutFor(element: size, alignment: size, capacity: size, budget: size): (r: Laid)
  {
    if element == 0 || alignment == 0 || capacity == 0 || budget == 0 || BitAnd(alignment, alignment - 1) != 0 then NotLaid(InvalidArgument)
    else match CheckedAlignUp(element, alignment)
      case Bad(code) => NotLaid(code)
      case Good(stride) =>
        match CheckedMul(stride, capacity)
        case Bad(code) => NotLaid(code)
        case Good(bytes) => if bytes > budget then NotLaid(Range) else Laid(Layout(element, alignment, capacity, stride, bytes))
  }

  /** `n` is the least multiple of `alignment` that is at least `element`. */
  ghost predicate AlignedUp(element: nat, alignment: nat, n: nat)
  {
    alignment != 0 && element <= n && n % alignment == 0 && n - element < alignment
  }

  /**
    The layout is exact. Arguments are refused exactly when one is zero or the alignment is not a
    power of two; Overflow is reported exactly when the true stride or the true total does not fit a
    machine word, and Range exactly when they fit but exceed the budget.
   */
  lemma LayoutExact(element: size, alignment: size, capacity: size, budget: size, stride: nat)
    requires element != 0 && capacity != 0 && budget != 0 && PowerOfTwo(alignment) && AlignedUp(element, alignment, stride)
    ensures LayoutFor(element, alignment, capacity, budget) ==
            if stride > SIZE_MAX || stride * capacity > SIZE_MAX then NotLaid(Overflow)
            else if stride * capacity > budget then NotLaid(Range)
            else Laid(Layout(element, alignment, capacity, stride, stride * capacity))
  {
    BitTrick(alignment);
    var a := CheckedAlignUp(element, alignment);
    if a.Good? {
      AlignedUnique(element, alignment, stride, a.value);
    }
  }

  lemma AlignedUnique(element: nat, alignment: nat, m: nat, n: nat)
    requires AlignedUp(element, alignment, m) && AlignedUp(element, alignment, n)
    ensures m == n
  {
    SameMultiple(alignment, m / alignment, n / alignment, element);
  }

  lemma SameMultiple(alignment: nat, p: nat, q: nat, element: nat)
    requires element <= alignment * p < element + alignment && element <= alignment * q < element + alignment
    ensures p == q
  {
    Spacing(alignment, p, q);
    Spacing(alignment, q, p);
  }

  lemma LayoutRefusals(element: size, alignment: size, capacity: size, budget: size)
    ensures LayoutFor(element, alignment, capacity, budget) == NotLaid(InvalidArgument) <==>
              element == 0 || capacity == 0 || budget == 0 || !PowerOfTwo(alignment)
  {
    if alignment != 0 { BitTrick(alignment); }
  }

  ghost predicate LayoutOk(l: Layout)
  {
    0 < l.element && 0 < l.capacity && l.capacity < END && PowerOfTwo(l.alignment) && AlignedUp(l.element, l.alignment, l.stride) && l.bytes == l.stride * l.capacity
  }

  lemma LaidIsOk(element: size, alignment: size, capacity: size, budget: size)
    ensures var r := LayoutFor(element, alignment, capacity, budget);
            r.Laid? && capacity < END ==> LayoutOk(r.layout) && r.layout.bytes <= budget && r.layout.element == element && r.layout.capacity == capacity
  {
    if alignment != 0 { BitTrick(alignment); }
  }

  // ---- Operations ----------------------------------------------------------------------------

  datatype Slot = Slot(next: nat, generation: size, inUse: bool)

  /** `chain` lists the free slots in the order the links visit them; it is bookkeeping, not storage. */
  datatype Pool = Pool(layout: Layout, slots: seq<Slot>, freeHead: nat, inUse: nat, id: size, last: size, chain: seq<nat>)

  datatype Acquired = Acquired(code: Code, lease: Lease, offset: nat, pool: Pool)
  datatype Released = Released(code: Code, lease: Lease, pool: Pool)

  function FreshSlots(capacity: nat): (s: seq<Slot>)
    ensures |s| == capacity
    ensures forall i :: 0 <= i < capacity ==> s[i] == Slot(if i + 1 == capacity then END else i + 1, 0, false)
  {
    seq(capacity, i requires 0 <= i < capacity => Slot(if i + 1 == capacity then END else i + 1, 0, false))
  }

  function InOrder(n: nat): (s: seq<nat>)
    ensures |s| == n && forall i :: 0 <= i < n ==> s[i] == i
  {
    seq(n, i => i)
  }

  function Fresh(layout: Layout, id: size, last: size): (p: Pool)
  {
    Pool(layout, FreshSlots(layout.capacity), 0, 0, id, last, InOrder(layout.capacity))
  }

  datatype Options = Options(element: size, alignment: size, capacity: size, memory: size)
  datatype Sized = Sized(layout: Layout, metadata: size, allocation: size) | NotSized(code: Code)

  /** Every product and sum is proved representable before any budget is looked at. */
  function SizePool(o: Options): (r: Sized)
  {
    if o.memory == 0 then NotSized(InvalidArgument)
    else match LayoutFor(o.element, o.alignment, o.capacity, SIZE_MAX)
      case NotLaid(code) => NotSized(code)
      case Laid(l) =>
        match CheckedMul(SLOT_BYTES, l.capacity)
        case Bad(code) => NotSized(code)
        case Good(metadata) =>
          match CheckedAdd(CONTROL_BYTES, l.bytes)
          case Bad(code) => NotSized(code)
          case Good(base) =>
            match CheckedAdd(base, metadata)
            case Bad(code) => NotSized(code)
            case Good(total) =>
              if l.alignment > MAX_ALIGNMENT || o.memory > POOL_MAX_MEMORY || total > o.memory then NotSized(Range)
              else Sized(l, metadata, total)
  }

  lemma SizedIsOk(o: Options)
    ensures var r := SizePool(o); r.NotSized? ==> r.code != Ok
    ensures var r := SizePool(o);
            r.Sized? ==> LayoutOk(r.layout) && r.layout.element == o.element && r.layout.capacity == o.capacity
                         && r.metadata == SLOT_BYTES * o.capacity && r.allocation == CONTROL_BYTES + r.layout.bytes + r.metadata && r.allocation <= o.memory
  {
    LaidIsOk(o.element, o.alignment, o.capacity, SIZE_MAX);
  }

  function Acquire(p: Pool): (r: Acquired)
  {
    if p.last >= U64_MAX then Acquired(Overflow, NO_LEASE, 0, p)
    else if p.freeHead == END then Acquired(Busy, NO_LEASE, 0, p)
    else if p.freeHead >= |p.slots| || p.freeHead * p.layout.stride > SIZE_MAX then Acquired(Overflow, NO_LEASE, 0, p)
    else
      var index, generation := p.freeHead, p.last + 1;
      Acquired(Ok, Lease(p.id, index, generation), index * p.layout.stride,
               p.(slots := p.slots[index := p.slots[index].(generation := generation, inUse := true)],
                  freeHead := p.slots[index].next, inUse := p.inUse + 1, last := generation,
                  chain := if p.chain == [] then [] else p.chain[1..]))
  }

  /** A lease is taken back only while its slot is in use under its own generation. */
  function Release(p: Pool, lease: Lease): (r: Released)
  {
    if lease == NO_LEASE then Released(NotFound, lease, p)
    else if !LeaseShaped(lease) || lease.pool != p.id then Released(InvalidArgument, lease, p)
    else if lease.slot >= |p.slots| then Released(Range, lease, p)
    else
      var s := p.slots[lease.slot];
      if !s.inUse || s.generation != lease.generation then Released(NotFound, lease, p)
      else
        Released(Ok, NO_LEASE, p.(slots := p.slots[lease.slot := Slot(p.freeHead, s.generation, false)],
                                  freeHead := lease.slot, inUse := if p.inUse == 0 then 0 else p.inUse - 1, chain := [lease.slot] + p.chain))
  }

  // ---- The free list -------------------------------------------------------------------------

  function HeadOf(chain: seq<nat>): nat
  {
    if chain == [] then END else chain[0]
  }

  /** The links run through `chain` and stop. */
  predicate Linked(slots: seq<Slot>, head: nat, chain: seq<nat>)
  {
    && head == HeadOf(chain)
    && (forall i :: 0 <= i < |chain| ==> chain[i] < |slots|)
    && (forall i :: 0 <= i < |chain| ==> slots[chain[i]].next == After(chain, i))
  }

  function After(chain: seq<nat>, i: nat): nat
  {
    if i + 1 >= |chain| then END else chain[i + 1]
  }

  predicate Distinct(chain: seq<nat>)
  {
    forall i, j :: 0 <= i < j < |chain| ==> chain[i] != chain[j]
  }

  ghost predicate ExactlyFree(slots: seq<Slot>, chain: seq<nat>)
  {
    forall i: nat :: i < |slots| ==> (i in chain <==> !slots[i].inUse)
  }

  ghost predicate Stamped(p: Pool)
  {
    && p.id != 0
    && (forall i :: 0 <= i < |p.slots| ==> p.slots[i].generation <= p.last && (p.slots[i].inUse ==> 0 < p.slots[i].generation))
  }

  ghost predicate Inv(p: Pool)
  {
    && LayoutOk(p.layout) && |p.slots| == p.layout.capacity
    && Linked(p.slots, p.freeHead, p.chain) && Distinct(p.chain) && ExactlyFree(p.slots, p.chain)
    && |p.chain| + p.inUse == |p.slots|
    && Stamped(p)
  }

  /** What one finds by following the links from `at`, for at most `steps` slots. */
  function Walk(slots: seq<Slot>, at: nat, steps: nat): (visited: seq<nat>)
    decreases steps
  {
    if steps == 0 || at >= |slots| then [] else [at] + Walk(slots, slots[at].next, steps - 1)
  }

  lemma {:induction false} WalkIsChain(slots: seq<Slot>, chain: seq<nat>, steps: nat)
    requires |slots| < END && Linked(slots, HeadOf(chain), chain) && |chain| <= steps
    ensures Walk(slots, HeadOf(chain), steps) == chain
    decreases |chain|
  {
    hide Linked;
    if chain != [] {
      TailStillLinked(slots, chain);
      WalkIsChain(slots, chain[1..], steps - 1);
      assert chain == [chain[0]] + chain[1..];
    }
  }

  lemma TailStillLinked(slots: seq<Slot>, chain: seq<nat>)
    requires chain != [] && Linked(slots, HeadOf(chain), chain)
    ensures chain[0] < |slots| && slots[chain[0]].next == HeadOf(chain[1..]) && Linked(slots, HeadOf(chain[1..]), chain[1..])
  {
    var tail := chain[1..];
    assert slots[chain[0]].next == After(chain, 0);
    forall i | 0 <= i < |tail| ensures tail[i] < |slots| && slots[tail[i]].next == After(tail, i) {
      assert slots[chain[i + 1]].next == After(chain, i + 1);
    }
  }

  /**
    Following the links from the head visits every slot not in use exactly once and then ends,
    however far one is willing to walk; the number visited and the number in use make the capacity.
   */
  lemma FreeListExact(p: Pool, steps: nat)
    requires Inv(p) && steps >= |p.slots|
    ensures var visited := Walk(p.slots, p.freeHead, steps);
            && Distinct(visited) && |visited| + p.inUse == p.layout.capacity
            && (forall i: nat :: i in visited <==> i < |p.slots| && !p.slots[i].inUse)
  {
    WalkIsChain(p.slots, p.chain, steps);
    assert forall i: nat :: i in p.chain ==> i < |p.slots|;
  }

  lemma FreshInv(layout: Layout, id: size, last: size)
    requires LayoutOk(layout) && id != 0
    ensures Inv(Fresh(layout, id, last))
  {
    var p := Fresh(layout, id, last);
    forall i: nat | i < |p.slots| ensures i in p.chain {
      assert p.chain[i] == i;
    }
  }

  lemma OffsetFits(l: Layout, index: nat)
    requires LayoutOk(l) && index < l.capacity
    ensures index * l.stride + l.element <= l.bytes
  {
    Spacing(l.stride, index, l.capacity);
    assert index * l.stride == l.stride * index;
  }

  lemma TailLinked(slots: seq<Slot>, chain: seq<nat>, s: Slot)
    requires chain != [] && Linked(slots, HeadOf(chain), chain) && Distinct(chain)
    ensures chain[0] < |slots|
    ensures Linked(slots[chain[0] := s], slots[chain[0]].next, chain[1..]) && Distinct(chain[1..])
  {
    var tail := chain[1..];
    assert slots[chain[0]].next == After(chain, 0) == HeadOf(tail);
    forall i | 0 <= i < |tail| ensures tail[i] < |slots| && tail[i] != chain[0] && slots[tail[i]].next == After(tail, i) {
      assert tail[i] == chain[i + 1];
      assert slots[chain[i + 1]].next == After(chain, i + 1);
    }
    forall i, j | 0 <= i < j < |tail| ensures tail[i] != tail[j] {
      assert tail[i] == chain[i + 1] && tail[j] == chain[j + 1];
    }
  }

  lemma TailFree(slots: seq<Slot>, chain: seq<nat>, s: Slot)
    requires chain != [] && chain[0] < |slots| && ExactlyFree(slots, chain) && Distinct(chain) && s.inUse
    ensures ExactlyFree(slots[chain[0] := s], chain[1..])
  {
    var tail := chain[1..];
    assert chain == [chain[0]] + tail;
    assert chain[0] !in tail by {
      forall i | 0 <= i < |tail| ensures tail[i] != chain[0] { assert tail[i] == chain[i + 1]; }
    }
  }

  lemma AcquireInv(p: Pool)
    requires Inv(p)
    ensures Inv(Acquire(p).pool)
    ensures Acquire(p).code == (if p.last == U64_MAX then Overflow else if p.inUse == p.layout.capacity then Busy else Ok)
  {
    hide LayoutOk, ExactlyFree, Distinct, Linked;
    HeadFits(p);
    if p.chain != [] && p.last < U64_MAX {
      var t := p.slots[p.freeHead].(generation := p.last + 1, inUse := true);
      TailLinked(p.slots, p.chain, t);
      TailFree(p.slots, p.chain, t);
    }
  }

  lemma HeadFits(p: Pool)
    requires Inv(p)
    ensures |p.slots| < END && p.freeHead == HeadOf(p.chain)
    ensures p.chain != [] ==> p.freeHead < |p.slots| && p.freeHead * p.layout.stride <= SIZE_MAX
  {
    hide LayoutOk, ExactlyFree, Distinct, Stamped;
    CapacityBound(p.layout);
    if p.chain != [] { OffsetFits(p.layout, p.chain[0]); }
  }

  lemma CapacityBound(l: Layout)
    requires LayoutOk(l)
    ensures l.capacity < END
  {
  }

  lemma ConsLinked(slots: seq<Slot>, chain: seq<nat>, index: nat, generation: size)
    requires index < |slots| && index !in chain && Linked(slots, HeadOf(chain), chain) && Distinct(chain)
    ensures var s := slots[index := Slot(HeadOf(chain), generation, false)];
            Linked(s, index, [index] + chain) && Distinct([index] + chain)
  {
    var longer := [index] + chain;
    var s := slots[index := Slot(HeadOf(chain), generation, false)];
    forall i | 0 <= i < |longer| ensures longer[i] < |s| && s[longer[i]].next == After(longer, i) {
      if i > 0 { assert slots[chain[i - 1]].next == After(chain, i - 1); }
    }
  }

  lemma ReleaseInv(p: Pool, lease: Lease)
    requires Inv(p)
    ensures Inv(Release(p, lease).pool)
  {
    hide LayoutOk, Distinct;
    var r := Release(p, lease);
    if r.code == Ok {
      var s := p.slots[lease.slot];
      assert lease.slot !in p.chain;
      ConsLinked(p.slots, p.chain, lease.slot, s.generation);
      InUseCounted(p, lease.slot);
    }
  }

  /** A slot in use is counted: the free ones cannot be all of them. */
  lemma InUseCounted(p: Pool, index: nat)
    requires Inv(p) && index < |p.slots| && p.slots[index].inUse
    ensures 0 < p.inUse
  {
    hide LayoutOk, Linked, Stamped;
    assert forall i :: 0 <= i < |p.chain| ==> p.chain[i] < |p.slots| && p.chain[i] != index by { ChainBounds(p, index); }
    DistinctBound(p.chain, index, |p.slots|);
  }

  lemma ChainBounds(p: Pool, index: nat)
    requires Inv(p) && index < |p.slots| && p.slots[index].inUse
    ensures forall i :: 0 <= i < |p.chain| ==> p.chain[i] < |p.slots| && p.chain[i] != index
  {
    hide LayoutOk, Stamped, Distinct;
  }

  /** Distinct numbers below `n`, none of them `skip`, are fewer than `n`. */
  lemma {:induction false} DistinctBound(s: seq<nat>, skip: nat, n: nat)
    requires Distinct(s) && skip < n && (forall i :: 0 <= i < |s| ==> s[i] < n && s[i] != skip)
    ensures |s| < n
  {
    var held := set i | 0 <= i < |s| :: s[i];
    DistinctCardinality(s);
    assert held <= Below(n) - {skip};
    SubsetCardinality(held, Below(n) - {skip});
  }

  function Below(n: nat): (s: set<nat>)
    ensures |s| == n && forall i: nat :: i in s <==> i < n
  {
    if n == 0 then {} else Below(n - 1) + {n - 1}
  }

  lemma {:induction false} DistinctCardinality(s: seq<nat>)
    requires Distinct(s)
    ensures |set i | 0 <= i < |s| :: s[i]| == |s|
  {
    if s != [] {
      var rest := s[..|s| - 1];
      DistinctCardinality(rest);
      var held := set i | 0 <= i < |rest| :: rest[i];
      assert s[|s| - 1] !in held;
      assert (set i | 0 <= i < |s| :: s[i]) == held + {s[|s| - 1]};
    }
  }

  lemma {:induction false} SubsetCardinality(a: set<nat>, b: set<nat>)
    requires a <= b
    ensures |a| <= |b|
    decreases |a|
  {
    if a != {} {
      var x :| x in a;
      SubsetCardinality(a - {x}, b - {x});
    }
  }

  // ---- Leases --------------------------------------------------------------------------------

  /** The leases a release would accept: the abstract value of a pool. */
  predicate Live(p: Pool, l: Lease)
  {
    l.pool == p.id && l.pool != 0 && l.generation != 0 && l.slot < |p.slots| && p.slots[l.slot].inUse && p.slots[l.slot].generation == l.generation
  }

  /** Acquiring adds one lease never seen before and touches no other. */
  lemma AcquireAddsOne(p: Pool, l: Lease)
    requires Inv(p) && Acquire(p).code == Ok
    ensures Live(Acquire(p).pool, l) <==> (Live(p, l) || l == Acquire(p).lease)
    ensures !Live(p, Acquire(p).lease) && Acquire(p).lease.generation == p.last + 1
    ensures Acquire(p).offset == Offset(p, Acquire(p).lease)
  {
    hide LayoutOk;
    assert p.chain != [] && p.chain[0] == p.freeHead && p.freeHead in p.chain;
    assert !p.slots[p.freeHead].inUse;
  }

  /** Releasing succeeds exactly for a live lease and removes that lease only; otherwise nothing changes. */
  lemma ReleaseRemovesOne(p: Pool, lease: Lease, l: Lease)
    requires Inv(p)
    ensures Release(p, lease).code == Ok <==> Live(p, lease)
    ensures Release(p, lease).code == Ok ==> (Live(Release(p, lease).pool, l) <==> Live(p, l) && l != lease)
    ensures Release(p, lease).code != Ok ==> Release(p, lease).pool == p && Release(p, lease).lease == lease
  {
    hide LayoutOk, Linked, Distinct, ExactlyFree;
  }

  /** Where the object of a lease lies. */
  function Offset(p: Pool, l: Lease): nat
  {
    l.slot * p.layout.stride
  }

  /** The objects of two different live leases are in bounds, aligned, and share no byte. */
  lemma ObjectsDisjoint(p: Pool, a: Lease, b: Lease)
    requires Inv(p) && Live(p, a) && Live(p, b) && a != b
    ensures Offset(p, a) + p.layout.element <= p.layout.bytes && Offset(p, a) % p.layout.alignment == 0
    ensures Offset(p, a) + p.layout.element <= Offset(p, b) || Offset(p, b) + p.layout.element <= Offset(p, a)
  {
    var l := p.layout;
    OffsetFits(l, a.slot);
    Spacing(l.stride, a.slot, b.slot);
    Spacing(l.stride, b.slot, a.slot);
    assert l.stride * a.slot == Offset(p, a) && l.stride * b.slot == Offset(p, b);
    AlignedOffset(l, a.slot);
  }

  lemma AlignedOffset(l: Layout, index: nat)
    requires LayoutOk(l)
    ensures (index * l.stride) % l.alignment == 0
  {
    var q := l.stride / l.alignment;
    assert l.stride == l.alignment * q;
    assert index * l.stride == l.alignment * (q * index) by { Regroup(index, l.alignment, q); }
    MultipleHasNoRemainder(q * index, l.alignment);
  }

  lemma Regroup(a: nat, b: nat, c: nat)
    ensures a * (b * c) == b * (c * a)
  {
  }

  // ---- Runs ----------------------------------------------------------------------------------

  datatype Event = DoAcquire | DoRelease(lease: Lease)

  function Step(p: Pool, e: Event): (q: Pool)
  {
    match e
    case DoAcquire => Acquire(p).pool
    case DoRelease(lease) => Release(p, lease).pool
  }

  lemma StepInv(p: Pool, e: Event)
    requires Inv(p)
    ensures Inv(Step(p, e))
  {
    hide Inv, Acquire, Release;
    match e
    case DoAcquire => AcquireInv(p);
    case DoRelease(lease) => ReleaseInv(p, lease);
  }

  function Run(p: Pool, events: seq<Event>): (q: Pool)
    decreases |events|
  {
    if events == [] then p else Run(Step(p, events[0]), events[1..])
  }

  lemma {:induction false} RunInv(p: Pool, events: seq<Event>)
    requires Inv(p)
    ensures Inv(Run(p, events))
    decreases |events|
  {
    hide Inv, Step;
    if events != [] {
      StepInv(p, events[0]);
      RunInv(Step(p, events[0]), events[1..]);
    }
  }

  /** How often a run accepts `lease` back. */
  function Accepted(p: Pool, events: seq<Event>, lease: Lease): (n: nat)
    decreases |events|
  {
    if events == [] then 0
    else (if events[0] == DoRelease(lease) && Release(p, lease).code == Ok then 1 else 0) + Accepted(Step(p, events[0]), events[1..], lease)
  }

  /** The leases a run hands out, in order. */
  function Issued(p: Pool, events: seq<Event>): (s: seq<Lease>)
    decreases |events|
  {
    if events == [] then []
    else (if events[0] == DoAcquire && Acquire(p).code == Ok then [Acquire(p).lease] else []) + Issued(Step(p, events[0]), events[1..])
  }

  /** A lease issued in the past and not live. */
  predicate Spent(p: Pool, l: Lease)
  {
    l.generation <= p.last && !Live(p, l)
  }

  lemma SpentStays(p: Pool, e: Event, l: Lease)
    requires Inv(p) && Spent(p, l)
    ensures Spent(Step(p, e), l)
  {
    hide Inv, Live;
    match e
    case DoAcquire => if Acquire(p).code == Ok { AcquireAddsOne(p, l); }
    case DoRelease(lease) => ReleaseRemovesOne(p, lease, l);
  }

  lemma {:induction false} SpentNeverAccepted(p: Pool, events: seq<Event>, l: Lease)
    requires Inv(p) && Spent(p, l)
    ensures Accepted(p, events, l) == 0
    decreases |events|
  {
    hide Inv, Live, Release, Acquire;
    if events != [] {
      StepInv(p, events[0]);
      SpentStays(p, events[0], l);
      ReleaseRemovesOne(p, l, l);
      SpentNeverAccepted(Step(p, events[0]), events[1..], l);
    }
  }

  /** In any run, any lease value, genuine or forged, is accepted at most once, slot reuse included. */
  lemma {:induction false} AcceptedAtMostOnce(p: Pool, events: seq<Event>, l: Lease)
    requires Inv(p)
    ensures Accepted(p, events, l) <= 1
    decreases |events|
  {
    hide Inv, Release, Acquire;
    if events != [] {
      StepInv(p, events[0]);
      if events[0] == DoRelease(l) && Release(p, l).code == Ok {
        ReleaseRemovesOne(p, l, l);
        LiveIsPast(p, l);
        ReleaseKeepsCounter(p, l);
        SpentNeverAccepted(Step(p, events[0]), events[1..], l);
      } else {
        AcceptedAtMostOnce(Step(p, events[0]), events[1..], l);
      }
    }
  }

  lemma LiveIsPast(p: Pool, l: Lease)
    requires Inv(p) && Live(p, l)
    ensures l.generation <= p.last
  {
    hide LayoutOk, Linked, Distinct, ExactlyFree;
  }

  lemma ReleaseKeepsCounter(p: Pool, l: Lease)
    ensures Release(p, l).pool.last == p.last && Release(p, l).pool.id == p.id
  {
  }

  /** Leases of pool `id`, each of a later generation than the one before, all later than `last`. */
  predicate Increasing(s: seq<Lease>, id: nat, last: nat)
  {
    && (forall i :: 0 <= i < |s| ==> s[i].generation > last && s[i].pool == id)
    && (forall i, j :: 0 <= i < j < |s| ==> s[i].generation < s[j].generation)
  }

  lemma NoneIssued(id: nat, last: nat)
    ensures Increasing([], id, last)
  {
  }

  lemma IncreasingSince(s: seq<Lease>, id: nat, last: nat, earlier: nat)
    requires Increasing(s, id, last) && earlier <= last
    ensures Increasing(s, id, earlier)
  {
  }

  lemma IncreasingCons(l: Lease, rest: seq<Lease>, id: nat, last: nat)
    requires l.pool == id && l.generation == last + 1 && Increasing(rest, id, last + 1)
    ensures Increasing([l] + rest, id, last)
  {
  }

  /** Generations strictly increase, so no lease is ever handed out twice. */
  lemma {:induction false} IssuedIncrease(p: Pool, events: seq<Event>)
    requires Inv(p)
    ensures Increasing(Issued(p, events), p.id, p.last)
    decreases |events|
  {
    hide Inv, Release, Acquire, Increasing;
    if events == [] {
      NoneIssued(p.id, p.last);
    } else {
      StepInv(p, events[0]);
      var q := Step(p, events[0]);
      if events[0].DoRelease? { ReleaseKeepsCounter(p, events[0].lease); } else { AcquireAdvances(p); }
      IssuedIncrease(q, events[1..]);
      var rest := Issued(q, events[1..]);
      assert [] + rest == rest;
      IncreasingSince(rest, p.id, q.last, p.last);
      if events[0] == DoAcquire && Acquire(p).code == Ok { IncreasingCons(Acquire(p).lease, rest, p.id, p.last); }
    }
  }

  lemma AcquireAdvances(p: Pool)
    ensures var r := Acquire(p);
            && r.pool.id == p.id && r.pool.last >= p.last
            && (r.code == Ok ==> r.lease.pool == p.id && r.lease.generation == r.pool.last == p.last + 1)
  {
  }

  /**
    The size of a whole pool is exact: refused for a zero or an alignment that is no power of two, Overflow
    exactly when storage, records or their total do not fit, Range exactly when they fit but exceed a limit.
   */
  lemma SizeExact(o: Options, stride: nat)
    requires o.memory != 0 && o.element != 0 && o.capacity != 0 && PowerOfTwo(o.alignment) && AlignedUp(o.element, o.alignment, stride)
    ensures var storage, records := stride * o.capacity, 24 * o.capacity;
            SizePool(o) ==
              if stride > SIZE_MAX || storage > SIZE_MAX || records > SIZE_MAX || 136 + storage + records > SIZE_MAX then NotSized(Overflow)
              else if o.alignment > 16 || o.memory > 67_108_864 || 136 + storage + records > o.memory then NotSized(Range)
              else Sized(Layout(o.element, o.alignment, o.capacity, stride, storage), records, 136 + storage + records)
  {
    hide LayoutFor, AlignedUp;
    LayoutExact(o.element, o.alignment, o.capacity, SIZE_MAX, stride);
  }

  /** Why a lease is not taken back. */
  lemma ReleaseCodes(p: Pool, l: Lease)
    requires Inv(p) && !Live(p, l)
    ensures Release(p, l).code ==
              if l == Lease(0, 0, 0) then NotFound
              else if l.pool == 0 || l.generation == 0 || l.pool != p.id then InvalidArgument
              else if l.slot >= p.layout.capacity then Range else NotFound
  {
    hide LayoutOk, Linked, Distinct, ExactlyFree;
  }
}
