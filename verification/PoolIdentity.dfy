/**
  How concurrent creators obtain pool ids: each loads a shared counter and retries a weak
  compare-and-exchange until it moves the counter on by one. Every access is relaxed, so a load or a
  failed exchange may return any value the counter has held so far, and an exchange may fail for no reason.
 */
module PoolIdentity {
  import opened Base

  datatype Creator = Starting | Holding(observed: size) | Claimed(id: size) | Exhausted

  datatype Sys = Sys(source: size, creators: seq<Creator>)

  /** One atomic access by creator `at`. `value` is what a load or a failed exchange returns. */
  datatype Event = Load(at: nat, value: size) | Exchange(at: nat, spurious: bool, value: size)

  /** The values a relaxed read may return. */
  predicate Readable(s: Sys, value: size)
  {
    value <= s.source
  }

  predicate Possible(s: Sys, e: Event)
  {
    && e.at < |s.creators|
    && match e
       case Load(k, v) => s.creators[k].Starting? && Readable(s, v)
       case Exchange(k, spurious, v) => s.creators[k].Holding? && Readable(s, v)
  }

  /** After a read the creator either has nothing left to claim or goes on with the value read. */
  function Observed(value: size): Creator
  {
    if value == U64_MAX then Exhausted else Holding(value)
  }

  function Step(s: Sys, e: Event): (t: Sys)
    requires Possible(s, e)
  {
    match e
    case Load(k, v) => s.(creators := s.creators[k := Observed(v)])
    case Exchange(k, spurious, v) =>
      var observed := s.creators[k].observed;
      if !spurious && observed == s.source && observed < U64_MAX
      then Sys(observed + 1, s.creators[k := Claimed(observed + 1)])
      else s.(creators := s.creators[k := Observed(v)])
  }

  predicate Initial(s: Sys)
  {
    s.source == 0 && forall i :: 0 <= i < |s.creators| ==> s.creators[i].Starting?
  }

  ghost predicate Owner(s: Sys, id: nat, k: nat)
  {
    k < |s.creators| && s.creators[k].Claimed? && s.creators[k].id == id
  }

  ghost predicate Owned(s: Sys, id: nat)
  {
    exists k: nat :: Owner(s, id, k)
  }

  /** The ids up to the counter have one owner each, and nobody owns anything else. */
  ghost predicate Inv(s: Sys)
  {
    && (forall k: nat :: k < |s.creators| && s.creators[k].Claimed? ==> 0 < s.creators[k].id <= s.source)
    && (forall j: nat, k: nat :: j < k < |s.creators| && s.creators[j].Claimed? && s.creators[k].Claimed? ==> s.creators[j].id != s.creators[k].id)
    && (forall id: nat :: 0 < id <= s.source ==> Owned(s, id))
    && (forall k: nat :: k < |s.creators| && s.creators[k].Exhausted? ==> s.source == U64_MAX)
    && (forall k: nat :: k < |s.creators| && s.creators[k].Holding? ==> s.creators[k].observed < U64_MAX && s.creators[k].observed <= s.source)
  }

  lemma KeepOwner(s: Sys, e: Event, id: nat, k: nat)
    requires Possible(s, e) && Owner(s, id, k)
    ensures Owner(Step(s, e), id, k)
  {
  }

  lemma StepInv(s: Sys, e: Event)
    requires Inv(s) && Possible(s, e)
    ensures Inv(Step(s, e))
  {
    hide Owner;
    var t := Step(s, e);
    forall id: nat | 0 < id <= t.source ensures Owned(t, id) {
      if id <= s.source {
        assert Owned(s, id);
        var k: nat :| Owner(s, id, k);
        KeepOwner(s, e, id, k);
      } else {
        NewOwner(s, e);
      }
    }
  }

  lemma NewOwner(s: Sys, e: Event)
    requires Possible(s, e) && Step(s, e).source > s.source
    ensures Step(s, e).source == s.source + 1 && Owner(Step(s, e), Step(s, e).source, e.at)
  {
  }

  ghost predicate Feasible(s: Sys, events: seq<Event>)
    decreases |events|
  {
    events == [] || (Possible(s, events[0]) && Feasible(Step(s, events[0]), events[1..]))
  }

  ghost function Run(s: Sys, events: seq<Event>): (t: Sys)
    requires Feasible(s, events)
    decreases |events|
  {
    if events == [] then s else Run(Step(s, events[0]), events[1..])
  }

  lemma {:induction false} RunInv(s: Sys, events: seq<Event>)
    requires Inv(s) && Feasible(s, events)
    ensures Inv(Run(s, events)) && |Run(s, events).creators| == |s.creators|
    decreases |events|
  {
    hide Inv;
    if events != [] {
      StepInv(s, events[0]);
      RunInv(Step(s, events[0]), events[1..]);
    }
  }

  /**
    Under every interleaving, however many creators there are and however stale their reads: two
    creators never hold the same id, no id is zero, every id the counter has passed belongs to
    somebody, and a creator gives up only when no id is left.
   */
  lemma IdsAreDistinct(s: Sys, events: seq<Event>, j: nat, k: nat, id: nat)
    requires Initial(s) && Feasible(s, events) && j < |s.creators| && k < |s.creators|
    ensures var t := Run(s, events);
            && |t.creators| == |s.creators|
            && (t.creators[j].Claimed? ==> 0 < t.creators[j].id <= t.source)
            && (j != k && t.creators[j].Claimed? && t.creators[k].Claimed? ==> t.creators[j].id != t.creators[k].id)
            && (0 < id <= t.source ==> Owned(t, id))
            && (t.creators[j].Exhausted? ==> t.source == U64_MAX)
  {
    hide Owned, Step;
    InitialInv(s);
    RunInv(s, events);
    if j > k {
      var t := Run(s, events);
      assert t.creators[k].Claimed? && t.creators[j].Claimed? ==> t.creators[k].id != t.creators[j].id;
    }
  }

  lemma InitialInv(s: Sys)
    requires Initial(s)
    ensures Inv(s)
  {
  }

  /** One exchange as its environment answers it: the counter at that instant, whether it fails anyway, and what a failure reads. */
  datatype Instant = Instant(source: size, spurious: bool, value: size)

  /** What one creator ends with, attempt by attempt; `Holding` if the schedule ends first. */
  function Attempts(observed: size, schedule: seq<Instant>): (c: Creator)
    decreases |schedule|
  {
    if observed == U64_MAX then Exhausted
    else if schedule == [] then Holding(observed)
    else if !schedule[0].spurious && observed == schedule[0].source then Claimed(observed + 1)
    else Attempts(schedule[0].value, schedule[1..])
  }

  /** The retry loop of one creator: it ends with an id only by moving the counter from the id before it. */
  method ClaimIdentity(first: size, schedule: seq<Instant>) returns (c: Creator, tries: nat)
    ensures c == Attempts(first, schedule) && tries <= |schedule|
    ensures c.Claimed? ==> tries < |schedule| && c.id == schedule[tries].source + 1 && !schedule[tries].spurious
    ensures c.Exhausted? ==> U64_MAX == if tries == 0 then first else schedule[tries - 1].value
  {
    var observed := first;
    tries := 0;
    while tries < |schedule|
      invariant tries <= |schedule|
      invariant observed == if tries == 0 then first else schedule[tries - 1].value
      invariant Attempts(first, schedule) == Attempts(observed, schedule[tries..])
    {
      if observed == U64_MAX { return Exhausted, tries; }
      var now := schedule[tries];
      assert schedule[tries..][0] == now && schedule[tries..][1..] == schedule[tries + 1..];
      if !now.spurious && observed == now.source { return Claimed(observed + 1), tries; }
      observed, tries := now.value, tries + 1;
    }
    return Observed(observed), tries;
  }

  /** An exchange succeeds exactly when the value held is the counter's and it does not fail for no reason; it then takes the next id. */
  lemma ExchangeClaims(s: Sys, k: nat, spurious: bool, value: size)
    requires Inv(s) && Possible(s, Exchange(k, spurious, value))
    ensures var t := Step(s, Exchange(k, spurious, value));
            && (t.creators[k].Claimed? <==> !spurious && s.creators[k].observed == s.source)
            && (t.creators[k].Claimed? ==> t.creators[k].id == s.source + 1 == t.source)
            && (!t.creators[k].Claimed? ==> t.source == s.source && t.creators[k] == if value == U64_MAX then Exhausted else Holding(value))
  {
    hide Owned;
  }
}
