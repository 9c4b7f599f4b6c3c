/**
  The session table as a value: two-phase handles (reserve, then commit or abort), revocation, and
  the resume cutoff a logout raises. Then what every run of the table keeps.
 */
module SessionModel {
  import opened Base

  datatype Identity = Identity(user: nat, session: nat, issued: nat, expires: nat, revoked: bool)
  const NOBODY := Identity(0, 0, 0, 0, false)

  /** Names one reservation: `serial` is never reused by the table. */
  datatype Ticket = Ticket(client: Lease, serial: nat, handle: nat)
  const NO_TICKET := Ticket(NO_LEASE, 0, 0)

  datatype Slot = Slot(client: Lease, active: bool, pending: bool, identity: Identity, candidate: Identity, handle: nat, ticket: Ticket)
  const FREE := Slot(NO_LEASE, false, false, NOBODY, NOBODY, 0, NO_TICKET)

  datatype Table = Table(slots: seq<Slot>, serial: nat, lastResume: nat, cutoff: nat)

  datatype Reserved = Reserved(code: Code, ticket: Ticket, table: Table)
  datatype Changed = Changed(code: Code, table: Table)

  /** The two ways a slot can hold a handle: bound to an active session, or reserved by a ticket. */
  datatype Side = Bound | Held

  predicate Live(s: Slot, side: Side)
  {
    if side.Bound? then s.active else s.pending
  }

  function HandleAt(s: Slot, side: Side): nat
  {
    if side.Bound? then s.handle else s.ticket.handle
  }

  predicate Uses(s: Slot, handle: nat)
  {
    (s.active && s.handle == handle) || (s.pending && s.ticket.handle == handle)
  }

  predicate Collides(t: Table, handle: nat)
  {
    exists i :: 0 <= i < |t.slots| && Uses(t.slots[i], handle)
  }

  predicate ReservableIdentity(who: Identity)
  {
    who.user != 0 && who.session != 0 && !who.revoked && who.issued < who.expires
  }

  /** `inspect` is the server's answer about the client, `random` the generated handle if generation worked. */
  function Reserve(t: Table, client: Lease, who: Identity, inspect: Code, random: Option<nat>): (r: Reserved)
  {
    if !LeaseShaped(client) || !ReservableIdentity(who) then Reserved(InvalidArgument, NO_TICKET, t)
    else if inspect != Ok then Reserved(inspect, NO_TICKET, t)
    else if client.slot >= |t.slots| then Reserved(Range, NO_TICKET, t)
    else
      var s := t.slots[client.slot];
      if s.client == client && s.pending then Reserved(Busy, NO_TICKET, t)
      else if t.serial >= U64_MAX then Reserved(Overflow, NO_TICKET, t)
      else if random.None? then Reserved(Io, NO_TICKET, t)
      else if random.value == 0 || Collides(t, random.value) then Reserved(Busy, NO_TICKET, t)
      else
        var kept := if s.client == client then s else FREE.(client := client);
        var ticket := Ticket(client, t.serial + 1, random.value);
        var next := kept.(candidate := who, pending := true, ticket := ticket);
        Reserved(Ok, ticket, t.(slots := t.slots[client.slot := next], serial := t.serial + 1))
  }

  /** Whether `ticket` names a reservation still pending. */
  function FindTicket(t: Table, ticket: Ticket): (code: Code)
  {
    if !LeaseShaped(ticket.client) || ticket.serial == 0 || ticket.handle == 0 then InvalidArgument
    else if ticket.client.slot >= |t.slots| then NotFound
    else
      var s := t.slots[ticket.client.slot];
      if !s.pending || s.client != ticket.client || s.ticket.serial != ticket.serial || s.ticket.handle != ticket.handle
      then NotFound else Ok
  }

  function Commit(t: Table, ticket: Ticket): (r: Changed)
  {
    var code := FindTicket(t, ticket);
    if code != Ok then Changed(code, t)
    else
      var s := t.slots[ticket.client.slot];
      var next := s.(identity := s.candidate, handle := ticket.handle, active := true, pending := false,
                     candidate := NOBODY, ticket := NO_TICKET);
      Changed(Ok, t.(slots := t.slots[ticket.client.slot := next]))
  }

  function Abort(t: Table, ticket: Ticket): (r: Changed)
  {
    var code := FindTicket(t, ticket);
    if code != Ok then Changed(code, t)
    else
      var next := t.slots[ticket.client.slot].(pending := false, candidate := NOBODY, ticket := NO_TICKET);
      Changed(Ok, t.(slots := t.slots[ticket.client.slot := next]))
  }

  datatype Found = Found(code: Code, who: Identity)

  function Lookup(t: Table, client: Lease, handle: nat, now: nat, inspect: Code): (r: Found)
  {
    if !LeaseShaped(client) || handle == 0 then Found(InvalidArgument, NOBODY)
    else if inspect != Ok then Found(inspect, NOBODY)
    else if client.slot >= |t.slots| then Found(Range, NOBODY)
    else
      var s := t.slots[client.slot];
      if s.client != client || !s.active || s.handle != handle then Found(NotFound, NOBODY)
      else if s.identity.revoked then Found(Cancelled, NOBODY)
      else if now >= s.identity.expires then Found(Timeout, NOBODY)
      else Found(Ok, s.identity)
  }

  predicate Concerns(s: Slot, session: nat)
  {
    (s.active && s.identity.session == session) || (s.pending && s.candidate.session == session)
  }

  function RevokeSlot(s: Slot, session: nat): Slot
  {
    var a := if s.active && s.identity.session == session then s.(identity := s.identity.(revoked := true)) else s;
    if a.pending && a.candidate.session == session then a.(candidate := a.candidate.(revoked := true)) else a
  }

  function RevokeAll(slots: seq<Slot>, session: nat): (r: seq<Slot>)
    ensures |r| == |slots| && forall i :: 0 <= i < |slots| ==> r[i] == RevokeSlot(slots[i], session)
  {
    seq(|slots|, i requires 0 <= i < |slots| => RevokeSlot(slots[i], session))
  }

  function Revoke(t: Table, session: nat): (r: Changed)
  {
    if session == 0 then Changed(InvalidArgument, t)
    else if exists i :: 0 <= i < |t.slots| && Concerns(t.slots[i], session)
    then Changed(Ok, t.(slots := RevokeAll(t.slots, session)))
    else Changed(NotFound, t)
  }

  function Forget(t: Table, client: Lease): (r: Changed)
  {
    if !LeaseShaped(client) then Changed(InvalidArgument, t)
    else if client.slot >= |t.slots| || t.slots[client.slot].client != client then Changed(NotFound, t)
    else Changed(Ok, t.(slots := t.slots[client.slot := FREE]))
  }

  function NoteResume(t: Table, instance: nat): (r: Changed)
  {
    if instance == 0 || instance <= t.lastResume then Changed(InvalidArgument, t)
    else Changed(Ok, t.(lastResume := instance))
  }

  function CheckResume(t: Table, instance: nat): (code: Code)
  {
    if instance == 0 then InvalidArgument
    else if instance > t.lastResume then NotFound
    else if instance <= t.cutoff then Busy else Ok
  }

  /** Every resume noted so far is fenced off, and every binding or reservation of the session is revoked. */
  function ApplyLogout(t: Table, session: nat): (r: Changed)
  {
    if session == 0 then Changed(InvalidArgument, t)
    else
      var r := Revoke(t.(cutoff := t.lastResume), session);
      if r.code == NotFound then r.(code := Ok) else r
  }

  // ---- The invariant -------------------------------------------------------------------------

  ghost predicate SlotInv(s: Slot, i: nat, serial: nat)
  {
    && (s.pending ==> LeaseShaped(s.client) && s.client.slot == i && s.ticket.client == s.client
                      && 0 < s.ticket.serial <= serial && s.ticket.handle != 0)
    && (s.active ==> LeaseShaped(s.client) && s.client.slot == i && s.handle != 0)
  }

  /** Any two live handles in the table, bound or held, are different. */
  ghost predicate HandlesDistinct(slots: seq<Slot>)
  {
    forall i, j, a, b ::
      0 <= i < |slots| && 0 <= j < |slots| && Live(slots[i], a) && Live(slots[j], b) && (i, a) != (j, b)
      ==> HandleAt(slots[i], a) != HandleAt(slots[j], b)
  }

  ghost predicate TableInv(t: Table)
  {
    && t.serial <= U64_MAX
    && t.cutoff <= t.lastResume
    && (forall i :: 0 <= i < |t.slots| ==> SlotInv(t.slots[i], i, t.serial))
    && HandlesDistinct(t.slots)
  }

  ghost predicate InitialTable(t: Table)
  {
    t.serial == 0 && t.lastResume == 0 && t.cutoff == 0 && forall i :: 0 <= i < |t.slots| ==> t.slots[i] == FREE
  }

  lemma ReserveInv(t: Table, client: Lease, who: Identity, inspect: Code, random: Option<nat>)
    requires TableInv(t)
    ensures TableInv(Reserve(t, client, who, inspect, random).table)
  {
    var r := Reserve(t, client, who, inspect, random);
    if r.code == Ok {
      ReserveDistinct(t, client, who, inspect, random);
    }
  }

  lemma ReserveDistinct(t: Table, client: Lease, who: Identity, inspect: Code, random: Option<nat>)
    requires TableInv(t) && Reserve(t, client, who, inspect, random).code == Ok
    ensures HandlesDistinct(Reserve(t, client, who, inspect, random).table.slots)
  {
    var slots := Reserve(t, client, who, inspect, random).table.slots;
    forall i, j, a, b |
      0 <= i < |slots| && 0 <= j < |slots| && Live(slots[i], a) && Live(slots[j], b) && (i, a) != (j, b)
      ensures HandleAt(slots[i], a) != HandleAt(slots[j], b)
    {
      if i == client.slot && a == Held {
        assert Live(t.slots[j], b) && HandleAt(t.slots[j], b) == HandleAt(slots[j], b);
        assert !Uses(t.slots[j], random.value);
      } else if j == client.slot && b == Held {
        assert Live(t.slots[i], a) && HandleAt(t.slots[i], a) == HandleAt(slots[i], a);
        assert !Uses(t.slots[i], random.value);
      } else {
        assert Live(t.slots[i], a) && Live(t.slots[j], b);
      }
    }
  }

  lemma CommitInv(t: Table, ticket: Ticket)
    requires TableInv(t)
    ensures TableInv(Commit(t, ticket).table)
  {
    if FindTicket(t, ticket) == Ok {
      var slots := Commit(t, ticket).table.slots;
      var k := ticket.client.slot;
      forall i, j, a, b |
        0 <= i < |slots| && 0 <= j < |slots| && Live(slots[i], a) && Live(slots[j], b) && (i, a) != (j, b)
        ensures HandleAt(slots[i], a) != HandleAt(slots[j], b)
      {
        var a', b' := if i == k then Held else a, if j == k then Held else b;
        assert Live(t.slots[i], a') && HandleAt(t.slots[i], a') == HandleAt(slots[i], a);
        assert Live(t.slots[j], b') && HandleAt(t.slots[j], b') == HandleAt(slots[j], b);
      }
    }
  }

  /** Dropping or relabelling slots without touching a live handle keeps the invariant. */
  lemma ShrinkInv(t: Table, slots: seq<Slot>)
    requires TableInv(t) && |slots| == |t.slots|
    requires forall i :: 0 <= i < |slots| ==> SlotInv(slots[i], i, t.serial)
    requires forall i, a :: 0 <= i < |slots| && Live(slots[i], a) ==>
                              Live(t.slots[i], a) && HandleAt(t.slots[i], a) == HandleAt(slots[i], a)
    ensures TableInv(t.(slots := slots))
  {
  }

  lemma AbortInv(t: Table, ticket: Ticket)
    requires TableInv(t)
    ensures TableInv(Abort(t, ticket).table)
  {
    ShrinkInv(t, Abort(t, ticket).table.slots);
  }

  lemma RevokeInv(t: Table, session: nat)
    requires TableInv(t)
    ensures TableInv(Revoke(t, session).table)
  {
    ShrinkInv(t, Revoke(t, session).table.slots);
  }

  lemma ForgetInv(t: Table, client: Lease)
    requires TableInv(t)
    ensures TableInv(Forget(t, client).table)
  {
    ShrinkInv(t, Forget(t, client).table.slots);
  }

  // ---- Runs ----------------------------------------------------------------------------------

  datatype Event =
    | DoReserve(client: Lease, who: Identity, inspect: Code, random: Option<nat>)
    | DoCommit(ticket: Ticket)
    | DoAbort(ticket: Ticket)
    | DoRevoke(session: nat)
    | DoForget(client: Lease)
    | DoNote(instance: nat)
    | DoLogout(session: nat)

  function Step(t: Table, e: Event): (r: Changed)
  {
    match e
    case DoReserve(c, w, i, n) => var r := Reserve(t, c, w, i, n); Changed(r.code, r.table)
    case DoCommit(k) => Commit(t, k)
    case DoAbort(k) => Abort(t, k)
    case DoRevoke(s) => Revoke(t, s)
    case DoForget(c) => Forget(t, c)
    case DoNote(n) => NoteResume(t, n)
    case DoLogout(s) => ApplyLogout(t, s)
  }

  /** Handles stay non-zero and pairwise distinct, serials only grow, the cutoff only rises. */
  lemma StepInv(t: Table, e: Event)
    requires TableInv(t)
    ensures TableInv(Step(t, e).table)
    ensures var u := Step(t, e).table; t.serial <= u.serial && t.cutoff <= u.cutoff && t.lastResume <= u.lastResume && |u.slots| == |t.slots|
  {
    hide HandlesDistinct, SlotInv;
    match e
    case DoReserve(c, w, i, n) => ReserveInv(t, c, w, i, n);
    case DoCommit(k) => CommitInv(t, k);
    case DoAbort(k) => AbortInv(t, k);
    case DoRevoke(s) => RevokeInv(t, s);
    case DoForget(c) => ForgetInv(t, c);
    case DoNote(n) =>
    case DoLogout(s) => RevokeInv(t.(cutoff := t.lastResume), s);
  }

  function Run(t: Table, events: seq<Event>): (u: Table)
    decreases |events|
  {
    if events == [] then t else Run(Step(t, events[0]).table, events[1..])
  }

  lemma {:induction false} RunInv(t: Table, events: seq<Event>)
    requires TableInv(t)
    ensures TableInv(Run(t, events))
    decreases |events|
  {
    hide TableInv, Step;
    if events != [] {
      StepInv(t, events[0]);
      RunInv(Step(t, events[0]).table, events[1..]);
    }
  }

  lemma {:induction false} RunSerial(t: Table, events: seq<Event>)
    requires TableInv(t)
    ensures t.serial <= Run(t, events).serial
    decreases |events|
  {
    hide TableInv, Step;
    if events != [] {
      StepInv(t, events[0]);
      RunSerial(Step(t, events[0]).table, events[1..]);
    }
  }

  /** Of two reservations in one run, the later always has the larger serial. */
  lemma SerialsStrictlyIncrease(t: Table, a: Event, events: seq<Event>, b: Event)
    requires TableInv(t) && a.DoReserve? && b.DoReserve?
    requires Reserve(t, a.client, a.who, a.inspect, a.random).code == Ok
    requires var u := Run(Step(t, a).table, events); Reserve(u, b.client, b.who, b.inspect, b.random).code == Ok
    ensures var u := Run(Step(t, a).table, events);
            Reserve(t, a.client, a.who, a.inspect, a.random).ticket.serial < Reserve(u, b.client, b.who, b.inspect, b.random).ticket.serial
  {
    hide TableInv, Collides;
    StepInv(t, a);
    RunSerial(Step(t, a).table, events);
  }

  /** How many commits and aborts of `ticket` succeed in a run. */
  ghost function Effects(t: Table, events: seq<Event>, ticket: Ticket): (n: nat)
    requires TableInv(t)
    decreases |events|
  {
    if events == [] then 0
    else
      StepInv(t, events[0]);
      var r := Step(t, events[0]);
      (if r.code == Ok && (events[0] == DoCommit(ticket) || events[0] == DoAbort(ticket)) then 1 else 0) +
      Effects(r.table, events[1..], ticket)
  }

  /** The ticket was issued and its reservation is over. */
  ghost predicate Spent(t: Table, ticket: Ticket)
  {
    ticket.serial <= t.serial && FindTicket(t, ticket) != Ok
  }

  lemma SpentStays(t: Table, e: Event, ticket: Ticket)
    requires TableInv(t) && Spent(t, ticket)
    ensures Spent(Step(t, e).table, ticket)
  {
    hide HandlesDistinct;
    StepInv(t, e);
    if e.DoReserve? && Step(t, e).code == Ok {
      assert Step(t, e).table.slots[e.client.slot].ticket.serial == t.serial + 1;
    }
  }

  lemma {:induction false} SpentHasNoEffect(t: Table, events: seq<Event>, ticket: Ticket)
    requires TableInv(t) && Spent(t, ticket)
    ensures Effects(t, events, ticket) == 0
    decreases |events|
  {
    hide Spent, TableInv;
    if events != [] {
      StepInv(t, events[0]);
      SpentStays(t, events[0], ticket);
      SpentRefuses(t, ticket);
      SpentHasNoEffect(Step(t, events[0]).table, events[1..], ticket);
    }
  }

  lemma SpentRefuses(t: Table, ticket: Ticket)
    requires Spent(t, ticket)
    ensures Commit(t, ticket).code != Ok && Abort(t, ticket).code != Ok
  {
  }

  lemma EffectSpends(t: Table, e: Event, ticket: Ticket)
    requires TableInv(t) && Step(t, e).code == Ok && (e == DoCommit(ticket) || e == DoAbort(ticket))
    ensures Spent(Step(t, e).table, ticket)
  {
    hide HandlesDistinct;
  }

  /** In any run, from any reachable table, one ticket takes effect at most once. */
  lemma {:induction false} TicketTakesEffectOnce(t: Table, events: seq<Event>, ticket: Ticket)
    requires TableInv(t)
    ensures Effects(t, events, ticket) <= 1
    decreases |events|
  {
    hide Spent, TableInv, FindTicket;
    if events != [] {
      StepInv(t, events[0]);
      var r := Step(t, events[0]);
      if r.code == Ok && (events[0] == DoCommit(ticket) || events[0] == DoAbort(ticket)) {
        EffectSpends(t, events[0], ticket);
        SpentHasNoEffect(r.table, events[1..], ticket);
      } else {
        TicketTakesEffectOnce(r.table, events[1..], ticket);
      }
    }
  }

  /** A ticket that takes effect acts on the reservation it was issued for and on nothing else. */
  lemma TicketTouchesOnlyItsReservation(t: Table, ticket: Ticket)
    requires TableInv(t) && FindTicket(t, ticket) == Ok
    ensures var k := ticket.client.slot;
            && t.slots[k].ticket == ticket
            && (forall i :: 0 <= i < |t.slots| && i != k ==>
                  Commit(t, ticket).table.slots[i] == t.slots[i] && Abort(t, ticket).table.slots[i] == t.slots[i])
            && Commit(t, ticket).table.slots[k].identity == t.slots[k].candidate
            && Abort(t, ticket).table.slots[k].identity == t.slots[k].identity
            && Abort(t, ticket).table.slots[k].active == t.slots[k].active
            && Abort(t, ticket).table.slots[k].handle == t.slots[k].handle
  {
    hide HandlesDistinct;
  }

  /** A reservation becomes visible to lookup exactly by its own commit, under its own handle. */
  lemma CommitMakesVisible(t: Table, ticket: Ticket, now: nat)
    requires TableInv(t) && FindTicket(t, ticket) == Ok
    ensures var who := t.slots[ticket.client.slot].candidate;
            && Lookup(t, ticket.client, ticket.handle, now, Ok).code == NotFound
            && Lookup(Commit(t, ticket).table, ticket.client, ticket.handle, now, Ok) ==
               (if who.revoked then Found(Cancelled, NOBODY) else if now >= who.expires then Found(Timeout, NOBODY) else Found(Ok, who))
            && Lookup(Abort(t, ticket).table, ticket.client, ticket.handle, now, Ok).code == NotFound
  {
    var k := ticket.client.slot;
    assert Live(t.slots[k], Held);
    if t.slots[k].active {
      assert Live(t.slots[k], Bound);
    }
  }

  /** After a logout no lookup anywhere returns that session, and every resume noted so far is refused. */
  lemma LogoutRevokesEverywhere(t: Table, session: nat, client: Lease, handle: nat, now: nat, inspect: Code, instance: nat)
    requires TableInv(t) && session != 0
    ensures var r := ApplyLogout(t, session);
            && r.code == Ok
            && !(Lookup(r.table, client, handle, now, inspect).code == Ok && Lookup(r.table, client, handle, now, inspect).who.session == session)
            && (CheckResume(t, instance) == Ok ==> CheckResume(r.table, instance) == Busy)
            && (forall i :: 0 <= i < |t.slots| && r.table.slots[i].pending && r.table.slots[i].candidate.session == session
                  ==> r.table.slots[i].candidate.revoked)
  {
    hide HandlesDistinct;
    var u := t.(cutoff := t.lastResume);
    var slots := ApplyLogout(t, session).table.slots;
    if !exists i :: 0 <= i < |t.slots| && Concerns(t.slots[i], session) {
      assert forall i :: 0 <= i < |t.slots| ==> !Concerns(t.slots[i], session);
    }
  }

  /**
    Revoking or logging out one session leaves every other alone: whoever a lookup found under another
    session it still finds, and reservations of other sessions are untouched.
   */
  lemma LogoutSparesOthers(t: Table, session: nat, client: Lease, handle: nat, now: nat, inspect: Code)
    requires session != 0
    ensures var r := Lookup(t, client, handle, now, inspect);
            r.code == Ok && r.who.session != session ==>
              Lookup(Revoke(t, session).table, client, handle, now, inspect) == r && Lookup(ApplyLogout(t, session).table, client, handle, now, inspect) == r
    ensures var a, b := Revoke(t, session).table, ApplyLogout(t, session).table;
            && |a.slots| == |t.slots| && |b.slots| == |t.slots| && a.serial == t.serial && b.serial == t.serial
            && (forall i :: 0 <= i < |t.slots| && t.slots[i].pending && t.slots[i].candidate.session != session ==>
                  a.slots[i].pending && a.slots[i].candidate == t.slots[i].candidate && a.slots[i].ticket == t.slots[i].ticket
                  && b.slots[i].pending && b.slots[i].candidate == t.slots[i].candidate && b.slots[i].ticket == t.slots[i].ticket)
            && (forall i :: 0 <= i < |t.slots| && !Concerns(t.slots[i], session) ==> a.slots[i] == t.slots[i] && b.slots[i] == t.slots[i])
  {
  }

  /** Forgetting a client ends its binding and its reservation, and nobody else's. */
  lemma ForgetEndsOne(t: Table, client: Lease, other: Lease, handle: nat, now: nat, inspect: Code)
    requires TableInv(t) && LeaseShaped(client)
    ensures var u := Forget(t, client).table;
            && Lookup(u, client, handle, now, inspect).code != Ok
            && (other != client ==> Lookup(u, other, handle, now, inspect) == Lookup(t, other, handle, now, inspect))
            && (forall ticket: Ticket :: ticket.client == client ==> FindTicket(u, ticket) != Ok)
            && (forall ticket: Ticket :: ticket.client != client ==> FindTicket(u, ticket) == FindTicket(t, ticket))
  {
    hide HandlesDistinct;
    if client.slot < |t.slots| { assert SlotInv(t.slots[client.slot], client.slot, t.serial); }
  }

  ghost predicate QuietFor(e: Event)
  {
    !e.DoLogout?
  }

  /** A resume noted after the last logout passes the check until the next logout: the fence blocks nothing newer. */
  lemma {:induction false} NotedResumePasses(t: Table, instance: nat, events: seq<Event>)
    requires t.cutoff < instance <= t.lastResume && (forall i :: 0 <= i < |events| ==> QuietFor(events[i]))
    ensures CheckResume(t, instance) == Ok && CheckResume(Run(t, events), instance) == Ok
    decreases |events|
  {
    hide Step;
    if events != [] {
      assert QuietFor(events[0]);
      QuietStep(t, events[0]);
      assert forall i :: 0 <= i < |events[1..]| ==> events[1..][i] == events[i + 1];
      NotedResumePasses(Step(t, events[0]).table, instance, events[1..]);
    }
  }

  lemma QuietStep(t: Table, e: Event)
    requires QuietFor(e)
    ensures Step(t, e).table.cutoff == t.cutoff && t.lastResume <= Step(t, e).table.lastResume
  {
    hide Collides;
  }

  /** Noting a new resume above the watermark always succeeds and makes it pass. */
  lemma NoteAccepted(t: Table, instance: nat)
    requires TableInv(t)
    ensures NoteResume(t, instance).code == Ok <==> instance > t.lastResume
    ensures instance > t.lastResume ==> CheckResume(NoteResume(t, instance).table, instance) == Ok
  {
    hide HandlesDistinct, SlotInv;
  }

  /** What a lookup answers, in full. */
  lemma LookupMeans(t: Table, client: Lease, handle: nat, now: nat)
    requires TableInv(t)
    ensures var r := Lookup(t, client, handle, now, Ok);
            r.code == Ok <==>
              && client.slot < |t.slots| && t.slots[client.slot].client == client && t.slots[client.slot].active && t.slots[client.slot].handle == handle
              && !t.slots[client.slot].identity.revoked && now < t.slots[client.slot].identity.expires
    ensures Lookup(t, client, handle, now, Ok).code == Ok ==> Lookup(t, client, handle, now, Ok).who == t.slots[client.slot].identity
  {
    hide HandlesDistinct;
    if client.slot < |t.slots| { assert SlotInv(t.slots[client.slot], client.slot, t.serial); }
  }

  /** Reserving a handle disturbs nobody: what a lookup found it still finds, unless the slot has passed to a new client. */
  lemma ReserveKeepsLookups(t: Table, client: Lease, who: Identity, inspect: Code, random: Option<nat>, other: Lease, handle: nat, now: nat)
    requires other.slot != client.slot || (client.slot < |t.slots| && t.slots[client.slot].client == client)
    ensures Lookup(Reserve(t, client, who, inspect, random).table, other, handle, now, Ok) == Lookup(t, other, handle, now, Ok)
  {
    hide Collides;
  }
}
