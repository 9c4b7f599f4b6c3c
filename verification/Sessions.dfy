/** The session table object: a slot array scanned and updated in place. */
module Sessions {
  import opened Base
  import opened SessionModel

  class SessionTable {
    const slots: array<Slot>
    var serial: nat
    var lastResume: nat
    var cutoff: nat

    ghost function View(): (t: Table)
      reads this, slots
    {
      Table(slots[..], serial, lastResume, cutoff)
    }

    constructor (capacity: nat)
      ensures fresh(slots) && slots.Length == capacity && InitialTable(View()) && TableInv(View())
    {
      slots := new Slot[capacity](i => FREE);
      serial, lastResume, cutoff := 0, 0, 0;
    }

    /** Scans every slot for `handle`, bound or held. */
    method InUse(handle: nat) returns (used: bool)
      ensures used == Collides(View(), handle)
    {
      for i := 0 to slots.Length
        invariant forall k :: 0 <= k < i ==> !Uses(slots[..][k], handle)
      {
        if Uses(slots[i], handle) {
          assert Uses(slots[..][i], handle);
          return true;
        }
      }
      return false;
    }

    method ReserveHandle(client: Lease, who: Identity, inspect: Code, random: Option<nat>) returns (code: Code, ticket: Ticket)
      modifies this`serial, slots
      ensures Reserved(code, ticket, View()) == Reserve(old(View()), client, who, inspect, random)
    {
      hide Collides;
      ticket := NO_TICKET;
      if !LeaseShaped(client) || !ReservableIdentity(who) { return InvalidArgument, NO_TICKET; }
      if inspect != Ok { return inspect, NO_TICKET; }
      if client.slot >= slots.Length { return Range, NO_TICKET; }
      var s := slots[client.slot];
      if s.client == client && s.pending { return Busy, NO_TICKET; }
      if serial >= U64_MAX { return Overflow, NO_TICKET; }
      if random.None? { return Io, NO_TICKET; }
      if random.value == 0 { return Busy, NO_TICKET; }
      var used := InUse(random.value);
      if used { return Busy, NO_TICKET; }
      if s.client != client { s := FREE.(client := client); }
      serial := serial + 1;
      ticket := Ticket(client, serial, random.value);
      slots[client.slot] := s.(candidate := who, pending := true, ticket := ticket);
      return Ok, ticket;
    }

    method TicketSlot(ticket: Ticket) returns (code: Code)
      ensures code == FindTicket(View(), ticket)
    {
      if !LeaseShaped(ticket.client) || ticket.serial == 0 || ticket.handle == 0 { return InvalidArgument; }
      if ticket.client.slot >= slots.Length { return NotFound; }
      var s := slots[ticket.client.slot];
      if !s.pending || s.client != ticket.client || s.ticket.serial != ticket.serial || s.ticket.handle != ticket.handle {
        return NotFound;
      }
      return Ok;
    }

    method CommitTicket(ticket: Ticket) returns (code: Code)
      modifies slots
      ensures Changed(code, View()) == Commit(old(View()), ticket)
    {
      code := TicketSlot(ticket);
      if code != Ok { return; }
      var s := slots[ticket.client.slot];
      slots[ticket.client.slot] := s.(identity := s.candidate, handle := ticket.handle, active := true, pending := false,
                                      candidate := NOBODY, ticket := NO_TICKET);
    }

    method AbortTicket(ticket: Ticket) returns (code: Code)
      modifies slots
      ensures Changed(code, View()) == Abort(old(View()), ticket)
    {
      code := TicketSlot(ticket);
      if code != Ok { return; }
      slots[ticket.client.slot] := slots[ticket.client.slot].(pending := false, candidate := NOBODY, ticket := NO_TICKET);
    }

    method LookupHandle(client: Lease, handle: nat, now: nat, inspect: Code) returns (code: Code, who: Identity)
      ensures Found(code, who) == Lookup(View(), client, handle, now, inspect)
    {
      if !LeaseShaped(client) || handle == 0 { return InvalidArgument, NOBODY; }
      if inspect != Ok { return inspect, NOBODY; }
      if client.slot >= slots.Length { return Range, NOBODY; }
      var s := slots[client.slot];
      if s.client != client || !s.active || s.handle != handle { return NotFound, NOBODY; }
      if s.identity.revoked { return Cancelled, NOBODY; }
      if now >= s.identity.expires { return Timeout, NOBODY; }
      return Ok, s.identity;
    }

    /** Marks every matching binding and reservation, in one pass over the slots. */
    method RevokeSession(session: nat) returns (code: Code)
      modifies slots
      ensures Changed(code, View()) == Revoke(old(View()), session)
    {
      if session == 0 { return InvalidArgument; }
      var found := false;
      ghost var before := slots[..];
      for i := 0 to slots.Length
        invariant forall k :: 0 <= k < i ==> slots[k] == RevokeSlot(before[k], session)
        invariant forall k :: i <= k < slots.Length ==> slots[k] == before[k]
        invariant found <==> exists k :: 0 <= k < i && Concerns(before[k], session)
      {
        var s := slots[i];
        assert s == before[i];
        if s.active && s.identity.session == session {
          slots[i] := slots[i].(identity := s.identity.(revoked := true));
          found := true;
        }
        if s.pending && s.candidate.session == session {
          slots[i] := slots[i].(candidate := s.candidate.(revoked := true));
          found := true;
        }
        assert found <==> (exists k :: 0 <= k < i && Concerns(before[k], session)) || Concerns(before[i], session);
      }
      if found {
        assert slots[..] == RevokeAll(before, session);
      } else {
        assert forall k :: 0 <= k < |before| ==> !Concerns(before[k], session);
        assert slots[..] == before;
      }
      return if found then Ok else NotFound;
    }

    method ForgetClient(client: Lease) returns (code: Code)
      modifies slots
      ensures Changed(code, View()) == Forget(old(View()), client)
    {
      if !LeaseShaped(client) { return InvalidArgument; }
      if client.slot >= slots.Length { return NotFound; }
      if slots[client.slot].client != client { return NotFound; }
      slots[client.slot] := FREE;
      return Ok;
    }

    method NoteResumeInstance(instance: nat) returns (code: Code)
      modifies this`lastResume
      ensures Changed(code, View()) == NoteResume(old(View()), instance)
    {
      if instance == 0 || instance <= lastResume { return InvalidArgument; }
      lastResume := instance;
      return Ok;
    }

    method CheckResumeInstance(instance: nat) returns (code: Code)
      ensures code == CheckResume(View(), instance)
    {
      if instance == 0 { return InvalidArgument; }
      if instance > lastResume { return NotFound; }
      return if instance <= cutoff then Busy else Ok;
    }

    method LogoutSession(session: nat) returns (code: Code)
      modifies this`cutoff, slots
      ensures Changed(code, View()) == ApplyLogout(old(View()), session)
    {
      hide Revoke;
      if session == 0 { return InvalidArgument; }
      cutoff := lastResume;
      code := RevokeSession(session);
      if code == NotFound { code := Ok; }
    }
  }
}
