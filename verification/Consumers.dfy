/** The response consumer object: one receipt advanced in place, over a session table it shares. */
module Consumers {
  import opened Base
  import opened SessionModel
  import opened ConsumerModel
  import opened Sessions

  class Consumer {
    const sessions: SessionTable
    var receipt: Receipt
    var owner: Option<Outcome>
    ghost var log: seq<Act>
    ghost var origins: map<nat, Origin>

    ghost function View(): (w: Work)
      reads this, sessions, sessions.slots
    {
      Work(sessions.View(), receipt, owner, log, origins)
    }

    constructor (table: SessionTable)
      ensures sessions == table && receipt == BLANK && owner == None && log == [] && origins == map[]
    {
      sessions, receipt, owner, log, origins := table, BLANK, None, [], map[];
    }

    method Effects(o: Outcome) returns (code: Code)
      modifies this`receipt, this`log, sessions`cutoff, sessions.slots
      ensures Res(code, View()) == ApplyEffect(old(View()), o)
    {
      hide ApplyLogout;
      if receipt.effect.Some? { return if receipt.effect.value == EffectOf(o) then Ok else InvalidArgument; }
      if !EffectDue(o) { return Ok; }
      ghost var fence := sessions.lastResume;
      code := sessions.LogoutSession(o.logoutSession);
      if code != Ok { FailedLogout(old(View()).table, o.logoutSession); return; }
      receipt := receipt.(effect := Some(EffectOf(o)));
      log := log + [Revoked(Instance(o), o.logoutSession, fence)];
    }

    method AbortHeld() returns (code: Code)
      modifies this`receipt, sessions.slots
      ensures Res(code, View()) == DropTicket(old(View()))
    {
      code := sessions.AbortTicket(receipt.ticket);
      if code != Ok { return; }
      receipt := receipt.(ticketPending := false, ticket := NO_TICKET);
    }

    /** Settles the wire status of a resume, and drops a reservation the new status makes useless. */
    method SettleStatus(o: Outcome, now: nat) returns (code: Code)
      modifies this`receipt, sessions.slots
      ensures Res(code, View()) == Settle(old(View()), o, now)
    {
      hide DropTicket;
      if Resumes(o) && receipt.wire == StatusOk {
        code := sessions.CheckResumeInstance(Instance(o));
        if code != Ok && code != Busy { return; }
        if code == Busy { receipt := receipt.(wire := StatusBusy); }
        if now < o.issued || now >= o.expires { receipt := receipt.(wire := AuthenticationFailed); }
      }
      if Resumes(o) && receipt.wire != StatusOk && receipt.ticketPending {
        code := AbortHeld();
        if code != Ok { return; }
      }
      if Grants(o) && !Resumes(o) && now >= o.expires {
        if receipt.ticketPending {
          code := AbortHeld();
          if code != Ok { return; }
        }
        receipt := receipt.(wire := SessionExpired);
      }
      return Ok;
    }

    method HoldAndEnqueue(o: Outcome, env: Env) returns (code: Code)
      modifies this`receipt, this`log, sessions`serial, sessions.slots
      ensures Res(code, View()) == HoldThenEnqueue(old(View()), o, env)
    {
      hide Reserve;
      if Grants(o) && receipt.wire == StatusOk && !receipt.ticketPending {
        var ticket;
        ghost var before := sessions.View();
        var who := Identity(o.user, o.session, o.issued, o.expires, false);
        code, ticket := sessions.ReserveHandle(receipt.meta.request.client, who, env.inspect, env.random);
        if code != Ok { FailedReserve(before, receipt.meta.request.client, who, env.inspect, env.random); return; }
        receipt := receipt.(ticket := ticket, ticketPending := true);
      }
      if env.encode != Ok { return env.encode; }
      if env.enqueue != Ok { return env.enqueue; }
      log := log + [FrameFor(View(), o)];
      receipt := receipt.(state := if receipt.ticketPending then NeedsBind else NeedsRefresh);
      return Ok;
    }

    method BindAndRefresh(o: Outcome, env: Env) returns (code: Code)
      modifies this`receipt, this`origins, sessions.slots
      ensures Res(code, View()) == BindThenRefresh(old(View()), o, env)
    {
      hide Commit;
      if receipt.state == NeedsBind {
        ghost var before := sessions.View();
        code := sessions.CommitTicket(receipt.ticket);
        if code != Ok { FailedCommit(before, receipt.ticket); return; }
        receipt := receipt.(ticketPending := false, state := NeedsRefresh);
        origins := origins[receipt.ticket.client.slot := Origin(Instance(o), Resumes(o))];
      }
      if receipt.state == NeedsRefresh {
        if env.readyToRefresh != Ok { return env.readyToRefresh; }
        if env.refresh != Ok { return env.refresh; }
        receipt := receipt.(state := Ready);
      }
      return Ok;
    }

    method Send(o: Outcome, env: Env) returns (code: Code)
      modifies this`receipt, this`log, this`origins, sessions`serial, sessions.slots
      ensures Res(code, View()) == SendResult(old(View()), o, env)
    {
      hide Settle, HoldThenEnqueue, BindThenRefresh, Recheck, DropRefused, DropExpired, Hold, EnqueueFrame, BindHandle, FinishRefresh;
      SendSplits(View(), o, env);
      if receipt.state == NeedsEnqueue {
        if env.readyToEnqueue != Ok { return env.readyToEnqueue; }
        code := SettleStatus(o, env.now);
        if code != Ok { return; }
        code := HoldAndEnqueue(o, env);
        if code != Ok { return; }
      }
      code := BindAndRefresh(o, env);
    }

    method DestroyCompletion(answer: Code) returns (code: Code)
      modifies this`owner
      ensures Res(code, View()) == DestroyOwner(old(View()), answer)
    {
      if owner.Some? && answer != Ok { return answer; }
      owner := None;
      return Ok;
    }

    method Deliver(o: Outcome, env: Env) returns (code: Code)
      modifies this`receipt, this`log, this`origins, this`owner, sessions`serial, sessions.slots
      ensures Res(code, View()) == Consume(old(View()), o, env)
    {
      hide SendResult;
      match env.match_
      case Refused(c) => return if c == Ok then Internal else c;
      case Gone(clientGone) =>
        code := DestroyCompletion(env.destroy);
        if code != Ok { return; }
        if clientGone {
          var _ := sessions.ForgetClient(o.meta.request.client);
        }
        receipt := BLANK;
      case Matches =>
        receipt := receipt.(state := NeedsEnqueue, meta := o.meta, matched := o.meta.request, command := Some(o.command), wire := o.meta.suggested);
        log := log + [Matched(Instance(o), EffectDue(o))];
        code := Send(o, env);
        if code != Ok { return; }
        code := DestroyCompletion(env.destroy);
    }

    /** One call: whatever fails, the receipt already holds everything that cannot be undone. */
    method Step(env: Env) returns (code: Code)
      modifies this, sessions, sessions.slots
      ensures Res(code, View()) == ConsumerModel.Step(old(View()), env)
    {
      hide SendResult, ApplyEffect, Consume, DestroyOwner;
      if receipt.state == Ready { return if owner.None? then Ok else Busy; }
      if owner.None? { return NotFound; }
      if env.decode != Ok { return env.decode; }
      if !env.registered { return InvalidArgument; }
      var o := owner.value;
      var state, blank := receipt.state, receipt.command.None? && !receipt.ticketPending && receipt.ticket.serial == 0 && receipt.meta.request.instance == 0;
      code := Effects(o);
      if code != Ok { return; }
      if state == Empty {
        if !blank { return InvalidArgument; }
        code := Deliver(o, env);
      } else {
        if !Consistent(receipt, o) { return InvalidArgument; }
        code := Send(o, env);
        if code != Ok { return; }
        code := DestroyCompletion(env.destroy);
      }
    }

    method AcknowledgeReceipt() returns (code: Code)
      modifies this`receipt
      ensures Res(code, View()) == Acknowledge(old(View()))
    {
      if owner.Some? || receipt.state != Ready { return Busy; }
      receipt := BLANK;
      return Ok;
    }

    method AbandonReceipt(env: Env) returns (code: Code)
      modifies this, sessions, sessions.slots
      ensures Res(code, View()) == Abandon(old(View()), env)
    {
      hide ApplyEffect, Abort;
      if receipt.state == Empty && owner.None? { return NotFound; }
      if owner.Some? {
        if receipt.state != Empty && receipt.meta != owner.value.meta { return InvalidArgument; }
        if env.decode != Ok { return env.decode; }
        code := Effects(owner.value);
        if code != Ok { return; }
      }
      if receipt.ticketPending {
        ghost var before := sessions.View();
        code := sessions.AbortTicket(receipt.ticket);
        if code != Ok && code != NotFound { FailedAbort(before, receipt.ticket); return; }
        receipt := receipt.(ticketPending := false);
      }
      code := DestroyCompletion(env.destroy);
      if code != Ok { return; }
      receipt := BLANK;
    }
  }

  // ---- The phases, grouped as the loop-free body runs them ------------------------------------

  function Settle(w: Work, o: Outcome, now: nat): Res
  {
    var a := Recheck(w, o, now); if a.code != Ok then a else
    var b := DropRefused(a.work, o); if b.code != Ok then b else
    DropExpired(b.work, o, now)
  }

  function HoldThenEnqueue(w: Work, o: Outcome, env: Env): Res
  {
    var d := Hold(w, o, env); if d.code != Ok then d else EnqueueFrame(d.work, o, env)
  }

  function BindThenRefresh(w: Work, o: Outcome, env: Env): Res
  {
    var b := if w.receipt.state == NeedsBind then BindHandle(w, o) else Res(Ok, w); if b.code != Ok then b else
    if b.work.receipt.state == NeedsRefresh then FinishRefresh(b.work, env) else b
  }

  lemma SendSplits(w: Work, o: Outcome, env: Env)
    ensures SendResult(w, o, env) ==
              if w.receipt.state != NeedsEnqueue then BindThenRefresh(w, o, env)
              else if env.readyToEnqueue != Ok then Res(env.readyToEnqueue, w)
              else
                var a := Settle(w, o, env.now); if a.code != Ok then a else
                var b := HoldThenEnqueue(a.work, o, env); if b.code != Ok then b else
                BindThenRefresh(b.work, o, env)
  {
    hide Recheck, DropRefused, DropExpired, Hold, EnqueueFrame, BindHandle, FinishRefresh;
  }

  lemma FailedLogout(t: Table, session: nat)
    ensures ApplyLogout(t, session).code != Ok ==> ApplyLogout(t, session).table == t
  {
  }

  lemma FailedReserve(t: Table, client: Lease, who: Identity, inspect: Code, random: Option<nat>)
    ensures Reserve(t, client, who, inspect, random).code != Ok ==> Reserve(t, client, who, inspect, random).table == t
  {
    hide Collides;
  }

  lemma FailedCommit(t: Table, ticket: Ticket)
    ensures Commit(t, ticket).code != Ok ==> Commit(t, ticket).table == t
  {
  }

  lemma FailedAbort(t: Table, ticket: Ticket)
    ensures Abort(t, ticket).code != Ok ==> Abort(t, ticket).table == t
  {
  }
}
