/**
  What one call of the response consumer achieves when every dependency answers: exactly one frame
  with the status the completion deserves, the handle bound to the identity granted, nothing left over.
 */
module ConsumerDelivery {
  import opened Base
  import opened SessionModel
  import opened ConsumerModel

  predicate Healthy(env: Env)
  {
    && env.decode == Ok && env.registered && env.match_ == Matches && env.readyToEnqueue == Ok && env.inspect == Ok
    && env.encode == Ok && env.enqueue == Ok && env.readyToRefresh == Ok && env.refresh == Ok && env.destroy == Ok
  }

  /** The status owed to a completion at time `now` when resumes up to `cutoff` are fenced off. */
  function Deserved(o: Outcome, now: nat, cutoff: nat): Status
  {
    if o.command == Resume && o.resumeValidated && o.meta.suggested == StatusOk then
      if !(o.issued <= now < o.expires) then AuthenticationFailed
      else if Instance(o) <= cutoff then StatusBusy else StatusOk
    else if o.command == Login && o.commit == Committed && o.expires <= now then SessionExpired
    else o.meta.suggested
  }

  /** A logout that did, or may have, taken place in the database. */
  predicate LogsOut(o: Outcome)
  {
    o.command == Logout && (o.commit == Committed || o.commit == Unknown)
  }

  /** The table once such a logout has taken effect. */
  function Settled(t: Table, o: Outcome): Table
  {
    if LogsOut(o) then ApplyLogout(t, o.logoutSession).table else t
  }

  function EffectActs(t: Table, o: Outcome): seq<Act>
  {
    if LogsOut(o) then [Revoked(Instance(o), o.logoutSession, t.lastResume)] else []
  }

  /** A new completion at a blank receipt; a resume has been noted, a due logout names a session. */
  predicate Fresh(w: Work, o: Outcome)
  {
    && w.receipt == BLANK && w.owner == Some(o) && (EffectDue(o) ==> o.logoutSession != 0)
    && (Resumes(o) ==> 0 < Instance(o) <= w.table.lastResume)
  }

  /** Whether a handle is handed out, and to whom. */
  predicate Due(o: Outcome, now: nat, cutoff: nat)
  {
    Grants(o) && Deserved(o, now, cutoff) == StatusOk
  }

  function Who(o: Outcome): Identity
  {
    Identity(o.user, o.session, o.issued, o.expires, false)
  }

  lemma EffectStep(w: Work, o: Outcome)
    requires Fresh(w, o)
    ensures var e := ApplyEffect(w, o);
            && e.code == Ok && e.work.table == Settled(w.table, o) && e.work.log == w.log + EffectActs(w.table, o)
            && e.work.receipt == w.receipt.(effect := e.work.receipt.effect) && e.work.owner == w.owner && e.work.origins == w.origins
            && e.work.table.lastResume == w.table.lastResume && (!EffectDue(o) ==> e.work.table.cutoff == w.table.cutoff)
  {
    assert w.log + [] == w.log;
  }

  /** The receipt right after the match. */
  predicate JustMatched(w: Work, o: Outcome)
  {
    w.receipt.state == NeedsEnqueue && w.receipt.meta == o.meta && w.receipt.wire == o.meta.suggested && !w.receipt.ticketPending && w.owner == Some(o)
  }

  lemma StatusStep(w: Work, o: Outcome, env: Env)
    requires JustMatched(w, o) && (Resumes(o) ==> 0 < Instance(o) <= w.table.lastResume)
    ensures var a := Recheck(w, o, env.now);
            var b := DropRefused(a.work, o);
            var c := DropExpired(b.work, o, env.now);
            && a.code == Ok && b.code == Ok && c.code == Ok
            && c.work == w.(receipt := w.receipt.(wire := Deserved(o, env.now, w.table.cutoff)))
  {
  }

  lemma EnqueueStep(w: Work, o: Outcome, env: Env)
    requires JustMatched(w, o) && Healthy(env) && (Resumes(o) ==> 0 < Instance(o) <= w.table.lastResume)
    requires Due(o, env.now, w.table.cutoff) ==> Reserve(w.table, o.meta.request.client, Who(o), Ok, env.random).code == Ok
    ensures var status := Deserved(o, env.now, w.table.cutoff);
            var held := Reserve(w.table, o.meta.request.client, Who(o), Ok, env.random);
            var due := Due(o, env.now, w.table.cutoff);
            var r := EnqueuePhase(w, o, env);
            && r.code == Ok
            && r.work.log == w.log + [Framed(Instance(o), o.meta.request.client, status, if due then held.ticket.handle else 0)]
            && r.work.table == (if due then held.table else w.table)
            && r.work.receipt.state == (if due then NeedsBind else NeedsRefresh)
            && (due ==> r.work.receipt.ticket == held.ticket) && r.work.owner == w.owner && r.work.origins == w.origins
  {
    hide Recheck, DropRefused, DropExpired, Reserve;
    StatusStep(w, o, env);
  }

  lemma ReserveThenCommit(t: Table, client: Lease, who: Identity, random: Option<nat>)
    requires Reserve(t, client, who, Ok, random).code == Ok
    ensures var r := Reserve(t, client, who, Ok, random);
            var c := Commit(r.table, r.ticket);
            && c.code == Ok && random == Some(r.ticket.handle) && r.ticket.client == client
            && (forall now: nat :: now < who.expires ==> Lookup(c.table, client, r.ticket.handle, now, Ok) == Found(Ok, who))
  {
    hide Collides;
  }

  /** The state a completed delivery leaves behind. */
  ghost predicate Delivered(r: Res, table: Table)
  {
    r.code == Ok && r.work.owner.None? && r.work.receipt.state == Ready && r.work.table == table
    && Acknowledge(r.work).code == Ok && Acknowledge(r.work).work.receipt == BLANK
  }

  lemma SendStep(w: Work, o: Outcome, env: Env)
    requires JustMatched(w, o) && Healthy(env) && (Resumes(o) ==> 0 < Instance(o) <= w.table.lastResume)
    requires Due(o, env.now, w.table.cutoff) ==> Reserve(w.table, o.meta.request.client, Who(o), Ok, env.random).code == Ok
    ensures var held := Reserve(w.table, o.meta.request.client, Who(o), Ok, env.random);
            var due := Due(o, env.now, w.table.cutoff);
            var r := SendResult(w, o, env);
            && r.code == Ok && r.work.receipt.state == Ready && r.work.owner == w.owner
            && r.work.log == w.log + [Framed(Instance(o), o.meta.request.client, Deserved(o, env.now, w.table.cutoff), if due then held.ticket.handle else 0)]
            && r.work.table == if due then Commit(held.table, held.ticket).table else w.table
  {
    hide EnqueuePhase, Reserve, Commit;
    EnqueueStep(w, o, env);
    if Due(o, env.now, w.table.cutoff) { ReserveThenCommit(w.table, o.meta.request.client, Who(o), env.random); }
  }

  /**
    With every dependency answering, one call settles a new completion: a due logout takes effect, one
    frame with the deserved status goes to the client, a deserved handle is reserved and bound, the
    completion is gone and the receipt can be acknowledged.
   */
  lemma AnswerDelivered(w: Work, o: Outcome, env: Env)
    requires Fresh(w, o) && Healthy(env)
    requires Due(o, env.now, Settled(w.table, o).cutoff) ==> Reserve(Settled(w.table, o), o.meta.request.client, Who(o), Ok, env.random).code == Ok
    ensures var t := Settled(w.table, o);
            var held := Reserve(t, o.meta.request.client, Who(o), Ok, env.random);
            var due := Due(o, env.now, t.cutoff);
            var r := ConsumerModel.Step(w, env);
            && Delivered(r, if due then Commit(held.table, held.ticket).table else t)
            && r.work.log == w.log + EffectActs(w.table, o)
                             + [Matched(Instance(o), EffectDue(o)), Framed(Instance(o), o.meta.request.client, Deserved(o, env.now, t.cutoff), if due then held.ticket.handle else 0)]
  {
    hide SendResult, ApplyEffect, Reserve, Commit, Deserved;
    EffectStep(w, o);
    var e := ApplyEffect(w, o).work;
    var m := AcceptMatch(e, o);
    SendStep(m, o, env);
    assert e.log + [Matched(Instance(o), EffectDue(o))] + SendResult(m, o, env).work.log[|m.log|..] == SendResult(m, o, env).work.log;
  }

  /** A login or resume that deserves success is visible under the handle it was sent, for exactly its lifetime. */
  lemma GrantVisible(w: Work, o: Outcome, env: Env, now: nat)
    requires Fresh(w, o) && Healthy(env) && Due(o, env.now, w.table.cutoff)
    requires Reserve(w.table, o.meta.request.client, Who(o), Ok, env.random).code == Ok
    ensures env.random.Some? && Framed(Instance(o), o.meta.request.client, StatusOk, env.random.value) in ConsumerModel.Step(w, env).work.log
    ensures env.random.Some? && now < o.expires ==>
              Lookup(ConsumerModel.Step(w, env).work.table, o.meta.request.client, env.random.value, now, Ok) == Found(Ok, Identity(o.user, o.session, o.issued, o.expires, false))
  {
    hide Reserve, Commit, ConsumerModel.Step, Lookup;
    AnswerDelivered(w, o, env);
    ReserveThenCommit(w.table, o.meta.request.client, Who(o), env.random);
    var log := ConsumerModel.Step(w, env).work.log;
    assert log[|log| - 1] == Framed(Instance(o), o.meta.request.client, StatusOk, env.random.value);
  }

  /**
    A call that stopped after the enqueue is completed by a later one: the handle still owed is bound,
    no second frame is sent, and the receipt can be acknowledged.
   */
  lemma RetryCompletes(w: Work, o: Outcome, env: Env)
    requires w.receipt.state in {NeedsBind, NeedsRefresh} && w.owner == Some(o) && Consistent(w.receipt, o) && Healthy(env)
    requires w.receipt.effect == if EffectDue(o) then Some(EffectOf(o)) else None
    requires w.receipt.state == NeedsBind ==> FindTicket(w.table, w.receipt.ticket) == Ok
    ensures var r := ConsumerModel.Step(w, env);
            && Delivered(r, if w.receipt.state == NeedsBind then Commit(w.table, w.receipt.ticket).table else w.table)
            && r.work.log == w.log
  {
  }

  /** A call that stopped before anything was reserved is completed by a later one as if it were the first. */
  lemma RetryDelivers(w: Work, o: Outcome, env: Env)
    requires JustMatched(w, o) && Consistent(w.receipt, o) && Healthy(env) && (Resumes(o) ==> 0 < Instance(o) <= w.table.lastResume)
    requires w.receipt.effect == if EffectDue(o) then Some(EffectOf(o)) else None
    requires Due(o, env.now, w.table.cutoff) ==> Reserve(w.table, o.meta.request.client, Who(o), Ok, env.random).code == Ok
    ensures var held := Reserve(w.table, o.meta.request.client, Who(o), Ok, env.random);
            var due := Due(o, env.now, w.table.cutoff);
            var r := ConsumerModel.Step(w, env);
            && Delivered(r, if due then Commit(held.table, held.ticket).table else w.table)
            && r.work.log == w.log + [Framed(Instance(o), o.meta.request.client, Deserved(o, env.now, w.table.cutoff), if due then held.ticket.handle else 0)]
  {
    hide SendResult, Reserve, Commit, Deserved;
    SendStep(w, o, env);
  }

  /** A completion whose client or request is gone still has its logout applied, then disappears without a frame. */
  lemma GoneSettles(w: Work, o: Outcome, env: Env)
    requires Fresh(w, o) && env.decode == Ok && env.registered && env.match_.Gone? && env.destroy == Ok
    ensures var t := Settled(w.table, o);
            var r := ConsumerModel.Step(w, env);
            && r.code == Ok && r.work.owner.None? && r.work.receipt == BLANK && r.work.log == w.log + EffectActs(w.table, o)
            && r.work.table == if env.match_.clientGone then Forget(t, o.meta.request.client).table else t
  {
    hide ApplyEffect;
    EffectStep(w, o);
  }

  /** Giving up at any point applies a due logout, frees a reservation still held, and leaves nothing. */
  lemma AbandonSettles(w: Work, o: Outcome, env: Env)
    requires w.owner == Some(o) && env.decode == Ok && env.destroy == Ok && (w.receipt.state != Empty ==> w.receipt.meta == o.meta)
    requires w.receipt.effect.None? && (EffectDue(o) ==> o.logoutSession != 0)
    requires w.receipt.ticketPending ==> LeaseShaped(w.receipt.ticket.client) && w.receipt.ticket.serial != 0 && w.receipt.ticket.handle != 0
    ensures var t := Settled(w.table, o);
            var r := Abandon(w, env);
            && r.code == Ok && r.work.owner.None? && r.work.receipt == BLANK && r.work.log == w.log + EffectActs(w.table, o)
            && r.work.table == if w.receipt.ticketPending then Abort(t, w.receipt.ticket).table else t
  {
    hide ApplyLogout;
    assert w.log + [] == w.log;
    if EffectDue(o) { LogoutWorks(w.table, o.logoutSession); }
  }

  lemma LogoutWorks(t: Table, session: nat)
    requires session != 0
    ensures ApplyLogout(t, session).code == Ok
  {
  }

  /** A reservation succeeds exactly under these conditions. */
  lemma ReserveExact(t: Table, client: Lease, who: Identity, inspect: Code, random: Option<nat>)
    ensures Reserve(t, client, who, inspect, random).code == Ok <==>
              && client.pool != 0 && client.generation != 0 && client.slot < |t.slots|
              && who.user != 0 && who.session != 0 && !who.revoked && who.issued < who.expires
              && inspect == Ok && t.serial < U64_MAX && random.Some? && random.value != 0
              && !(t.slots[client.slot].client == client && t.slots[client.slot].pending)
              && (forall i :: 0 <= i < |t.slots| ==> !(t.slots[i].active && t.slots[i].handle == random.value) && !(t.slots[i].pending && t.slots[i].ticket.handle == random.value))
  {
    if random.Some? && !Collides(t, random.value) {
      forall i | 0 <= i < |t.slots|
        ensures !(t.slots[i].active && t.slots[i].handle == random.value) && !(t.slots[i].pending && t.slots[i].ticket.handle == random.value)
      {
        assert !Uses(t.slots[i], random.value);
      }
    }
  }

  /** Calls that must be refused are, in this order, and change nothing at all. */
  lemma StepRefuses(w: Work, env: Env)
    ensures w.receipt.state == Ready ==> ConsumerModel.Step(w, env) == Res(if w.owner.None? then Ok else Busy, w)
    ensures w.receipt.state != Ready && w.owner.None? ==> ConsumerModel.Step(w, env) == Res(NotFound, w)
    ensures w.receipt.state != Ready && w.owner.Some? && env.decode != Ok ==> ConsumerModel.Step(w, env) == Res(env.decode, w)
    ensures w.receipt.state != Ready && w.owner.Some? && env.decode == Ok && !env.registered ==> ConsumerModel.Step(w, env) == Res(InvalidArgument, w)
    ensures Acknowledge(w).code == Ok <==> w.owner.None? && w.receipt.state == Ready
    ensures Acknowledge(w).code != Ok ==> Acknowledge(w) == Res(Busy, w)
  {
    hide Consume, SendResult, ApplyEffect;
  }

  /** A receipt begun for one completion is never used for another. */
  lemma ForeignReceiptRefused(w: Work, o: Outcome, env: Env)
    requires w.owner == Some(o) && w.receipt.state in {NeedsEnqueue, NeedsBind, NeedsRefresh} && env.decode == Ok && env.registered
    requires w.receipt.meta != o.meta || w.receipt.matched != o.meta.request || w.receipt.command != Some(o.command) || !WireFor(o, w.receipt.wire)
    ensures ConsumerModel.Step(w, env).code != Ok && ConsumerModel.Step(w, env).work.receipt.state == w.receipt.state
    ensures forall i :: |w.log| <= i < |ConsumerModel.Step(w, env).work.log| ==> ConsumerModel.Step(w, env).work.log[i].Revoked?
  {
    hide Consume, SendResult, ApplyLogout;
  }

  /** A failure is reported as it is; before the enqueue no frame has been sent, after it none is sent again. */
  lemma FailuresAreReported(w: Work, o: Outcome, env: Env)
    ensures w.receipt.state == NeedsEnqueue && env.readyToEnqueue != Ok ==> SendResult(w, o, env) == Res(env.readyToEnqueue, w)
    ensures w.receipt.state == NeedsRefresh && env.readyToRefresh != Ok ==> SendResult(w, o, env) == Res(env.readyToRefresh, w)
    ensures w.receipt.state == NeedsRefresh && env.readyToRefresh == Ok && env.refresh != Ok ==> SendResult(w, o, env) == Res(env.refresh, w)
    ensures w.receipt.state == NeedsBind && FindTicket(w.table, w.receipt.ticket) != Ok ==> SendResult(w, o, env) == Res(FindTicket(w.table, w.receipt.ticket), w)
    ensures w.owner.Some? && env.destroy != Ok ==> DestroyOwner(w, env.destroy) == Res(env.destroy, w)
  {
    hide EnqueuePhase;
    if w.receipt.state == NeedsEnqueue { NotReady(w, o, env); }
  }

  lemma NotReady(w: Work, o: Outcome, env: Env)
    ensures env.readyToEnqueue != Ok ==> EnqueuePhase(w, o, env) == Res(env.readyToEnqueue, w)
  {
  }

  /** An encoding or a queue that refuses leaves the completion waiting to be enqueued, its reservation kept for the next call. */
  lemma RefusedFrameWaits(w: Work, o: Outcome, env: Env)
    requires JustMatched(w, o) && Healthy(env.(encode := Ok, enqueue := Ok)) && (env.encode != Ok || env.enqueue != Ok)
    requires Resumes(o) ==> 0 < Instance(o) <= w.table.lastResume
    requires Due(o, env.now, w.table.cutoff) ==> Reserve(w.table, o.meta.request.client, Who(o), Ok, env.random).code == Ok
    ensures var r := SendResult(w, o, env);
            && r.code == (if env.encode != Ok then env.encode else env.enqueue) && r.work.log == w.log
            && r.work.receipt.state == NeedsEnqueue && r.work.receipt.ticketPending == Due(o, env.now, w.table.cutoff)
  {
    hide Recheck, DropRefused, DropExpired, Reserve;
    StatusStep(w, o, env);
  }

  /** A reservation the table refuses is reported and nothing is sent. */
  lemma RefusedReservationWaits(w: Work, o: Outcome, env: Env)
    requires JustMatched(w, o) && env.readyToEnqueue == Ok && (Resumes(o) ==> 0 < Instance(o) <= w.table.lastResume)
    requires Due(o, env.now, w.table.cutoff) && Reserve(w.table, o.meta.request.client, Who(o), env.inspect, env.random).code != Ok
    ensures var r := SendResult(w, o, env);
            && r.code == Reserve(w.table, o.meta.request.client, Who(o), env.inspect, env.random).code
            && r.work.log == w.log && r.work.table == w.table && r.work.receipt.state == NeedsEnqueue && !r.work.receipt.ticketPending
  {
    hide Recheck, DropRefused, DropExpired, Reserve;
    StatusStep(w, o, env);
  }

  /** A resume that was never noted is an error, not an answer. */
  lemma UnknownResumeRefused(w: Work, o: Outcome, env: Env)
    requires JustMatched(w, o) && env.readyToEnqueue == Ok && Resumes(o) && o.meta.suggested == StatusOk && Instance(o) > w.table.lastResume
    ensures SendResult(w, o, env) == Res(NotFound, w)
  {
  }

  /** A store that cannot say what became of the request leaves the completion where it is, its logout applied. */
  lemma UnmatchedWaits(w: Work, o: Outcome, env: Env)
    requires Fresh(w, o) && env.decode == Ok && env.registered && env.match_.Refused?
    ensures var r := ConsumerModel.Step(w, env);
            && r.code == (if env.match_.code == Ok then Internal else env.match_.code) && r.work.owner == Some(o)
            && r.work.receipt.state == Empty && r.work.log == w.log + EffectActs(w.table, o) && r.work.table == Settled(w.table, o)
  {
    hide ApplyEffect;
    EffectStep(w, o);
  }

  /** Giving up is refused when there is nothing to give up, or when the completion is not the receipt's own. */
  lemma AbandonRefuses(w: Work, env: Env)
    ensures w.receipt.state == Empty && w.owner.None? ==> Abandon(w, env) == Res(NotFound, w)
    ensures w.owner.Some? && w.receipt.state != Empty && w.receipt.meta != w.owner.value.meta ==> Abandon(w, env) == Res(InvalidArgument, w)
    ensures w.owner.Some? && (w.receipt.state == Empty || w.receipt.meta == w.owner.value.meta) && env.decode != Ok ==> Abandon(w, env) == Res(env.decode, w)
  {
    hide ApplyEffect, Abort;
  }
}
