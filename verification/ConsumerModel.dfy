/**
  The response consumer as a value: it takes one finished authentication task, applies a logout's
  effect, matches the client, reserves a handle, enqueues one response, binds the handle and
  refreshes the connection, keeping in a receipt whatever can no longer be undone. Each function
  below is one phase; `Env` says how every dependency answers during one call.
 */
module ConsumerModel {
  import opened Base
  import opened SessionModel

  datatype Command = Register | Login | Logout | Resume
  datatype Commitment = NotCommitted | Committed | Unknown
  datatype Status = StatusOk | StatusBusy | SessionExpired | AuthenticationFailed | OtherStatus(code: nat)

  datatype Request = Request(client: Lease, sequence: nat, instance: nat, operation: nat, deadline: nat)
  datatype Metadata = Metadata(request: Request, result: Code, suggested: Status)
  const NO_REQUEST := Request(NO_LEASE, 0, 0, 0, 0)
  const NO_META := Metadata(NO_REQUEST, Ok, StatusOk)

  /** A decoded completion. */
  datatype Outcome = Outcome(
    meta: Metadata, command: Command, commit: Commitment, resumeValidated: bool,
    user: nat, session: nat, issued: nat, expires: nat, logoutUser: nat, logoutSession: nat)

  /** A validated session resume. */
  predicate Resumes(o: Outcome)
  {
    o.command == Resume && o.resumeValidated
  }

  /** A completion that hands out a session handle. */
  predicate Grants(o: Outcome)
  {
    (o.command == Login && o.commit == Committed) || Resumes(o)
  }

  /** A logout that did, or may have, taken place. */
  predicate EffectDue(o: Outcome)
  {
    o.command == Logout && o.commit != NotCommitted
  }

  datatype State = Empty | NeedsEnqueue | NeedsBind | NeedsRefresh | Ready
  datatype Effect = Effect(meta: Metadata, user: nat, session: nat)

  datatype Receipt = Receipt(
    state: State, meta: Metadata, matched: Request, command: Option<Command>, wire: Status,
    ticket: Ticket, ticketPending: bool, effect: Option<Effect>)
  const BLANK := Receipt(Empty, NO_META, NO_REQUEST, None, StatusOk, NO_TICKET, false, None)

  /** What has happened, in order: effects, matches, frames handed to a client's FIFO, bindings. */
  datatype Act =
    | Revoked(instance: nat, session: nat, fence: nat)
    | Matched(instance: nat, effectDue: bool)
    | Framed(instance: nat, client: Lease, status: Status, handle: nat)

  /** Which completion bound the session a slot holds. */
  datatype Origin = Origin(instance: nat, resume: bool)

  /** One consumer: the shared table, its receipt and the completion it owns, with the history. */
  datatype Work = Work(table: Table, receipt: Receipt, owner: Option<Outcome>, log: seq<Act>, origins: map<nat, Origin>)
  datatype Res = Res(code: Code, work: Work)

  /** How the in-flight store answers: not at all, the client or request is gone, or it is a match. */
  datatype Match = Refused(code: Code) | Gone(clientGone: bool) | Matches

  datatype Env = Env(
    decode: Code, registered: bool, match_: Match, now: nat,
    readyToEnqueue: Code, inspect: Code, random: Option<nat>, encode: Code, enqueue: Code,
    readyToRefresh: Code, refresh: Code, destroy: Code)

  function Instance(o: Outcome): nat
  {
    o.meta.request.instance
  }

  // ---- Phases --------------------------------------------------------------------------------

  function EffectOf(o: Outcome): Effect
  {
    Effect(o.meta, o.logoutUser, o.logoutSession)
  }

  /** A logout takes effect for the whole service, once per completion. */
  function ApplyEffect(w: Work, o: Outcome): (r: Res)
  {
    if w.receipt.effect.Some? then Res(if w.receipt.effect.value == EffectOf(o) then Ok else InvalidArgument, w)
    else if !EffectDue(o) then Res(Ok, w)
    else
      var a := ApplyLogout(w.table, o.logoutSession);
      if a.code != Ok then Res(a.code, w)
      else Res(Ok, w.(table := a.table, receipt := w.receipt.(effect := Some(EffectOf(o))),
                      log := w.log + [Revoked(Instance(o), o.logoutSession, w.table.lastResume)]))
  }

  function DropTicket(w: Work): (r: Res)
  {
    var a := Abort(w.table, w.receipt.ticket);
    if a.code != Ok then Res(a.code, w)
    else Res(Ok, w.(table := a.table, receipt := w.receipt.(ticketPending := false, ticket := NO_TICKET)))
  }

  /** A resume still headed for success is checked against the cutoff and its own lifetime. */
  function Recheck(w: Work, o: Outcome, now: nat): (r: Res)
  {
    if !Resumes(o) || w.receipt.wire != StatusOk then Res(Ok, w)
    else
      var c := CheckResume(w.table, Instance(o));
      if c != Ok && c != Busy then Res(c, w)
      else
        var wire := if now < o.issued || now >= o.expires then AuthenticationFailed
                    else if c == Busy then StatusBusy else StatusOk;
        Res(Ok, w.(receipt := w.receipt.(wire := wire)))
  }

  function DropRefused(w: Work, o: Outcome): (r: Res)
  {
    if Resumes(o) && w.receipt.wire != StatusOk && w.receipt.ticketPending then DropTicket(w) else Res(Ok, w)
  }

  function DropExpired(w: Work, o: Outcome, now: nat): (r: Res)
  {
    if Grants(o) && !Resumes(o) && now >= o.expires then
      var d := if w.receipt.ticketPending then DropTicket(w) else Res(Ok, w);
      if d.code != Ok then d else Res(Ok, d.work.(receipt := d.work.receipt.(wire := SessionExpired)))
    else Res(Ok, w)
  }

  function Hold(w: Work, o: Outcome, env: Env): (r: Res)
  {
    if Grants(o) && w.receipt.wire == StatusOk && !w.receipt.ticketPending then
      var who := Identity(o.user, o.session, o.issued, o.expires, false);
      var a := Reserve(w.table, w.receipt.meta.request.client, who, env.inspect, env.random);
      if a.code != Ok then Res(a.code, w)
      else Res(Ok, w.(table := a.table, receipt := w.receipt.(ticket := a.ticket, ticketPending := true)))
    else Res(Ok, w)
  }

  function FrameFor(w: Work, o: Outcome): Act
  {
    Framed(Instance(o), w.receipt.meta.request.client, w.receipt.wire,
           if w.receipt.wire == StatusOk && Grants(o) then w.receipt.ticket.handle else 0)
  }

  /** A refused enqueue changes nothing; an accepted one is recorded before anything else can fail. */
  function EnqueueFrame(w: Work, o: Outcome, env: Env): (r: Res)
  {
    if env.encode != Ok then Res(env.encode, w)
    else if env.enqueue != Ok then Res(env.enqueue, w)
    else Res(Ok, w.(log := w.log + [FrameFor(w, o)],
                    receipt := w.receipt.(state := if w.receipt.ticketPending then NeedsBind else NeedsRefresh)))
  }

  function BindHandle(w: Work, o: Outcome): (r: Res)
  {
    var a := Commit(w.table, w.receipt.ticket);
    if a.code != Ok then Res(a.code, w)
    else Res(Ok, w.(table := a.table, receipt := w.receipt.(ticketPending := false, state := NeedsRefresh),
                    origins := w.origins[w.receipt.ticket.client.slot := Origin(Instance(o), Resumes(o))]))
  }

  function FinishRefresh(w: Work, env: Env): (r: Res)
  {
    if env.readyToRefresh != Ok then Res(env.readyToRefresh, w)
    else if env.refresh != Ok then Res(env.refresh, w)
    else Res(Ok, w.(receipt := w.receipt.(state := Ready)))
  }

  /** Everything that precedes and includes the enqueue. */
  function EnqueuePhase(w: Work, o: Outcome, env: Env): (r: Res)
  {
    if env.readyToEnqueue != Ok then Res(env.readyToEnqueue, w)
    else
      var a := Recheck(w, o, env.now); if a.code != Ok then a else
      var b := DropRefused(a.work, o); if b.code != Ok then b else
      var c := DropExpired(b.work, o, env.now); if c.code != Ok then c else
      var d := Hold(c.work, o, env); if d.code != Ok then d else
      EnqueueFrame(d.work, o, env)
  }

  function SendResult(w: Work, o: Outcome, env: Env): (r: Res)
  {
    var a := if w.receipt.state == NeedsEnqueue then EnqueuePhase(w, o, env) else Res(Ok, w); if a.code != Ok then a else
    var b := if a.work.receipt.state == NeedsBind then BindHandle(a.work, o) else a; if b.code != Ok then b else
    if b.work.receipt.state == NeedsRefresh then FinishRefresh(b.work, env) else b
  }

  /** The match is recorded before any step that can fail. */
  function AcceptMatch(w: Work, o: Outcome): Work
  {
    w.(receipt := w.receipt.(state := NeedsEnqueue, meta := o.meta, matched := o.meta.request, command := Some(o.command), wire := o.meta.suggested),
       log := w.log + [Matched(Instance(o), EffectDue(o))])
  }

  function DestroyOwner(w: Work, answer: Code): (r: Res)
  {
    if w.owner.Some? && answer != Ok then Res(answer, w) else Res(Ok, w.(owner := None))
  }

  function ForgetGone(w: Work, o: Outcome, clientGone: bool): Work
  {
    if clientGone then w.(table := Forget(w.table, o.meta.request.client).table) else w
  }

  function Consume(w: Work, o: Outcome, env: Env): (r: Res)
  {
    match env.match_
    case Refused(code) => Res(if code == Ok then Internal else code, w)
    case Gone(clientGone) =>
      var d := DestroyOwner(w, env.destroy);
      if d.code != Ok then d else Res(Ok, ForgetGone(d.work, o, clientGone).(receipt := BLANK))
    case Matches =>
      var s := SendResult(AcceptMatch(w, o), o, env);
      if s.code != Ok then s else DestroyOwner(s.work, env.destroy)
  }

  /** A wire status the consumer can have chosen for this completion. */
  predicate WireFor(o: Outcome, wire: Status)
  {
    || wire == o.meta.suggested
    || (o.command == Login && wire == SessionExpired)
    || (Resumes(o) && (wire == StatusBusy || wire == AuthenticationFailed))
  }

  predicate Consistent(r: Receipt, o: Outcome)
  {
    r.meta == o.meta && r.matched == o.meta.request && r.command == Some(o.command) && WireFor(o, r.wire)
  }

  /** One call of the consumer. */
  function Step(w: Work, env: Env): (r: Res)
  {
    if w.receipt.state == Ready then Res(if w.owner.None? then Ok else Busy, w)
    else if w.owner.None? then Res(NotFound, w)
    else if env.decode != Ok then Res(env.decode, w)
    else if !env.registered then Res(InvalidArgument, w)
    else
      var o := w.owner.value;
      var e := ApplyEffect(w, o); if e.code != Ok then e else
      if w.receipt.state == Empty then
        if w.receipt.command.Some? || w.receipt.ticketPending || w.receipt.ticket.serial != 0 || w.receipt.meta.request.instance != 0
        then Res(InvalidArgument, e.work)
        else Consume(e.work, o, env)
      else if !Consistent(e.work.receipt, o) then Res(InvalidArgument, e.work)
      else
        var s := SendResult(e.work, o, env);
        if s.code != Ok then s else DestroyOwner(s.work, env.destroy)
  }

  function Acknowledge(w: Work): (r: Res)
  {
    if w.owner.Some? || w.receipt.state != Ready then Res(Busy, w) else Res(Ok, w.(receipt := BLANK))
  }

  /** Giving up still applies a due effect, and never leaves a reservation behind. */
  function AbandonTicket(w: Work): Work
  {
    if w.receipt.ticketPending
    then w.(table := Abort(w.table, w.receipt.ticket).table, receipt := w.receipt.(ticketPending := false))
    else w
  }

  function Abandon(w: Work, env: Env): (r: Res)
  {
    if w.receipt.state == Empty && w.owner.None? then Res(NotFound, w)
    else
      var e := if w.owner.None? then Res(Ok, w)
               else if w.receipt.state != Empty && w.receipt.meta != w.owner.value.meta then Res(InvalidArgument, w)
               else if env.decode != Ok then Res(env.decode, w)
               else ApplyEffect(w, w.owner.value);
      if e.code != Ok then e else
      var t := if e.work.receipt.ticketPending then Abort(e.work.table, e.work.receipt.ticket).code else Ok;
      if t != Ok && t != NotFound then Res(t, e.work) else
      var d := DestroyOwner(AbandonTicket(e.work), env.destroy);
      if d.code != Ok then d else Res(Ok, d.work.(receipt := BLANK))
  }
}
