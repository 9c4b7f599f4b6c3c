/**
  Any number of consumers sharing one session table, driven by arbitrary failure schedules, with
  clients and resumes coming and going in between: what holds after every step of every run.
 */
module ConsumerRuns {
  import opened Base
  import opened SessionModel
  import opened ConsumerModel

  datatype Cell = Cell(receipt: Receipt, owner: Option<Outcome>)

  /** `arrived` holds every completion that ever arrived and `seen` their request instances. */
  datatype Sys = Sys(table: Table, cells: seq<Cell>, log: seq<Act>, origins: map<nat, Origin>, seen: set<nat>, arrived: set<Outcome>)

  function WorkOf(s: Sys, k: nat): Work
    requires k < |s.cells|
  {
    Work(s.table, s.cells[k].receipt, s.cells[k].owner, s.log, s.origins)
  }

  function Put(s: Sys, k: nat, w: Work): Sys
    requires k < |s.cells|
  {
    Sys(w.table, s.cells[k := Cell(w.receipt, w.owner)], w.log, w.origins, s.seen, s.arrived)
  }

  // ---- What the log says ---------------------------------------------------------------------

  ghost predicate FrameSent(log: seq<Act>, instance: nat)
  {
    exists i :: 0 <= i < |log| && log[i].Framed? && log[i].instance == instance
  }

  /** A success frame carrying `handle` was enqueued to `client`. */
  ghost predicate HandleSent(log: seq<Act>, client: Lease, handle: nat)
  {
    exists i :: 0 <= i < |log| && log[i].Framed? && log[i].client == client && log[i].handle == handle && log[i].status == StatusOk
  }

  ghost predicate EffectLogged(log: seq<Act>, instance: nat)
  {
    exists i :: 0 <= i < |log| && log[i].Revoked? && log[i].instance == instance
  }

  /** At most one frame and one logout effect per completion, and no match of a logout before its effect. */
  ghost predicate LogOk(log: seq<Act>, seen: set<nat>)
  {
    && (forall i, j :: 0 <= i < j < |log| && log[i].Framed? && log[j].Framed? ==> log[i].instance != log[j].instance)
    && (forall i, j :: 0 <= i < j < |log| && log[i].Revoked? && log[j].Revoked? ==> log[i].instance != log[j].instance)
    && (forall i :: 0 <= i < |log| && log[i].Matched? && log[i].effectDue ==> EffectLogged(log[..i], log[i].instance))
    && (forall i :: 0 <= i < |log| ==> log[i].instance in seen)
  }

  // ---- What each consumer holds --------------------------------------------------------------

  ghost predicate CellOk(c: Cell, serial: nat, log: seq<Act>, seen: set<nat>)
  {
    var r := c.receipt;
    && (c.owner.Some? ==> Instance(c.owner.value) in seen)
    && r.ticket.serial <= serial
    && (r.state in {NeedsEnqueue, NeedsBind, NeedsRefresh} ==> c.owner.Some? && r.meta == c.owner.value.meta)
    && (r.state == Empty ==> r.ticket == NO_TICKET && !r.ticketPending)
    && (r.state == NeedsEnqueue ==> WireFor(c.owner.value, r.wire))
    && (r.ticketPending ==>
          && r.state in {NeedsEnqueue, NeedsBind} && Grants(c.owner.value) && r.ticket.serial != 0
          && r.ticket.client == r.meta.request.client
          && (r.state == NeedsEnqueue && !Resumes(c.owner.value) ==> r.wire == StatusOk))
    && (r.state == NeedsBind ==> HandleSent(log, r.ticket.client, r.ticket.handle))
    && (c.owner.Some? && !(r.state in {NeedsBind, NeedsRefresh, Ready} && r.meta == c.owner.value.meta) ==>
          !FrameSent(log, Instance(c.owner.value)))
    && (c.owner.Some? && EffectLogged(log, Instance(c.owner.value)) ==> r.effect == Some(EffectOf(c.owner.value)))
    && (r.effect.Some? ==> EffectLogged(log, r.effect.value.meta.request.instance))
  }

  ghost predicate CellsOk(s: Sys)
  {
    forall k :: 0 <= k < |s.cells| ==> CellOk(s.cells[k], s.table.serial, s.log, s.seen)
  }

  /** Completions are owned once, and no two receipts name the same reservation. */
  ghost predicate Apart(cells: seq<Cell>)
  {
    && (forall j, k :: 0 <= j < k < |cells| && cells[j].owner.Some? && cells[k].owner.Some? ==>
          Instance(cells[j].owner.value) != Instance(cells[k].owner.value))
    && (forall j, k :: 0 <= j < k < |cells| && cells[j].receipt.ticket.serial != 0 ==>
          cells[j].receipt.ticket.serial != cells[k].receipt.ticket.serial)
  }

  ghost predicate HeldBy(cells: seq<Cell>, ticket: Ticket)
  {
    exists k :: 0 <= k < |cells| && cells[k].receipt.ticketPending && cells[k].receipt.ticket == ticket
  }

  /** Every pending reservation is some receipt's to settle. */
  ghost predicate Owned(slots: seq<Slot>, cells: seq<Cell>)
  {
    forall i :: 0 <= i < |slots| && slots[i].pending ==> HeldBy(cells, slots[i].ticket)
  }

  /** A bound handle was first sent to its client. */
  ghost predicate Visible(slots: seq<Slot>, log: seq<Act>)
  {
    forall i :: 0 <= i < |slots| && slots[i].active ==> HandleSent(log, slots[i].client, slots[i].handle)
  }

  // ---- The fence -----------------------------------------------------------------------------

  /** Slot `i` gives access to `session`. */
  predicate Open(slots: seq<Slot>, i: nat, session: nat)
  {
    i < |slots| && slots[i].active && slots[i].identity.session == session && !slots[i].identity.revoked
  }

  /** The consumer has a live, unrevoked reservation of `session` made by a resume. */
  predicate ResumeHolds(c: Cell, t: Table, session: nat)
  {
    && c.receipt.ticketPending && c.owner.Some? && Resumes(c.owner.value)
    && FindTicket(t, c.receipt.ticket) == Ok
    && t.slots[c.receipt.ticket.client.slot].candidate.session == session
    && !t.slots[c.receipt.ticket.client.slot].candidate.revoked
  }

  ghost predicate FencedAt(s: Sys, session: nat, fence: nat)
  {
    && fence <= s.table.cutoff
    && (forall i :: Open(s.table.slots, i, session) ==> i in s.origins && (s.origins[i].resume ==> s.origins[i].instance > fence))
    && (forall k :: 0 <= k < |s.cells| && ResumeHolds(s.cells[k], s.table, session) ==> Instance(s.cells[k].owner.value) > fence)
  }

  ghost predicate Fenced(s: Sys)
  {
    forall i :: 0 <= i < |s.log| && s.log[i].Revoked? ==> FencedAt(s, s.log[i].session, s.log[i].fence)
  }

  ghost predicate Traced(s: Sys)
  {
    forall i :: 0 <= i < |s.table.slots| && s.table.slots[i].active ==> i in s.origins
  }

  // ---- Where identities and frames come from -------------------------------------------------

  /** The identity a completion grants. */
  function Granted(o: Outcome): Identity
  {
    Identity(o.user, o.session, o.issued, o.expires, false)
  }

  /** `o` is the completion whose handle slot `i` is bound to. */
  predicate BoundBy(slot: Slot, i: nat, origins: map<nat, Origin>, o: Outcome)
  {
    && Grants(o) && o.meta.request.client == slot.client && slot.identity.(revoked := false) == Granted(o)
    && i in origins && origins[i] == Origin(Instance(o), Resumes(o))
  }

  /** A receipt's live reservation is for the identity its own completion grants. */
  predicate HoldsOwn(c: Cell, t: Table)
  {
    c.receipt.ticketPending && c.owner.Some? && FindTicket(t, c.receipt.ticket) == Ok
    ==> t.slots[c.receipt.ticket.client.slot].candidate.(revoked := false) == Granted(c.owner.value)
  }

  /** `o` is the completion frame `a` answers. */
  predicate AnswerTo(a: Act, o: Outcome)
    requires a.Framed?
  {
    && a.instance == Instance(o) && a.client == o.meta.request.client && WireFor(o, a.status)
    && (a.handle != 0 ==> Grants(o) && a.status == StatusOk)
  }

  ghost predicate BoundSourced(s: Sys, i: nat)
    requires i < |s.table.slots|
  {
    exists o :: o in s.arrived && BoundBy(s.table.slots[i], i, s.origins, o)
  }

  ghost predicate FrameSourced(a: Act, arrived: set<Outcome>)
    requires a.Framed?
  {
    exists o :: o in arrived && AnswerTo(a, o)
  }

  ghost predicate Sourced(s: Sys)
  {
    && (forall k :: 0 <= k < |s.cells| && s.cells[k].owner.Some? ==> s.cells[k].owner.value in s.arrived)
    && (forall k :: 0 <= k < |s.cells| ==> HoldsOwn(s.cells[k], s.table))
    && (forall i :: 0 <= i < |s.table.slots| && s.table.slots[i].active ==> BoundSourced(s, i))
    && (forall i :: 0 <= i < |s.log| && s.log[i].Framed? ==> FrameSourced(s.log[i], s.arrived))
  }

  ghost predicate Inv(s: Sys)
  {
    && TableInv(s.table) && LogOk(s.log, s.seen) && CellsOk(s) && Apart(s.cells)
    && Owned(s.table.slots, s.cells) && Visible(s.table.slots, s.log) && Fenced(s) && Traced(s) && Sourced(s)
  }

  ghost predicate Initial(s: Sys)
  {
    && InitialTable(s.table) && s.log == [] && s.origins == map[] && s.arrived == {}
    && forall k :: 0 <= k < |s.cells| ==> s.cells[k] == Cell(BLANK, None)
  }

  lemma InitialInv(s: Sys)
    requires Initial(s)
    ensures Inv(s)
  {
  }

  // ---- Three kinds of harmless change --------------------------------------------------------

  /** The table lost or revoked something but gained nothing. */
  ghost predicate Weaker(t: Table, u: Table)
  {
    && |u.slots| == |t.slots| && u.serial == t.serial && t.cutoff <= u.cutoff
    && forall i :: 0 <= i < |t.slots| ==> WeakerSlot(t.slots[i], u.slots[i])
  }

  ghost predicate WeakerSlot(a: Slot, b: Slot)
  {
    && (b.pending ==> a.pending && b.ticket == a.ticket && b.client == a.client
                      && b.candidate == a.candidate.(revoked := b.candidate.revoked) && (a.candidate.revoked ==> b.candidate.revoked))
    && (b.active ==> a.active && b.handle == a.handle && b.client == a.client
                     && b.identity == a.identity.(revoked := b.identity.revoked) && (a.identity.revoked ==> b.identity.revoked))
  }

  lemma WeakenFence(s: Sys, u: Table, session: nat, fence: nat)
    requires FencedAt(s, session, fence) && Weaker(s.table, u)
    ensures FencedAt(s.(table := u), session, fence)
  {
    forall k | 0 <= k < |s.cells| && ResumeHolds(s.cells[k], u, session)
      ensures Instance(s.cells[k].owner.value) > fence
    {
      assert ResumeHolds(s.cells[k], s.table, session);
    }
    forall i: nat | Open(u.slots, i, session)
      ensures i in s.origins && (s.origins[i].resume ==> s.origins[i].instance > fence)
    {
      assert Open(s.table.slots, i, session);
    }
  }

  lemma WeakenSourced(s: Sys, u: Table)
    requires Sourced(s) && Weaker(s.table, u)
    ensures Sourced(s.(table := u))
  {
    var d := s.(table := u);
    forall k | 0 <= k < |d.cells| ensures HoldsOwn(d.cells[k], u) {
      assert HoldsOwn(s.cells[k], s.table);
    }
    forall i | 0 <= i < |u.slots| && u.slots[i].active ensures BoundSourced(d, i) {
      assert BoundSourced(s, i);
      var o :| o in s.arrived && BoundBy(s.table.slots[i], i, s.origins, o);
      assert BoundBy(u.slots[i], i, d.origins, o);
    }
  }

  lemma Weaken(s: Sys, u: Table)
    requires Inv(s) && Weaker(s.table, u) && TableInv(u)
    ensures Inv(s.(table := u))
  {
    WeakenSourced(s, u);
    hide Sourced, TableInv, LogOk, Apart, CellOk, FencedAt, HandleSent, HeldBy;
    var d := s.(table := u);
    forall i | 0 <= i < |d.log| && d.log[i].Revoked?
      ensures FencedAt(d, d.log[i].session, d.log[i].fence)
    {
      WeakenFence(s, u, d.log[i].session, d.log[i].fence);
    }
  }

  /** A consumer let go of something: its completion, its ticket, or nothing at all. */
  ghost predicate Looser(c: Cell, d: Cell)
  {
    && (d.owner == c.owner || d.owner.None?)
    && (d.receipt.ticket == c.receipt.ticket || d.receipt.ticket == NO_TICKET)
    && (d.receipt.ticketPending ==> c.receipt.ticketPending && d.receipt.ticket == c.receipt.ticket && d.owner == c.owner)
  }

  ghost predicate NotPending(slots: seq<Slot>, ticket: Ticket)
  {
    forall i :: 0 <= i < |slots| && slots[i].pending ==> slots[i].ticket != ticket
  }

  lemma LoosenOwned(s: Sys, k: nat, d: Cell)
    requires k < |s.cells| && Owned(s.table.slots, s.cells) && Looser(s.cells[k], d)
    requires s.cells[k].receipt.ticketPending && !d.receipt.ticketPending ==> NotPending(s.table.slots, s.cells[k].receipt.ticket)
    ensures Owned(s.table.slots, s.cells[k := d])
  {
    var cells := s.cells[k := d];
    forall i | 0 <= i < |s.table.slots| && s.table.slots[i].pending
      ensures HeldBy(cells, s.table.slots[i].ticket)
    {
      var j :| 0 <= j < |s.cells| && s.cells[j].receipt.ticketPending && s.cells[j].receipt.ticket == s.table.slots[i].ticket;
      assert cells[j].receipt.ticketPending && cells[j].receipt.ticket == s.table.slots[i].ticket;
    }
  }

  lemma LoosenFence(s: Sys, k: nat, d: Cell, session: nat, fence: nat)
    requires k < |s.cells| && Looser(s.cells[k], d) && FencedAt(s, session, fence)
    ensures FencedAt(s.(cells := s.cells[k := d]), session, fence)
  {
    var t := s.(cells := s.cells[k := d]);
    forall j | 0 <= j < |t.cells| && ResumeHolds(t.cells[j], t.table, session)
      ensures Instance(t.cells[j].owner.value) > fence
    {
      assert ResumeHolds(s.cells[j], s.table, session);
    }
    forall i: nat | Open(t.table.slots, i, session)
      ensures i in t.origins && (t.origins[i].resume ==> t.origins[i].instance > fence)
    {
      assert Open(s.table.slots, i, session);
    }
  }

  lemma LoosenSourced(s: Sys, k: nat, d: Cell)
    requires Sourced(s) && k < |s.cells| && Looser(s.cells[k], d)
    ensures Sourced(s.(cells := s.cells[k := d]))
  {
    hide FindTicket, BoundBy, AnswerTo;
    var t := s.(cells := s.cells[k := d]);
    forall j | 0 <= j < |t.cells| ensures HoldsOwn(t.cells[j], t.table) {
      assert HoldsOwn(s.cells[j], s.table);
    }
    forall i | 0 <= i < |t.table.slots| && t.table.slots[i].active ensures BoundSourced(t, i) {
      assert BoundSourced(s, i);
    }
  }

  lemma Loosen(s: Sys, k: nat, d: Cell)
    requires Inv(s) && k < |s.cells| && Looser(s.cells[k], d)
    requires CellOk(d, s.table.serial, s.log, s.seen)
    requires s.cells[k].receipt.ticketPending && !d.receipt.ticketPending ==> NotPending(s.table.slots, s.cells[k].receipt.ticket)
    ensures Inv(s.(cells := s.cells[k := d]))
  {
    hide TableInv, LogOk, CellOk, FencedAt, Visible, Owned, Sourced;
    LoosenSourced(s, k, d);
    var t := s.(cells := s.cells[k := d]);
    LoosenOwned(s, k, d);
    forall i | 0 <= i < |t.log| && t.log[i].Revoked?
      ensures FencedAt(t, t.log[i].session, t.log[i].fence)
    {
      LoosenFence(s, k, d, t.log[i].session, t.log[i].fence);
    }
  }

  // ---- Each phase keeps the invariant --------------------------------------------------------

  lemma LogPrefix(log: seq<Act>, act: Act, i: nat)
    requires i <= |log|
    ensures (log + [act])[..i] == log[..i]
  {
  }

  /** A longer log says at least as much, and says new things only about the act added. */
  lemma Appended(log: seq<Act>, act: Act)
    ensures forall n :: FrameSent(log + [act], n) <==> FrameSent(log, n) || (act.Framed? && act.instance == n)
    ensures forall n :: EffectLogged(log + [act], n) <==> EffectLogged(log, n) || (act.Revoked? && act.instance == n)
    ensures forall c, h :: HandleSent(log, c, h) ==> HandleSent(log + [act], c, h)
    ensures act.Framed? && act.status == StatusOk ==> HandleSent(log + [act], act.client, act.handle)
  {
    var more := log + [act];
    forall n | FrameSent(log, n) ensures FrameSent(more, n) {
      var i :| 0 <= i < |log| && log[i].Framed? && log[i].instance == n;
      assert more[i] == log[i];
    }
    forall n | EffectLogged(log, n) ensures EffectLogged(more, n) {
      var i :| 0 <= i < |log| && log[i].Revoked? && log[i].instance == n;
      assert more[i] == log[i];
    }
    forall c, h | HandleSent(log, c, h) ensures HandleSent(more, c, h) {
      var i :| 0 <= i < |log| && log[i].Framed? && log[i].client == c && log[i].handle == h && log[i].status == StatusOk;
      assert more[i] == log[i];
    }
    assert more[|log|] == act;
  }

  lemma AppendLogOk(log: seq<Act>, act: Act, seen: set<nat>)
    requires LogOk(log, seen) && act.instance in seen
    requires act.Framed? ==> !FrameSent(log, act.instance)
    requires act.Revoked? ==> !EffectLogged(log, act.instance)
    requires act.Matched? && act.effectDue ==> EffectLogged(log, act.instance)
    ensures LogOk(log + [act], seen)
  {
    var more := log + [act];
    forall i | 0 <= i < |more| && more[i].Matched? && more[i].effectDue
      ensures EffectLogged(more[..i], more[i].instance)
    {
      LogPrefix(log, act, i);
      if i == |log| { assert more[..i] == log; }
    }
    assert forall i :: 0 <= i < |log| ==> more[i] == log[i];
  }

  /** The log grew by an act that concerns no frame or effect another consumer cares about. */
  lemma CellKeepsUp(c: Cell, serial: nat, log: seq<Act>, act: Act, seen: set<nat>)
    requires CellOk(c, serial, log, seen)
    requires c.owner.Some? && (act.Framed? || act.Revoked?) ==> Instance(c.owner.value) != act.instance
    ensures CellOk(c, serial, log + [act], seen)
  {
    hide FrameSent, HandleSent, EffectLogged;
    Appended(log, act);
  }

  lemma VisibleKeepsUp(slots: seq<Slot>, log: seq<Act>, act: Act)
    requires Visible(slots, log)
    ensures Visible(slots, log + [act])
  {
    hide HandleSent;
    Appended(log, act);
  }

  /** Growing the log while changing one consumer: everyone else keeps up. */
  lemma GrowLog(s: Sys, k: nat, act: Act, d: Cell)
    requires Inv(s) && k < |s.cells| && Looser(s.cells[k], d) && d.owner == s.cells[k].owner
    requires d.receipt.ticketPending == s.cells[k].receipt.ticketPending
    requires s.cells[k].owner.Some? && act.instance == Instance(s.cells[k].owner.value)
    requires CellOk(d, s.table.serial, s.log + [act], s.seen)
    requires LogOk(s.log + [act], s.seen)
    requires act.Revoked? ==> FencedAt(s, act.session, act.fence)
    requires act.Framed? ==> FrameSourced(act, s.arrived)
    ensures Inv(s.(cells := s.cells[k := d], log := s.log + [act]))
  {
    hide TableInv, LogOk, CellOk, FencedAt, Visible, Owned, Sourced;
    LoosenSourced(s, k, d);
    LogSourced(s.(cells := s.cells[k := d]), act);
    var t := s.(cells := s.cells[k := d], log := s.log + [act]);
    forall j | 0 <= j < |t.cells| ensures CellOk(t.cells[j], t.table.serial, t.log, t.seen) {
      if j != k { CellKeepsUp(s.cells[j], s.table.serial, s.log, act, s.seen); }
    }
    VisibleKeepsUp(s.table.slots, s.log, act);
    LoosenOwned(s, k, d);
    forall i | 0 <= i < |t.log| && t.log[i].Revoked?
      ensures FencedAt(t, t.log[i].session, t.log[i].fence)
    {
      LoosenFence(s, k, d, t.log[i].session, t.log[i].fence);
      FenceIgnoresLog(s.(cells := s.cells[k := d]), t.log, t.log[i].session, t.log[i].fence);
    }
  }

  lemma LogSourced(s: Sys, act: Act)
    requires Sourced(s) && (act.Framed? ==> FrameSourced(act, s.arrived))
    ensures Sourced(s.(log := s.log + [act]))
  {
    hide FindTicket, BoundBy, FrameSourced;
    var t := s.(log := s.log + [act]);
    forall i | 0 <= i < |t.table.slots| && t.table.slots[i].active ensures BoundSourced(t, i) {
      assert BoundSourced(s, i);
    }
  }

  lemma FenceIgnoresLog(s: Sys, log: seq<Act>, session: nat, fence: nat)
    requires FencedAt(s, session, fence)
    ensures FencedAt(s.(log := log), session, fence)
  {
  }

  lemma LogoutWeakens(t: Table, session: nat)
    requires TableInv(t) && session != 0
    ensures Weaker(t, ApplyLogout(t, session).table) && TableInv(ApplyLogout(t, session).table)
    ensures ApplyLogout(t, session).code == Ok && ApplyLogout(t, session).table.cutoff == t.lastResume
    ensures var slots := ApplyLogout(t, session).table.slots;
            forall i :: 0 <= i < |slots| ==>
              && (slots[i].active && slots[i].identity.session == session ==> slots[i].identity.revoked)
              && (slots[i].pending && slots[i].candidate.session == session ==> slots[i].candidate.revoked)
  {
    hide HandlesDistinct, SlotInv;
    SessionModel.StepInv(t, DoLogout(session));
    if !exists i :: 0 <= i < |t.slots| && Concerns(t.slots[i], session) {
      assert forall i :: 0 <= i < |t.slots| ==> !Concerns(t.slots[i], session);
    }
  }

  /** A logout's effect: the session is revoked everywhere and the fence raised, before anything else happens to the completion. */
  lemma EffectInv(s: Sys, k: nat)
    requires Inv(s) && k < |s.cells| && s.cells[k].owner.Some?
    ensures Inv(Put(s, k, ApplyEffect(WorkOf(s, k), s.cells[k].owner.value).work))
  {
    var o := s.cells[k].owner.value;
    var r := ApplyEffect(WorkOf(s, k), o);
    var t := Put(s, k, r.work);
    if r.work == WorkOf(s, k) {
      assert s.cells[k := s.cells[k]] == s.cells;
      assert t == s;
    } else {
      assert o.logoutSession != 0;
      hide Inv;
      EffectPhase(s, k, o);
    }
  }

  lemma EffectPhase(s: Sys, k: nat, o: Outcome)
    requires Inv(s) && k < |s.cells| && s.cells[k].owner == Some(o)
    requires s.cells[k].receipt.effect.None? && EffectDue(o) && o.logoutSession != 0
    ensures Inv(Put(s, k, ApplyEffect(WorkOf(s, k), o).work))
  {
    hide TableInv, FencedAt, Visible, Owned, Apart, ApplyLogout, Weaker, FrameSent, HandleSent;
    var r := ApplyEffect(WorkOf(s, k), o);
    LogoutWeakens(s.table, o.logoutSession);
    var u := s.(table := r.work.table);
    Weaken(s, r.work.table);
    var act := Revoked(Instance(o), o.logoutSession, s.table.lastResume);
    var d := Cell(r.work.receipt, Some(o));
    assert !EffectLogged(s.log, Instance(o));
    AppendLogOk(s.log, act, s.seen);
    Appended(s.log, act);
    EffectFences(s, o, u);
    assert CellOk(d, u.table.serial, s.log + [act], s.seen);
    GrowLog(u, k, act, d);
  }

  lemma EffectFences(s: Sys, o: Outcome, u: Sys)
    requires TableInv(s.table) && o.logoutSession != 0 && u == s.(table := ApplyLogout(s.table, o.logoutSession).table)
    ensures FencedAt(u, o.logoutSession, s.table.lastResume)
  {
    hide TableInv, ApplyLogout, Weaker;
    LogoutWeakens(s.table, o.logoutSession);
    forall k | 0 <= k < |u.cells| ensures !ResumeHolds(u.cells[k], u.table, o.logoutSession) {
    }
    forall i: nat ensures !Open(u.table.slots, i, o.logoutSession) {
    }
  }

  // -- Giving a reservation up

  lemma AbortWeakens(t: Table, ticket: Ticket)
    requires TableInv(t)
    ensures Weaker(t, Abort(t, ticket).table) && TableInv(Abort(t, ticket).table)
    ensures FindTicket(t, ticket) == NotFound || FindTicket(t, ticket) == Ok ==> NotPending(Abort(t, ticket).table.slots, ticket)
  {
    AbortInv(t, ticket);
    hide HandlesDistinct;
    var u := Abort(t, ticket).table;
    forall i | 0 <= i < |u.slots| && u.slots[i].pending ensures u.slots[i].ticket != ticket || FindTicket(t, ticket) !in {Ok, NotFound} {
      assert SlotInv(t.slots[i], i, t.serial);
    }
  }

  /** Aborting a receipt's ticket frees the slot; whatever the receipt then says about it, nothing stays pending for it. */
  lemma ReleaseInv(s: Sys, k: nat, d: Cell)
    requires Inv(s) && k < |s.cells| && Looser(s.cells[k], d) && !d.receipt.ticketPending
    requires CellOk(d, s.table.serial, s.log, s.seen)
    requires FindTicket(s.table, s.cells[k].receipt.ticket) in {Ok, NotFound}
    ensures Inv(s.(table := Abort(s.table, s.cells[k].receipt.ticket).table, cells := s.cells[k := d]))
  {
    hide TableInv, LogOk, CellsOk, CellOk, Fenced, Visible, Owned, Apart, Traced, Abort, FindTicket, Weaker, NotPending, Looser;
    AbortWeakens(s.table, s.cells[k].receipt.ticket);
    var u := s.(table := Abort(s.table, s.cells[k].receipt.ticket).table);
    Weaken(s, u.table);
    SameSerial(s.table, u.table);
    Loosen(u, k, d);
  }

  lemma SameSerial(t: Table, u: Table)
    requires Weaker(t, u)
    ensures u.serial == t.serial
  {
  }

  lemma SamePlace(s: Sys, k: nat)
    requires k < |s.cells|
    ensures Put(s, k, WorkOf(s, k)) == s
  {
    assert s.cells[k := s.cells[k]] == s.cells;
  }

  lemma DropInv(s: Sys, k: nat)
    requires Inv(s) && k < |s.cells| && s.cells[k].receipt.state == NeedsEnqueue && s.cells[k].receipt.ticketPending
    ensures Inv(Put(s, k, DropTicket(WorkOf(s, k)).work))
  {
    hide TableInv, LogOk, Fenced, Visible, Owned, Apart, Traced, Abort, FrameSent, HandleSent, EffectLogged;
    var w := WorkOf(s, k);
    var r := DropTicket(w);
    SamePlace(s, k);
    if r.code == Ok {
      AbortCode(s.table, w.receipt.ticket);
      ReleaseInv(s, k, Cell(r.work.receipt, w.owner));
    }
  }

  lemma AbortCode(t: Table, ticket: Ticket)
    ensures Abort(t, ticket).code == FindTicket(t, ticket)
  {
  }

  // -- Holding a reservation

  lemma WithWire(s: Sys, k: nat, wire: Status)
    requires Inv(s) && k < |s.cells| && s.cells[k].receipt.state == NeedsEnqueue
    requires Resumes(s.cells[k].owner.value) || !s.cells[k].receipt.ticketPending
    requires WireFor(s.cells[k].owner.value, wire)
    ensures Inv(Put(s, k, WorkOf(s, k).(receipt := s.cells[k].receipt.(wire := wire))))
  {
    hide TableInv, LogOk, Fenced, Visible, Owned, Apart, Traced, FrameSent, HandleSent, EffectLogged;
    Loosen(s, k, Cell(s.cells[k].receipt.(wire := wire), s.cells[k].owner));
  }

  lemma ReserveAdds(t: Table, client: Lease, who: Identity, inspect: Code, random: Option<nat>)
    requires TableInv(t) && Reserve(t, client, who, inspect, random).code == Ok
    ensures var r := Reserve(t, client, who, inspect, random);
            var k := client.slot;
            && TableInv(r.table) && r.table.serial == t.serial + 1 && r.table.cutoff == t.cutoff && |r.table.slots| == |t.slots| && k < |t.slots|
            && (forall i :: 0 <= i < |t.slots| && i != k ==> r.table.slots[i] == t.slots[i])
            && r.ticket.client == client && r.ticket.serial == t.serial + 1
            && r.table.slots[k].pending && r.table.slots[k].ticket == r.ticket && r.table.slots[k].candidate == who
            && (r.table.slots[k].active ==>
                  && t.slots[k].active && t.slots[k].client == client && r.table.slots[k].client == client
                  && r.table.slots[k].handle == t.slots[k].handle && r.table.slots[k].identity == t.slots[k].identity)
            && (forall x :: FindTicket(r.table, x) == Ok && x.serial != r.ticket.serial ==> FindTicket(t, x) == Ok && x.client.slot != k)
  {
    ReserveInv(t, client, who, inspect, random);
    hide HandlesDistinct, Collides;
  }

  lemma HoldInv(s: Sys, k: nat, env: Env)
    requires Inv(s) && k < |s.cells| && s.cells[k].receipt.state == NeedsEnqueue
    requires Resumes(s.cells[k].owner.value) && s.cells[k].receipt.wire == StatusOk ==>
               CheckResume(s.table, Instance(s.cells[k].owner.value)) == Ok
    ensures Inv(Put(s, k, Hold(WorkOf(s, k), s.cells[k].owner.value, env).work))
  {
    hide TableInv, LogOk, Fenced, Visible, Owned, Apart, Traced, Reserve, FrameSent, HandleSent, EffectLogged;
    var w := WorkOf(s, k);
    var o := s.cells[k].owner.value;
    SamePlace(s, k);
    if Hold(w, o, env).work != w {
      var who := Granted(o);
      HoldPhase(s, k, who, env.inspect, env.random);
    }
  }

  lemma HoldPhase(s: Sys, k: nat, who: Identity, inspect: Code, random: Option<nat>)
    requires Inv(s) && k < |s.cells| && s.cells[k].receipt.state == NeedsEnqueue && !s.cells[k].receipt.ticketPending
    requires Grants(s.cells[k].owner.value) && s.cells[k].receipt.wire == StatusOk && who == Granted(s.cells[k].owner.value)
    requires Resumes(s.cells[k].owner.value) ==> CheckResume(s.table, Instance(s.cells[k].owner.value)) == Ok
    requires Reserve(s.table, s.cells[k].receipt.meta.request.client, who, inspect, random).code == Ok
    ensures var r := Reserve(s.table, s.cells[k].receipt.meta.request.client, who, inspect, random);
            Inv(s.(table := r.table, cells := s.cells[k := Cell(s.cells[k].receipt.(ticket := r.ticket, ticketPending := true), s.cells[k].owner)]))
  {
    HoldSourced(s, k, who, inspect, random);
    hide Sourced, TableInv, LogOk, FencedAt, Reserve, FindTicket, HandleSent, FrameSent, EffectLogged;
    var client := s.cells[k].receipt.meta.request.client;
    var r := Reserve(s.table, client, who, inspect, random);
    ReserveAdds(s.table, client, who, inspect, random);
    var c := Cell(s.cells[k].receipt.(ticket := r.ticket, ticketPending := true), s.cells[k].owner);
    var t := s.(table := r.table, cells := s.cells[k := c]);
    HoldCells(s, k, who, inspect, random);
    HoldOwned(s, k, who, inspect, random);
    hide CellsOk, Owned;
    forall i | 0 <= i < |t.log| && t.log[i].Revoked? ensures FencedAt(t, t.log[i].session, t.log[i].fence) {
      HoldFence(s, k, who, inspect, random, t.log[i].session, t.log[i].fence);
    }
  }

  lemma HoldCells(s: Sys, k: nat, who: Identity, inspect: Code, random: Option<nat>)
    requires Inv(s) && k < |s.cells| && s.cells[k].receipt.state == NeedsEnqueue && !s.cells[k].receipt.ticketPending
    requires Grants(s.cells[k].owner.value) && s.cells[k].receipt.wire == StatusOk
    requires Reserve(s.table, s.cells[k].receipt.meta.request.client, who, inspect, random).code == Ok
    ensures var r := Reserve(s.table, s.cells[k].receipt.meta.request.client, who, inspect, random);
            var t := s.(table := r.table, cells := s.cells[k := Cell(s.cells[k].receipt.(ticket := r.ticket, ticketPending := true), s.cells[k].owner)]);
            CellsOk(t) && Apart(t.cells)
  {
    hide Sourced, TableInv, LogOk, Fenced, Owned, Visible, Traced, Reserve, FindTicket, HandleSent, FrameSent, EffectLogged;
    var client := s.cells[k].receipt.meta.request.client;
    var r := Reserve(s.table, client, who, inspect, random);
    ReserveAdds(s.table, client, who, inspect, random);
    var t := s.(table := r.table, cells := s.cells[k := Cell(s.cells[k].receipt.(ticket := r.ticket, ticketPending := true), s.cells[k].owner)]);
    forall j | 0 <= j < |t.cells| ensures CellOk(t.cells[j], t.table.serial, t.log, t.seen) {
      assert CellOk(s.cells[j], s.table.serial, s.log, s.seen);
    }
  }

  lemma HoldOwned(s: Sys, k: nat, who: Identity, inspect: Code, random: Option<nat>)
    requires Inv(s) && k < |s.cells| && s.cells[k].receipt.state == NeedsEnqueue && !s.cells[k].receipt.ticketPending
    requires Grants(s.cells[k].owner.value) && s.cells[k].receipt.wire == StatusOk
    requires Reserve(s.table, s.cells[k].receipt.meta.request.client, who, inspect, random).code == Ok
    ensures var r := Reserve(s.table, s.cells[k].receipt.meta.request.client, who, inspect, random);
            var t := s.(table := r.table, cells := s.cells[k := Cell(s.cells[k].receipt.(ticket := r.ticket, ticketPending := true), s.cells[k].owner)]);
            Owned(t.table.slots, t.cells)
  {
    hide Sourced, TableInv, LogOk, Fenced, Visible, Traced, Apart, CellsOk, Reserve, FindTicket;
    var client := s.cells[k].receipt.meta.request.client;
    var r := Reserve(s.table, client, who, inspect, random);
    ReserveAdds(s.table, client, who, inspect, random);
    var t := s.(table := r.table, cells := s.cells[k := Cell(s.cells[k].receipt.(ticket := r.ticket, ticketPending := true), s.cells[k].owner)]);
    forall i | 0 <= i < |t.table.slots| && t.table.slots[i].pending ensures HeldBy(t.cells, t.table.slots[i].ticket) {
      if i == client.slot {
        assert t.cells[k].receipt.ticketPending;
      } else {
        assert HeldBy(s.cells, s.table.slots[i].ticket);
        var j :| 0 <= j < |s.cells| && s.cells[j].receipt.ticketPending && s.cells[j].receipt.ticket == s.table.slots[i].ticket;
        assert t.cells[j] == s.cells[j];
      }
    }
  }

  lemma HoldSourced(s: Sys, k: nat, who: Identity, inspect: Code, random: Option<nat>)
    requires TableInv(s.table) && CellsOk(s) && Sourced(s) && k < |s.cells| && s.cells[k].owner.Some? && who == Granted(s.cells[k].owner.value)
    requires Reserve(s.table, s.cells[k].receipt.meta.request.client, who, inspect, random).code == Ok
    ensures var r := Reserve(s.table, s.cells[k].receipt.meta.request.client, who, inspect, random);
            Sourced(s.(table := r.table, cells := s.cells[k := Cell(s.cells[k].receipt.(ticket := r.ticket, ticketPending := true), s.cells[k].owner)]))
  {
    hide TableInv, Reserve, FrameSent, HandleSent, EffectLogged, FrameSourced;
    var client := s.cells[k].receipt.meta.request.client;
    var r := Reserve(s.table, client, who, inspect, random);
    ReserveAdds(s.table, client, who, inspect, random);
    var t := s.(table := r.table, cells := s.cells[k := Cell(s.cells[k].receipt.(ticket := r.ticket, ticketPending := true), s.cells[k].owner)]);
    forall j | 0 <= j < |t.cells| ensures HoldsOwn(t.cells[j], t.table) {
      if j != k {
        assert CellOk(s.cells[j], s.table.serial, s.log, s.seen);
        assert HoldsOwn(s.cells[j], s.table);
      }
    }
    forall i | 0 <= i < |t.table.slots| && t.table.slots[i].active ensures BoundSourced(t, i) {
      assert BoundSourced(s, i);
      var o :| o in s.arrived && BoundBy(s.table.slots[i], i, s.origins, o);
      assert BoundBy(t.table.slots[i], i, t.origins, o);
    }
  }

  lemma HoldFence(s: Sys, k: nat, who: Identity, inspect: Code, random: Option<nat>, session: nat, fence: nat)
    requires TableInv(s.table) && k < |s.cells| && CellsOk(s) && FencedAt(s, session, fence)
    requires s.cells[k].receipt.state == NeedsEnqueue && !s.cells[k].receipt.ticketPending
    requires Resumes(s.cells[k].owner.value) ==> CheckResume(s.table, Instance(s.cells[k].owner.value)) == Ok
    requires Reserve(s.table, s.cells[k].receipt.meta.request.client, who, inspect, random).code == Ok
    ensures var r := Reserve(s.table, s.cells[k].receipt.meta.request.client, who, inspect, random);
            FencedAt(s.(table := r.table, cells := s.cells[k := Cell(s.cells[k].receipt.(ticket := r.ticket, ticketPending := true), s.cells[k].owner)]), session, fence)
  {
    hide TableInv, Reserve, FrameSent, HandleSent, EffectLogged;
    var client := s.cells[k].receipt.meta.request.client;
    var r := Reserve(s.table, client, who, inspect, random);
    ReserveAdds(s.table, client, who, inspect, random);
    var t := s.(table := r.table, cells := s.cells[k := Cell(s.cells[k].receipt.(ticket := r.ticket, ticketPending := true), s.cells[k].owner)]);
    forall i: nat | Open(t.table.slots, i, session)
      ensures i in t.origins && (t.origins[i].resume ==> t.origins[i].instance > fence)
    {
      assert Open(s.table.slots, i, session);
    }
    forall j | 0 <= j < |t.cells| && ResumeHolds(t.cells[j], t.table, session)
      ensures Instance(t.cells[j].owner.value) > fence
    {
      if j != k {
        assert CellOk(s.cells[j], s.table.serial, s.log, s.seen);
        assert ResumeHolds(s.cells[j], s.table, session);
      }
    }
  }

  // -- Enqueueing, binding, refreshing

  lemma EnqueueInv(s: Sys, k: nat, env: Env)
    requires Inv(s) && k < |s.cells| && s.cells[k].receipt.state == NeedsEnqueue
    requires s.cells[k].receipt.ticketPending ==> s.cells[k].receipt.wire == StatusOk
    ensures Inv(Put(s, k, EnqueueFrame(WorkOf(s, k), s.cells[k].owner.value, env).work))
  {
    hide TableInv, Fenced, Visible, Owned, Apart, Traced, FrameSent, HandleSent, EffectLogged, LogOk;
    var w := WorkOf(s, k);
    var o := s.cells[k].owner.value;
    SamePlace(s, k);
    var r := EnqueueFrame(w, o, env);
    if r.work != w {
      var act := FrameFor(w, o);
      assert CellOk(s.cells[k], s.table.serial, s.log, s.seen);
      AppendLogOk(s.log, act, s.seen);
      Appended(s.log, act);
      GrowLog(s, k, act, Cell(r.work.receipt, w.owner));
    }
  }

  /** A commit that succeeds belongs to a receipt whose ticket is still pending. */
  lemma CommitIsOurs(s: Sys, k: nat)
    requires Inv(s) && k < |s.cells| && FindTicket(s.table, s.cells[k].receipt.ticket) == Ok
    ensures s.cells[k].receipt.ticketPending
    ensures s.table.slots[s.cells[k].receipt.ticket.client.slot].ticket == s.cells[k].receipt.ticket
  {
    hide LogOk, CellsOk, Fenced, Visible, Traced, HandlesDistinct;
    var ticket := s.cells[k].receipt.ticket;
    var i := ticket.client.slot;
    assert SlotInv(s.table.slots[i], i, s.table.serial);
    assert s.table.slots[i].ticket == ticket;
    var j :| 0 <= j < |s.cells| && s.cells[j].receipt.ticketPending && s.cells[j].receipt.ticket == ticket;
    assert j == k;
  }

  lemma CommitBinds(t: Table, ticket: Ticket)
    requires TableInv(t) && FindTicket(t, ticket) == Ok
    ensures var u, k := Commit(t, ticket).table, ticket.client.slot;
            && Commit(t, ticket).code == Ok && TableInv(u) && u.serial == t.serial && u.cutoff == t.cutoff && |u.slots| == |t.slots| && k < |t.slots|
            && (forall i :: 0 <= i < |t.slots| && i != k ==> u.slots[i] == t.slots[i])
            && !u.slots[k].pending && u.slots[k].active && u.slots[k].client == ticket.client && u.slots[k].handle == ticket.handle
            && u.slots[k].identity == t.slots[k].candidate
            && (forall x :: FindTicket(u, x) == Ok ==> FindTicket(t, x) == Ok && x.client.slot != k)
  {
    CommitInv(t, ticket);
    hide HandlesDistinct;
  }

  lemma BindInv(s: Sys, k: nat)
    requires Inv(s) && k < |s.cells| && s.cells[k].receipt.state == NeedsBind
    ensures Inv(Put(s, k, BindHandle(WorkOf(s, k), s.cells[k].owner.value).work))
  {
    hide TableInv, LogOk, FindTicket, HandleSent, FrameSent, EffectLogged, FencedAt;
    var w := WorkOf(s, k);
    var o := s.cells[k].owner.value;
    SamePlace(s, k);
    CommitCode(s.table, w.receipt.ticket);
    if FindTicket(s.table, w.receipt.ticket) == Ok {
      BindPhase(s, k);
    }
  }

  lemma CommitCode(t: Table, ticket: Ticket)
    ensures Commit(t, ticket).code == FindTicket(t, ticket)
  {
  }

  lemma BindPhase(s: Sys, k: nat)
    requires Inv(s) && k < |s.cells| && s.cells[k].receipt.state == NeedsBind
    requires FindTicket(s.table, s.cells[k].receipt.ticket) == Ok
    ensures Inv(Put(s, k, BindHandle(WorkOf(s, k), s.cells[k].owner.value).work))
  {
    BindSourced(s, k);
    hide Sourced, TableInv, LogOk, FindTicket, HandleSent, FrameSent, EffectLogged, FencedAt, Commit;
    var w := WorkOf(s, k);
    var o := s.cells[k].owner.value;
    CommitBinds(s.table, w.receipt.ticket);
    CommitIsOurs(s, k);
    var t := Put(s, k, BindHandle(w, o).work);
    var at := w.receipt.ticket.client.slot;
    assert CellOk(s.cells[k], s.table.serial, s.log, s.seen);
    forall j | 0 <= j < |t.cells| ensures CellOk(t.cells[j], t.table.serial, t.log, t.seen) {
      assert CellOk(s.cells[j], s.table.serial, s.log, s.seen);
    }
    forall i | 0 <= i < |t.table.slots| && t.table.slots[i].pending ensures HeldBy(t.cells, t.table.slots[i].ticket) {
      var j :| 0 <= j < |s.cells| && s.cells[j].receipt.ticketPending && s.cells[j].receipt.ticket == s.table.slots[i].ticket;
      PendingElsewhere(s, k, i, j);
      assert t.cells[j] == s.cells[j];
    }
    forall i | 0 <= i < |t.log| && t.log[i].Revoked? ensures FencedAt(t, t.log[i].session, t.log[i].fence) {
      BindFence(s, k, t.log[i].session, t.log[i].fence);
    }
  }

  lemma BindSourced(s: Sys, k: nat)
    requires Inv(s) && k < |s.cells| && s.cells[k].receipt.state == NeedsBind
    requires FindTicket(s.table, s.cells[k].receipt.ticket) == Ok
    ensures Sourced(Put(s, k, BindHandle(WorkOf(s, k), s.cells[k].owner.value).work))
  {
    hide TableInv, LogOk, HandleSent, FrameSent, EffectLogged, Commit, Owned, Visible, Apart, Fenced, FrameSourced;
    var w := WorkOf(s, k);
    var o := s.cells[k].owner.value;
    CommitBinds(s.table, w.receipt.ticket);
    CommitIsOurs(s, k);
    var t := Put(s, k, BindHandle(w, o).work);
    var at := w.receipt.ticket.client.slot;
    assert CellOk(s.cells[k], s.table.serial, s.log, s.seen) && HoldsOwn(s.cells[k], s.table);
    forall j | 0 <= j < |t.cells| ensures HoldsOwn(t.cells[j], t.table) {
      assert HoldsOwn(s.cells[j], s.table);
    }
    forall i | 0 <= i < |t.table.slots| && t.table.slots[i].active ensures BoundSourced(t, i) {
      if i == at {
        assert BoundBy(t.table.slots[i], i, t.origins, o);
      } else {
        assert BoundSourced(s, i);
        var p :| p in s.arrived && BoundBy(s.table.slots[i], i, s.origins, p);
        assert BoundBy(t.table.slots[i], i, t.origins, p);
      }
    }
  }

  lemma PendingElsewhere(s: Sys, k: nat, i: nat, j: nat)
    requires Inv(s) && k < |s.cells| && j < |s.cells| && i < |s.table.slots|
    requires FindTicket(s.table, s.cells[k].receipt.ticket) == Ok && i != s.cells[k].receipt.ticket.client.slot
    requires s.table.slots[i].pending && s.cells[j].receipt.ticket == s.table.slots[i].ticket
    ensures j != k
  {
    hide LogOk, CellsOk, Fenced, Visible, Traced, HandlesDistinct, Apart, Owned;
    assert SlotInv(s.table.slots[i], i, s.table.serial);
  }

  lemma BindFence(s: Sys, k: nat, session: nat, fence: nat)
    requires Inv(s) && k < |s.cells| && s.cells[k].receipt.state == NeedsBind && FencedAt(s, session, fence)
    requires FindTicket(s.table, s.cells[k].receipt.ticket) == Ok
    ensures FencedAt(Put(s, k, BindHandle(WorkOf(s, k), s.cells[k].owner.value).work), session, fence)
  {
    hide TableInv, LogOk, HandleSent, FrameSent, EffectLogged, Commit, Owned, Visible, Apart, Fenced;
    var w := WorkOf(s, k);
    var o := s.cells[k].owner.value;
    CommitBinds(s.table, w.receipt.ticket);
    CommitIsOurs(s, k);
    var t := Put(s, k, BindHandle(w, o).work);
    var at := w.receipt.ticket.client.slot;
    forall i: nat | Open(t.table.slots, i, session)
      ensures i in t.origins && (t.origins[i].resume ==> t.origins[i].instance > fence)
    {
      if i == at {
        if Resumes(o) { assert ResumeHolds(s.cells[k], s.table, session); }
      } else {
        assert Open(s.table.slots, i, session);
      }
    }
    forall j | 0 <= j < |t.cells| && ResumeHolds(t.cells[j], t.table, session)
      ensures Instance(t.cells[j].owner.value) > fence
    {
      assert ResumeHolds(s.cells[j], s.table, session);
    }
  }

  lemma RefreshInv(s: Sys, k: nat, env: Env)
    requires Inv(s) && k < |s.cells| && s.cells[k].receipt.state == NeedsRefresh
    ensures Inv(Put(s, k, FinishRefresh(WorkOf(s, k), env).work))
  {
    hide TableInv, LogOk, Fenced, Visible, Owned, Apart, Traced, FrameSent, HandleSent, EffectLogged;
    SamePlace(s, k);
    var w := FinishRefresh(WorkOf(s, k), env).work;
    Loosen(s, k, Cell(w.receipt, w.owner));
  }

  // -- Matching, destroying, clearing

  lemma MatchInv(s: Sys, k: nat)
    requires Inv(s) && k < |s.cells| && s.cells[k].receipt.state == Empty && s.cells[k].owner.Some?
    requires EffectDue(s.cells[k].owner.value) ==> s.cells[k].receipt.effect == Some(EffectOf(s.cells[k].owner.value))
    ensures Inv(Put(s, k, AcceptMatch(WorkOf(s, k), s.cells[k].owner.value)))
  {
    hide TableInv, Fenced, Visible, Owned, Apart, Traced, FrameSent, HandleSent, EffectLogged, LogOk;
    var o := s.cells[k].owner.value;
    var w := AcceptMatch(WorkOf(s, k), o);
    var act := Matched(Instance(o), EffectDue(o));
    assert CellOk(s.cells[k], s.table.serial, s.log, s.seen);
    AppendLogOk(s.log, act, s.seen);
    Appended(s.log, act);
    GrowLog(s, k, act, Cell(w.receipt, w.owner));
  }

  /** The completion is gone only from a receipt that no longer needs it. */
  lemma LetGoInv(s: Sys, k: nat, receipt: Receipt)
    requires Inv(s) && k < |s.cells| && (receipt == BLANK || (receipt == s.cells[k].receipt && receipt.state in {Empty, Ready}))
    requires s.cells[k].receipt.ticketPending ==> NotPending(s.table.slots, s.cells[k].receipt.ticket)
    ensures Inv(s.(cells := s.cells[k := Cell(receipt, None)]))
  {
    hide TableInv, LogOk, Fenced, Visible, Owned, Apart, Traced, FrameSent, HandleSent, EffectLogged;
    assert CellOk(s.cells[k], s.table.serial, s.log, s.seen);
    Loosen(s, k, Cell(receipt, None));
  }

  lemma ForgetWeakens(t: Table, client: Lease)
    requires TableInv(t)
    ensures Weaker(t, Forget(t, client).table) && TableInv(Forget(t, client).table)
  {
    ForgetInv(t, client);
    hide HandlesDistinct;
  }

  // ---- Each call keeps the invariant ---------------------------------------------------------

  lemma PutPut(s: Sys, k: nat, v: Work, w: Work)
    requires k < |s.cells|
    ensures Put(Put(s, k, v), k, w) == Put(s, k, w) && WorkOf(Put(s, k, v), k) == v
  {
  }

  /** A work is at `state` for completion `o`, and putting it back keeps the invariant. */
  ghost predicate At(s: Sys, k: nat, w: Work, o: Outcome, state: State)
  {
    k < |s.cells| && w.owner == Some(o) && w.receipt.state == state && Inv(Put(s, k, w))
  }

  lemma RecheckAt(s: Sys, k: nat, w: Work, o: Outcome, now: nat)
    requires At(s, k, w, o, NeedsEnqueue)
    ensures var r := Recheck(w, o, now);
            && At(s, k, r.work, o, NeedsEnqueue)
            && (r.code == Ok && Resumes(o) && r.work.receipt.wire == StatusOk ==> CheckResume(r.work.table, Instance(o)) == Ok)
  {
    hide Inv;
    PutPut(s, k, w, w);
    var r := Recheck(w, o, now);
    if r.work != w {
      WithWire(Put(s, k, w), k, r.work.receipt.wire);
      PutPut(s, k, w, r.work);
    }
  }

  lemma DropAt(s: Sys, k: nat, w: Work, o: Outcome)
    requires At(s, k, w, o, NeedsEnqueue) && w.receipt.ticketPending
    ensures var r := DropTicket(w);
            && At(s, k, r.work, o, NeedsEnqueue) && r.work.receipt.wire == w.receipt.wire
            && r.work.table.cutoff == w.table.cutoff && r.work.table.lastResume == w.table.lastResume
            && (r.code == Ok ==> !r.work.receipt.ticketPending)
  {
    hide Inv;
    PutPut(s, k, w, w);
    DropInv(Put(s, k, w), k);
    PutPut(s, k, w, DropTicket(w).work);
  }

  lemma DropRefusedAt(s: Sys, k: nat, w: Work, o: Outcome)
    requires At(s, k, w, o, NeedsEnqueue)
    requires Resumes(o) && w.receipt.wire == StatusOk ==> CheckResume(w.table, Instance(o)) == Ok
    ensures var r := DropRefused(w, o);
            && At(s, k, r.work, o, NeedsEnqueue) && r.work.receipt.wire == w.receipt.wire
            && (Resumes(o) && r.work.receipt.wire == StatusOk ==> CheckResume(r.work.table, Instance(o)) == Ok)
            && (r.code == Ok && Resumes(o) && r.work.receipt.ticketPending ==> r.work.receipt.wire == StatusOk)
  {
    hide At, DropTicket;
    if Resumes(o) && w.receipt.wire != StatusOk && w.receipt.ticketPending {
      DropAt(s, k, w, o);
    }
  }

  lemma PendingIsOk(s: Sys, k: nat, w: Work, o: Outcome)
    requires At(s, k, w, o, NeedsEnqueue) && w.receipt.ticketPending && !Resumes(o)
    ensures w.receipt.wire == StatusOk
  {
    hide TableInv, LogOk, Fenced, Visible, Owned, Apart, Traced, FrameSent, HandleSent, EffectLogged;
    assert CellOk(Put(s, k, w).cells[k], w.table.serial, w.log, s.seen);
  }

  lemma DropExpiredAt(s: Sys, k: nat, w: Work, o: Outcome, now: nat)
    requires At(s, k, w, o, NeedsEnqueue)
    requires Resumes(o) && w.receipt.ticketPending ==> w.receipt.wire == StatusOk
    requires Resumes(o) && w.receipt.wire == StatusOk ==> CheckResume(w.table, Instance(o)) == Ok
    ensures var r := DropExpired(w, o, now);
            && At(s, k, r.work, o, NeedsEnqueue)
            && (r.code == Ok && r.work.receipt.ticketPending ==> r.work.receipt.wire == StatusOk)
            && (Resumes(o) && r.work.receipt.wire == StatusOk ==> CheckResume(r.work.table, Instance(o)) == Ok)
  {
    if Grants(o) && !Resumes(o) && now >= o.expires {
      hide Inv, DropTicket;
      var d := if w.receipt.ticketPending then DropTicket(w) else Res(Ok, w);
      if w.receipt.ticketPending { DropAt(s, k, w, o); }
      if d.code == Ok {
        PutPut(s, k, d.work, d.work);
        WithWire(Put(s, k, d.work), k, SessionExpired);
        PutPut(s, k, d.work, d.work.(receipt := d.work.receipt.(wire := SessionExpired)));
      }
    } else if w.receipt.ticketPending && !Resumes(o) {
      PendingIsOk(s, k, w, o);
    }
  }

  lemma HoldAt(s: Sys, k: nat, w: Work, o: Outcome, env: Env)
    requires At(s, k, w, o, NeedsEnqueue)
    requires w.receipt.ticketPending ==> w.receipt.wire == StatusOk
    requires Resumes(o) && w.receipt.wire == StatusOk ==> CheckResume(w.table, Instance(o)) == Ok
    ensures var r := Hold(w, o, env);
            At(s, k, r.work, o, NeedsEnqueue) && (r.work.receipt.ticketPending ==> r.work.receipt.wire == StatusOk)
  {
    hide Inv, Reserve;
    PutPut(s, k, w, w);
    HoldInv(Put(s, k, w), k, env);
    PutPut(s, k, w, Hold(w, o, env).work);
  }

  lemma EnqueueAt(s: Sys, k: nat, w: Work, o: Outcome, env: Env)
    requires At(s, k, w, o, NeedsEnqueue) && (w.receipt.ticketPending ==> w.receipt.wire == StatusOk)
    ensures var r := EnqueueFrame(w, o, env); At(s, k, r.work, o, r.work.receipt.state)
  {
    hide Inv;
    PutPut(s, k, w, w);
    EnqueueInv(Put(s, k, w), k, env);
    PutPut(s, k, w, EnqueueFrame(w, o, env).work);
  }

  lemma EnqueuePhaseAt(s: Sys, k: nat, w: Work, o: Outcome, env: Env)
    requires At(s, k, w, o, NeedsEnqueue)
    ensures var r := EnqueuePhase(w, o, env); At(s, k, r.work, o, r.work.receipt.state)
  {
    hide At, Recheck, DropRefused, DropExpired, Hold, EnqueueFrame;
    AtState(s, k, w, o, NeedsEnqueue);
    if env.readyToEnqueue != Ok { return; }
    RecheckAt(s, k, w, o, env.now);
    var a := Recheck(w, o, env.now);
    AtState(s, k, a.work, o, NeedsEnqueue);
    if a.code != Ok { return; }
    DropRefusedAt(s, k, a.work, o);
    var b := DropRefused(a.work, o);
    AtState(s, k, b.work, o, NeedsEnqueue);
    if b.code != Ok { return; }
    DropExpiredAt(s, k, b.work, o, env.now);
    var c := DropExpired(b.work, o, env.now);
    AtState(s, k, c.work, o, NeedsEnqueue);
    if c.code != Ok { return; }
    HoldAt(s, k, c.work, o, env);
    var d := Hold(c.work, o, env);
    AtState(s, k, d.work, o, NeedsEnqueue);
    if d.code != Ok { return; }
    EnqueueAt(s, k, d.work, o, env);
  }

  lemma AtState(s: Sys, k: nat, w: Work, o: Outcome, state: State)
    requires At(s, k, w, o, state)
    ensures w.receipt.state == state
  {
  }

  lemma BindAt(s: Sys, k: nat, w: Work, o: Outcome)
    requires At(s, k, w, o, NeedsBind)
    ensures var r := BindHandle(w, o); At(s, k, r.work, o, r.work.receipt.state)
  {
    hide Inv, Commit;
    PutPut(s, k, w, w);
    BindInv(Put(s, k, w), k);
    PutPut(s, k, w, BindHandle(w, o).work);
  }

  lemma RefreshAt(s: Sys, k: nat, w: Work, o: Outcome, env: Env)
    requires At(s, k, w, o, NeedsRefresh)
    ensures var r := FinishRefresh(w, env); At(s, k, r.work, o, r.work.receipt.state) && (r.code == Ok ==> r.work.receipt.state == Ready)
  {
    hide Inv;
    PutPut(s, k, w, w);
    RefreshInv(Put(s, k, w), k, env);
    PutPut(s, k, w, FinishRefresh(w, env).work);
  }

  /** Sending can stop at any phase; wherever it stops the invariant holds, and success means Ready. */
  lemma SendAt(s: Sys, k: nat, w: Work, o: Outcome, env: Env)
    requires At(s, k, w, o, w.receipt.state) && w.receipt.state in {NeedsEnqueue, NeedsBind, NeedsRefresh}
    ensures var r := SendResult(w, o, env);
            At(s, k, r.work, o, r.work.receipt.state) && (r.code == Ok ==> r.work.receipt.state == Ready)
  {
    hide At, EnqueuePhase, BindHandle, FinishRefresh;
    var a := if w.receipt.state == NeedsEnqueue then EnqueuePhase(w, o, env) else Res(Ok, w);
    if w.receipt.state == NeedsEnqueue {
      EnqueuePhaseAt(s, k, w, o, env);
      EnqueuePhaseStates(w, o, env);
    }
    if a.code != Ok { return; }
    var b := if a.work.receipt.state == NeedsBind then BindHandle(a.work, o) else a;
    if a.work.receipt.state == NeedsBind {
      BindAt(s, k, a.work, o);
      BindStates(a.work, o);
    }
    if b.code != Ok { return; }
    if b.work.receipt.state == NeedsRefresh { RefreshAt(s, k, b.work, o, env); }
  }

  lemma EnqueuePhaseStates(w: Work, o: Outcome, env: Env)
    ensures EnqueuePhase(w, o, env).code == Ok ==> EnqueuePhase(w, o, env).work.receipt.state in {NeedsBind, NeedsRefresh}
  {
    hide Recheck, DropRefused, DropExpired, Hold;
  }

  lemma BindStates(w: Work, o: Outcome)
    ensures BindHandle(w, o).code == Ok ==> BindHandle(w, o).work.receipt.state == NeedsRefresh
  {
    hide Commit;
  }

  lemma DestroyAt(s: Sys, k: nat, w: Work, o: Outcome, answer: Code)
    requires At(s, k, w, o, Ready)
    ensures Inv(Put(s, k, DestroyOwner(w, answer).work))
  {
    PutPut(s, k, w, w);
    if answer == Ok {
      var u := Put(s, k, w);
      hide TableInv, LogOk, Fenced, Visible, Owned, Apart, Traced, FrameSent, HandleSent, EffectLogged;
      assert CellOk(u.cells[k], u.table.serial, u.log, u.seen);
      LetGoInv(u, k, w.receipt);
      PutPut(s, k, w, w.(owner := None));
    }
  }

  lemma GoneInv(s: Sys, k: nat, o: Outcome, env: Env)
    requires Inv(s) && k < |s.cells| && s.cells[k].owner == Some(o) && s.cells[k].receipt.state == Empty && env.match_.Gone?
    ensures Inv(Put(s, k, Consume(WorkOf(s, k), o, env).work))
  {
    SamePlace(s, k);
    if env.destroy == Ok {
      hide TableInv, LogOk, Fenced, Visible, Owned, Apart, Traced, FrameSent, HandleSent, EffectLogged;
      assert CellOk(s.cells[k], s.table.serial, s.log, s.seen);
      LetGoInv(s, k, BLANK);
      var u := s.(cells := s.cells[k := Cell(BLANK, None)]);
      if env.match_.clientGone {
        ForgetWeakens(s.table, o.meta.request.client);
        Weaken(u, Forget(s.table, o.meta.request.client).table);
      }
    }
  }

  lemma ConsumeInv(s: Sys, k: nat, o: Outcome, env: Env)
    requires Inv(s) && k < |s.cells| && s.cells[k].owner == Some(o) && s.cells[k].receipt.state == Empty
    requires EffectDue(o) ==> s.cells[k].receipt.effect == Some(EffectOf(o))
    ensures Inv(Put(s, k, Consume(WorkOf(s, k), o, env).work))
  {
    hide Inv, SendResult;
    SamePlace(s, k);
    match env.match_
    case Refused(_) =>
    case Gone(_) => GoneInv(s, k, o, env);
    case Matches =>
      var w := AcceptMatch(WorkOf(s, k), o);
      MatchInv(s, k);
      SendAt(s, k, w, o, env);
      var r := SendResult(w, o, env);
      if r.code == Ok { DestroyAt(s, k, r.work, o, env.destroy); }
  }

  lemma EffectSettled(s: Sys, k: nat, o: Outcome)
    requires Inv(s) && k < |s.cells| && s.cells[k].owner == Some(o) && ApplyEffect(WorkOf(s, k), o).code == Ok
    ensures var w := ApplyEffect(WorkOf(s, k), o).work;
            && w.owner == Some(o) && w.receipt.state == s.cells[k].receipt.state
            && (EffectDue(o) ==> w.receipt.effect == Some(EffectOf(o)))
  {
    hide Inv, ApplyLogout;
  }

  /** One call of one consumer, whatever its dependencies answer. */
  lemma StepInv(s: Sys, k: nat, env: Env)
    requires Inv(s) && k < |s.cells|
    ensures Inv(Put(s, k, ConsumerModel.Step(WorkOf(s, k), env).work))
  {
    hide Inv, ApplyEffect, Consume, SendResult;
    SamePlace(s, k);
    var w := WorkOf(s, k);
    if w.receipt.state == Ready || w.owner.None? || env.decode != Ok || !env.registered { return; }
    var o := w.owner.value;
    EffectInv(s, k);
    var e := ApplyEffect(w, o);
    if e.code != Ok { return; }
    EffectSettled(s, k, o);
    var u := Put(s, k, e.work);
    PutPut(s, k, e.work, e.work);
    if w.receipt.state == Empty {
      ConsumeInv(u, k, o, env);
      PutPut(s, k, e.work, Consume(e.work, o, env).work);
    } else if Consistent(e.work.receipt, o) {
      SendAt(s, k, e.work, o, env);
      var r := SendResult(e.work, o, env);
      if r.code == Ok { DestroyAt(s, k, r.work, o, env.destroy); }
    }
  }

  lemma AcknowledgeInv(s: Sys, k: nat)
    requires Inv(s) && k < |s.cells|
    ensures Inv(Put(s, k, Acknowledge(WorkOf(s, k)).work))
  {
    SamePlace(s, k);
    if s.cells[k].owner.None? && s.cells[k].receipt.state == Ready {
      hide TableInv, LogOk, Fenced, Visible, Owned, Apart, Traced, FrameSent, HandleSent, EffectLogged;
      assert CellOk(s.cells[k], s.table.serial, s.log, s.seen);
      LetGoInv(s, k, BLANK);
    }
  }

  lemma AbandonTicketInv(s: Sys, k: nat)
    requires Inv(s) && k < |s.cells|
    requires s.cells[k].receipt.ticketPending ==> FindTicket(s.table, s.cells[k].receipt.ticket) in {Ok, NotFound}
    ensures Inv(Put(s, k, AbandonTicket(WorkOf(s, k))))
  {
    SamePlace(s, k);
    if s.cells[k].receipt.ticketPending {
      hide TableInv, LogOk, Fenced, Visible, Owned, Apart, Traced, FrameSent, HandleSent, EffectLogged, Abort, FindTicket;
      assert CellOk(s.cells[k], s.table.serial, s.log, s.seen);
      ReleaseInv(s, k, Cell(s.cells[k].receipt.(ticketPending := false), s.cells[k].owner));
    }
  }

  lemma ClearInv(s: Sys, k: nat)
    requires Inv(s) && k < |s.cells| && !s.cells[k].receipt.ticketPending
    ensures Inv(s.(cells := s.cells[k := Cell(BLANK, None)]))
  {
    hide Inv;
    LetGoInv(s, k, BLANK);
  }

  lemma AbandonInv(s: Sys, k: nat, env: Env)
    requires Inv(s) && k < |s.cells|
    ensures Inv(Put(s, k, Abandon(WorkOf(s, k), env).work))
  {
    hide Inv, ApplyEffect, Abort, FindTicket;
    SamePlace(s, k);
    var w := WorkOf(s, k);
    if w.receipt.state == Empty && w.owner.None? { return; }
    if w.owner.Some? { EffectInv(s, k); }
    var e := if w.owner.None? then Res(Ok, w)
             else if w.receipt.state != Empty && w.receipt.meta != w.owner.value.meta then Res(InvalidArgument, w)
             else if env.decode != Ok then Res(env.decode, w)
             else ApplyEffect(w, w.owner.value);
    if e.code != Ok { return; }
    AbortCode(e.work.table, e.work.receipt.ticket);
    var t := if e.work.receipt.ticketPending then Abort(e.work.table, e.work.receipt.ticket).code else Ok;
    if t != Ok && t != NotFound { return; }
    var u := Put(s, k, e.work);
    PutPut(s, k, e.work, e.work);
    AbandonTicketInv(u, k);
    var v := AbandonTicket(e.work);
    PutPut(s, k, e.work, v);
    var d := DestroyOwner(v, env.destroy);
    if d.code == Ok {
      PutPut(s, k, v, v);
      ClearInv(Put(s, k, v), k);
      PutPut(s, k, v, d.work.(receipt := BLANK));
    }
  }

  // ---- Runs ----------------------------------------------------------------------------------

  datatype Event =
    | Arrive(at: nat, outcome: Outcome)
    | Call(at: nat, env: Env)
    | Ack(at: nat)
    | GiveUp(at: nat, env: Env)
    | ClientGone(client: Lease)
    | ResumeNoted(instance: nat)

  /** A completion is handed to a consumer that owns none, and no completion arrives twice. */
  predicate CanArrive(s: Sys, k: nat, o: Outcome)
  {
    k < |s.cells| && s.cells[k].owner.None? && Instance(o) !in s.seen
  }

  function Apply(s: Sys, e: Event): (t: Sys)
  {
    match e
    case Arrive(k, o) =>
      if CanArrive(s, k, o)
      then s.(cells := s.cells[k := s.cells[k].(owner := Some(o))], seen := s.seen + {Instance(o)}, arrived := s.arrived + {o}) else s
    case Call(k, env) => if k < |s.cells| then Put(s, k, ConsumerModel.Step(WorkOf(s, k), env).work) else s
    case Ack(k) => if k < |s.cells| then Put(s, k, Acknowledge(WorkOf(s, k)).work) else s
    case GiveUp(k, env) => if k < |s.cells| then Put(s, k, Abandon(WorkOf(s, k), env).work) else s
    case ClientGone(client) => s.(table := Forget(s.table, client).table)
    case ResumeNoted(n) => s.(table := NoteResume(s.table, n).table)
  }

  lemma NobodySent(log: seq<Act>, seen: set<nat>, instance: nat)
    requires LogOk(log, seen) && instance !in seen
    ensures !FrameSent(log, instance) && !EffectLogged(log, instance)
  {
  }

  lemma MoreSeen(c: Cell, serial: nat, log: seq<Act>, seen: set<nat>, n: nat)
    requires CellOk(c, serial, log, seen)
    ensures CellOk(c, serial, log, seen + {n})
  {
    hide FrameSent, HandleSent, EffectLogged;
  }

  lemma ArriveInv(s: Sys, k: nat, o: Outcome)
    requires Inv(s) && CanArrive(s, k, o)
    ensures Inv(Apply(s, Arrive(k, o)))
  {
    ArriveSourced(s, k, o);
    hide Sourced, TableInv, FencedAt, Visible, FrameSent, HandleSent, EffectLogged, HeldBy;
    var t := Apply(s, Arrive(k, o));
    NobodySent(s.log, s.seen, Instance(o));
    forall j | 0 <= j < |t.cells| ensures CellOk(t.cells[j], t.table.serial, t.log, t.seen) {
      MoreSeen(s.cells[j], s.table.serial, s.log, s.seen, Instance(o));
    }
    forall i | 0 <= i < |t.table.slots| && t.table.slots[i].pending ensures HeldBy(t.cells, t.table.slots[i].ticket) {
      SameHolder(s.cells, k, Some(o), t.table.slots[i].ticket);
    }
    forall i | 0 <= i < |t.log| && t.log[i].Revoked? ensures FencedAt(t, t.log[i].session, t.log[i].fence) {
      ArriveFence(s, k, o, t.log[i].session, t.log[i].fence);
    }
  }

  lemma ArriveSourced(s: Sys, k: nat, o: Outcome)
    requires Inv(s) && CanArrive(s, k, o)
    ensures Sourced(Apply(s, Arrive(k, o)))
  {
    hide TableInv, LogOk, Fenced, Visible, Owned, Apart, Traced, FrameSent, HandleSent, EffectLogged, FindTicket, BoundBy, AnswerTo;
    var t := Apply(s, Arrive(k, o));
    forall j | 0 <= j < |t.cells| ensures HoldsOwn(t.cells[j], t.table) {
      assert HoldsOwn(s.cells[j], s.table);
      assert CellOk(s.cells[j], s.table.serial, s.log, s.seen);
    }
    forall i | 0 <= i < |t.table.slots| && t.table.slots[i].active ensures BoundSourced(t, i) {
      assert BoundSourced(s, i);
      var p :| p in s.arrived && BoundBy(s.table.slots[i], i, s.origins, p);
      assert p in t.arrived;
    }
    forall i | 0 <= i < |t.log| && t.log[i].Framed? ensures FrameSourced(t.log[i], t.arrived) {
      assert FrameSourced(s.log[i], s.arrived);
      var p :| p in s.arrived && AnswerTo(s.log[i], p);
      assert p in t.arrived;
    }
  }

  lemma SameHolder(cells: seq<Cell>, k: nat, owner: Option<Outcome>, ticket: Ticket)
    requires k < |cells| && HeldBy(cells, ticket)
    ensures HeldBy(cells[k := cells[k].(owner := owner)], ticket)
  {
    var j :| 0 <= j < |cells| && cells[j].receipt.ticketPending && cells[j].receipt.ticket == ticket;
    assert cells[k := cells[k].(owner := owner)][j].receipt == cells[j].receipt;
  }

  lemma ArriveFence(s: Sys, k: nat, o: Outcome, session: nat, fence: nat)
    requires Inv(s) && CanArrive(s, k, o) && FencedAt(s, session, fence)
    ensures FencedAt(Apply(s, Arrive(k, o)), session, fence)
  {
    hide TableInv, LogOk, Visible, Owned, Apart, Traced, Fenced, FrameSent, HandleSent, EffectLogged;
    var t := Apply(s, Arrive(k, o));
    forall i: nat | Open(t.table.slots, i, session) ensures i in t.origins && (t.origins[i].resume ==> t.origins[i].instance > fence) {
      assert Open(s.table.slots, i, session);
    }
    forall j | 0 <= j < |t.cells| && ResumeHolds(t.cells[j], t.table, session) ensures Instance(t.cells[j].owner.value) > fence {
      assert CellOk(s.cells[j], s.table.serial, s.log, s.seen);
      assert ResumeHolds(s.cells[j], s.table, session);
    }
  }

  lemma NoteWeakens(t: Table, instance: nat)
    requires TableInv(t)
    ensures Weaker(t, NoteResume(t, instance).table) && TableInv(NoteResume(t, instance).table)
  {
    hide HandlesDistinct, SlotInv;
  }

  lemma ApplyInv(s: Sys, e: Event)
    requires Inv(s)
    ensures Inv(Apply(s, e))
  {
    hide Inv, ConsumerModel.Step, Acknowledge, Abandon, Forget, NoteResume, Weaker, TableInv;
    assert TableInv(s.table) by { InvTable(s); }
    match e
    case Arrive(k, o) => if CanArrive(s, k, o) { ArriveInv(s, k, o); }
    case Call(k, env) => if k < |s.cells| { StepInv(s, k, env); }
    case Ack(k) => if k < |s.cells| { AcknowledgeInv(s, k); }
    case GiveUp(k, env) => if k < |s.cells| { AbandonInv(s, k, env); }
    case ClientGone(client) => ForgetWeakens(s.table, client); Weaken(s, Forget(s.table, client).table);
    case ResumeNoted(n) => NoteWeakens(s.table, n); Weaken(s, NoteResume(s.table, n).table);
  }

  lemma InvTable(s: Sys)
    requires Inv(s)
    ensures TableInv(s.table)
  {
  }

  function Run(s: Sys, events: seq<Event>): (t: Sys)
    decreases |events|
  {
    if events == [] then s else Run(Apply(s, events[0]), events[1..])
  }

  lemma {:induction false} RunInv(s: Sys, events: seq<Event>)
    requires Inv(s)
    ensures Inv(Run(s, events))
    decreases |events|
  {
    hide Inv, Apply;
    if events != [] {
      ApplyInv(s, events[0]);
      RunInv(Apply(s, events[0]), events[1..]);
    }
  }

  // ---- Whole-run results ---------------------------------------------------------------------

  /**
    For every failure schedule: a completion puts at most one frame in a FIFO, a logout takes effect
    at most once per completion, and always before its client is matched.
   */
  lemma OneFrameOneEffect(start: Sys, events: seq<Event>, i: nat, j: nat)
    requires Initial(start)
    requires i < j < |Run(start, events).log|
    ensures var log := Run(start, events).log;
            && (log[i].Framed? && log[j].Framed? ==> log[i].instance != log[j].instance)
            && (log[i].Revoked? && log[j].Revoked? ==> log[i].instance != log[j].instance)
            && (log[j].Matched? && log[j].effectDue ==> exists e :: 0 <= e < j && log[e].Revoked? && log[e].instance == log[j].instance)
  {
    hide CellsOk, TableInv, Apart, Owned, Visible, Fenced, Traced, Apply;
    InitialInv(start);
    RunInv(start, events);
    var log := Run(start, events).log;
    if log[j].Matched? && log[j].effectDue {
      assert EffectLogged(log[..j], log[j].instance);
      var e :| 0 <= e < |log[..j]| && log[..j][e].Revoked? && log[..j][e].instance == log[j].instance;
      assert log[e] == log[..j][e];
    }
  }

  /** A handle answers a lookup only after a success frame carrying it was wholly enqueued to that client. */
  lemma HandleVisibleOnlyAfterFrame(start: Sys, events: seq<Event>, client: Lease, handle: nat, now: nat, inspect: Code)
    requires Initial(start)
    requires Lookup(Run(start, events).table, client, handle, now, inspect).code == Ok
    ensures HandleSent(Run(start, events).log, client, handle)
  {
    hide CellsOk, TableInv, Apart, Owned, Fenced, Traced, LogOk, HandleSent, Apply;
    InitialInv(start);
    RunInv(start, events);
  }

  /** An acknowledged or abandoned receipt leaves no reservation of its own: what is still pending belongs to another consumer. */
  lemma SettledReceiptLeavesNothing(s: Sys, k: nat, e: Event, i: nat)
    requires Inv(s) && k < |s.cells|
    requires (e == Ack(k) && Acknowledge(WorkOf(s, k)).code == Ok) || (e.GiveUp? && e.at == k && Abandon(WorkOf(s, k), e.env).code == Ok)
    requires i < |Apply(s, e).table.slots| && Apply(s, e).table.slots[i].pending
    ensures exists j :: 0 <= j < |s.cells| && j != k && s.cells[j].receipt.ticketPending && s.cells[j].receipt.ticket == Apply(s, e).table.slots[i].ticket
  {
    hide CellsOk, TableInv, Apart, Fenced, Traced, LogOk, Visible, ApplyEffect, Abort;
    ApplyInv(s, e);
    var t := Apply(s, e);
    assert t.cells[k].receipt == BLANK;
    var j :| 0 <= j < |t.cells| && t.cells[j].receipt.ticketPending && t.cells[j].receipt.ticket == t.table.slots[i].ticket;
    assert j != k && t.cells[j] == s.cells[j];
  }

  lemma EarlyPhasesKeepLog(w: Work, o: Outcome, env: Env)
    ensures Recheck(w, o, env.now).work.log == w.log && DropTicket(w).work.log == w.log
    ensures DropRefused(w, o).work.log == w.log && DropExpired(w, o, env.now).work.log == w.log && Hold(w, o, env).work.log == w.log
  {
    hide Abort, Reserve, CheckResume;
  }

  lemma EnqueueLogGrows(w: Work, o: Outcome, env: Env)
    ensures w.log <= EnqueuePhase(w, o, env).work.log
  {
    hide Recheck, DropRefused, DropExpired, Hold, FrameFor;
    var a := Recheck(w, o, env.now).work;
    var b := DropRefused(a, o).work;
    var c := DropExpired(b, o, env.now).work;
    EarlyPhasesKeepLog(w, o, env);
    EarlyPhasesKeepLog(a, o, env);
    EarlyPhasesKeepLog(b, o, env);
    EarlyPhasesKeepLog(c, o, env);
  }

  lemma SendLogGrows(w: Work, o: Outcome, env: Env)
    ensures w.log <= SendResult(w, o, env).work.log
  {
    hide EnqueuePhase, Commit;
    EnqueueLogGrows(w, o, env);
  }

  lemma StepLogGrows(w: Work, env: Env)
    ensures w.log <= ConsumerModel.Step(w, env).work.log
  {
    hide SendResult, ApplyLogout, Forget;
    if w.owner.Some? {
      var o := w.owner.value;
      var e := ApplyEffect(w, o).work;
      SendLogGrows(e, o, env);
      SendLogGrows(AcceptMatch(e, o), o, env);
    }
  }

  lemma ApplyLogGrows(s: Sys, e: Event)
    ensures s.log <= Apply(s, e).log
  {
    hide ConsumerModel.Step, Abort, ApplyLogout, Forget;
    if e.Call? && e.at < |s.cells| { StepLogGrows(WorkOf(s, e.at), e.env); }
  }

  lemma {:induction false} RunLogGrows(s: Sys, events: seq<Event>)
    requires Inv(s)
    ensures s.log <= Run(s, events).log
    decreases |events|
  {
    hide Inv, Apply;
    if events != [] {
      ApplyInv(s, events[0]);
      ApplyLogGrows(s, events[0]);
      RunLogGrows(Apply(s, events[0]), events[1..]);
    }
  }

  // -- Completions and the events that brought them

  ghost predicate ArrivesIn(events: seq<Event>, o: Outcome)
  {
    exists i :: 0 <= i < |events| && events[i].Arrive? && events[i].outcome == o
  }

  lemma ApplyArrived(s: Sys, e: Event, o: Outcome)
    requires o in Apply(s, e).arrived
    ensures o in s.arrived || (e.Arrive? && e.outcome == o)
  {
    hide ConsumerModel.Step, Abandon, Acknowledge, Forget, NoteResume;
  }

  lemma {:induction false} RunArrived(s: Sys, events: seq<Event>, o: Outcome)
    requires o in Run(s, events).arrived
    ensures o in s.arrived || ArrivesIn(events, o)
    decreases |events|
  {
    hide Apply;
    if events != [] {
      RunArrived(Apply(s, events[0]), events[1..], o);
      if ArrivesIn(events[1..], o) {
        var i :| 0 <= i < |events[1..]| && events[1..][i].Arrive? && events[1..][i].outcome == o;
        assert events[i + 1] == events[1..][i];
      } else {
        ApplyArrived(s, events[0], o);
      }
    }
  }

  /**
    In every run: whoever a lookup finds behind a handle is exactly the user and session, with exactly
    the lifetime, of a completion that arrived for that client and granted a handle.
   */
  lemma HandleBelongsToItsCompletion(start: Sys, events: seq<Event>, client: Lease, handle: nat, now: nat, inspect: Code)
    requires Initial(start)
    requires Lookup(Run(start, events).table, client, handle, now, inspect).code == Ok
    ensures var who := Lookup(Run(start, events).table, client, handle, now, inspect).who;
            exists o :: ArrivesIn(events, o) && Grants(o) && o.meta.request.client == client && who == Identity(o.user, o.session, o.issued, o.expires, false)
  {
    hide CellsOk, TableInv, Apart, Owned, Fenced, Traced, LogOk, Visible, Apply, FrameSourced, HoldsOwn;
    InitialInv(start);
    RunInv(start, events);
    var t := Run(start, events);
    assert BoundSourced(t, client.slot);
    var o :| o in t.arrived && BoundBy(t.table.slots[client.slot], client.slot, t.origins, o);
    RunArrived(start, events, o);
  }

  /** Every frame answers a completion that arrived: its client, a status it allows, a handle only for a grant. */
  lemma FrameAnswersItsCompletion(start: Sys, events: seq<Event>, i: nat)
    requires Initial(start) && i < |Run(start, events).log| && Run(start, events).log[i].Framed?
    ensures var a := Run(start, events).log[i];
            exists o :: ArrivesIn(events, o) && a.instance == Instance(o) && a.client == o.meta.request.client
                        && (a.status == o.meta.suggested || (o.command == Login && a.status == SessionExpired) || (Resumes(o) && a.status in {StatusBusy, AuthenticationFailed}))
                        && (a.handle != 0 ==> Grants(o) && a.status == StatusOk)
  {
    hide CellsOk, TableInv, Apart, Owned, Fenced, Traced, LogOk, Visible, Apply, BoundSourced, HoldsOwn;
    InitialInv(start);
    RunInv(start, events);
    var t := Run(start, events);
    assert FrameSourced(t.log[i], t.arrived);
    var o :| o in t.arrived && AnswerTo(t.log[i], o);
    RunArrived(start, events, o);
  }

  // -- The watermark

  lemma SendKeepsWatermark(w: Work, o: Outcome, env: Env)
    ensures SendResult(w, o, env).work.table.lastResume == w.table.lastResume
  {
    hide EnqueuePhase;
    EnqueueKeepsWatermark(w, o, env);
  }

  lemma PhasesKeepWatermark(w: Work, o: Outcome, env: Env)
    ensures Recheck(w, o, env.now).work.table.lastResume == w.table.lastResume && DropRefused(w, o).work.table.lastResume == w.table.lastResume
    ensures DropExpired(w, o, env.now).work.table.lastResume == w.table.lastResume && Hold(w, o, env).work.table.lastResume == w.table.lastResume
    ensures EnqueueFrame(w, o, env).work.table.lastResume == w.table.lastResume
  {
    hide CheckResume, Collides;
  }

  lemma EnqueueKeepsWatermark(w: Work, o: Outcome, env: Env)
    ensures EnqueuePhase(w, o, env).work.table.lastResume == w.table.lastResume
  {
    hide Recheck, DropRefused, DropExpired, Hold, EnqueueFrame;
    var a := Recheck(w, o, env.now).work;
    var b := DropRefused(a, o).work;
    var c := DropExpired(b, o, env.now).work;
    var d := Hold(c, o, env).work;
    PhasesKeepWatermark(w, o, env);
    PhasesKeepWatermark(a, o, env);
    PhasesKeepWatermark(b, o, env);
    PhasesKeepWatermark(c, o, env);
    PhasesKeepWatermark(d, o, env);
  }

  lemma EffectKeepsWatermark(w: Work, o: Outcome)
    ensures ApplyEffect(w, o).work.table.lastResume == w.table.lastResume
  {
  }

  lemma StepKeepsWatermark(w: Work, env: Env)
    ensures ConsumerModel.Step(w, env).work.table.lastResume == w.table.lastResume
    ensures Abandon(w, env).work.table.lastResume == w.table.lastResume
  {
    hide SendResult, ApplyEffect;
    if w.owner.Some? {
      var o := w.owner.value;
      EffectKeepsWatermark(w, o);
      var e := ApplyEffect(w, o).work;
      SendKeepsWatermark(e, o, env);
      SendKeepsWatermark(AcceptMatch(e, o), o, env);
    }
  }

  lemma ApplyWatermark(s: Sys, e: Event)
    ensures s.table.lastResume <= Apply(s, e).table.lastResume
    ensures e.ResumeNoted? ==> e.instance <= Apply(s, e).table.lastResume
  {
    hide ConsumerModel.Step, Abandon;
    if e.Call? && e.at < |s.cells| { StepKeepsWatermark(WorkOf(s, e.at), e.env); }
    if e.GiveUp? && e.at < |s.cells| { StepKeepsWatermark(WorkOf(s, e.at), e.env); }
  }

  /** Every resume noted so far lies at or below the watermark. */
  lemma {:induction false} NotedBelowWatermark(s: Sys, events: seq<Event>, i: nat)
    requires i < |events| && events[i].ResumeNoted?
    ensures events[i].instance <= Run(s, events).table.lastResume
    decreases |events|
  {
    hide Apply;
    ApplyWatermark(s, events[0]);
    if i > 0 {
      NotedBelowWatermark(Apply(s, events[0]), events[1..], i - 1);
    } else {
      RunWatermark(Apply(s, events[0]), events[1..]);
    }
  }

  lemma {:induction false} RunWatermark(s: Sys, events: seq<Event>)
    ensures s.table.lastResume <= Run(s, events).table.lastResume
    decreases |events|
  {
    hide Apply;
    if events != [] {
      ApplyWatermark(s, events[0]);
      RunWatermark(Apply(s, events[0]), events[1..]);
    }
  }

  /** The acts one call adds: an effect, if any, comes first and carries the watermark of that moment. */
  ghost predicate EffectFirst(before: seq<Act>, after: seq<Act>, watermark: nat)
  {
    forall i :: |before| <= i < |after| && after[i].Revoked? ==> after[i].fence == watermark
  }

  lemma SendAddsNoEffect(w: Work, o: Outcome, env: Env)
    ensures forall i :: |w.log| <= i < |SendResult(w, o, env).work.log| ==> !SendResult(w, o, env).work.log[i].Revoked?
  {
    hide EnqueuePhase, Commit;
    EnqueueAddsNoEffect(w, o, env);
  }

  lemma EnqueueAddsNoEffect(w: Work, o: Outcome, env: Env)
    ensures forall i :: |w.log| <= i < |EnqueuePhase(w, o, env).work.log| ==> !EnqueuePhase(w, o, env).work.log[i].Revoked?
  {
    hide Recheck, DropRefused, DropExpired, Hold;
    var a := Recheck(w, o, env.now).work;
    var b := DropRefused(a, o).work;
    var c := DropExpired(b, o, env.now).work;
    EarlyPhasesKeepLog(w, o, env);
    EarlyPhasesKeepLog(a, o, env);
    EarlyPhasesKeepLog(b, o, env);
    EarlyPhasesKeepLog(c, o, env);
  }

  lemma StepEffectFirst(w: Work, env: Env)
    ensures EffectFirst(w.log, ConsumerModel.Step(w, env).work.log, w.table.lastResume)
    ensures EffectFirst(w.log, Abandon(w, env).work.log, w.table.lastResume)
  {
    hide SendResult, ApplyLogout, Abort, Forget;
    if w.owner.Some? {
      var o := w.owner.value;
      var e := ApplyEffect(w, o).work;
      SendAddsNoEffect(e, o, env);
      SendLogGrows(e, o, env);
      SendAddsNoEffect(AcceptMatch(e, o), o, env);
      SendLogGrows(AcceptMatch(e, o), o, env);
    }
  }

  lemma ApplyEffectFirst(s: Sys, e: Event)
    ensures EffectFirst(s.log, Apply(s, e).log, s.table.lastResume)
  {
    hide ConsumerModel.Step, Abandon, Forget, NoteResume, EffectFirst;
    if (e.Call? || e.GiveUp?) && e.at < |s.cells| { StepEffectFirst(WorkOf(s, e.at), e.env); }
    NothingAdded(s.log, s.table.lastResume);
  }

  lemma NothingAdded(log: seq<Act>, watermark: nat)
    ensures EffectFirst(log, log, watermark)
  {
  }

  /**
    The logout fence over whole runs. Event `e` makes a logout of some session take effect. However the
    run goes on, a lookup that succeeds finds the identity of a completion that arrived for that client,
    and if that completion is for the session logged out it is not a resume noted before `e`: not one
    unprocessed, reserved, enqueued or bound at that moment.
   */
  lemma LogoutFence(start: Sys, before: seq<Event>, e: Event, after: seq<Event>, i: nat, client: Lease, handle: nat, now: nat, inspect: Code)
    requires Initial(start)
    requires var s := Run(start, before); |s.log| <= i < |Apply(s, e).log| && Apply(s, e).log[i].Revoked?
    requires Lookup(Run(Apply(Run(start, before), e), after).table, client, handle, now, inspect).code == Ok
    ensures var who := Lookup(Run(Apply(Run(start, before), e), after).table, client, handle, now, inspect).who;
            exists o :: ArrivesIn(before + [e] + after, o) && Grants(o) && o.meta.request.client == client
                        && who == Identity(o.user, o.session, o.issued, o.expires, false)
                        && !(o.session == Apply(Run(start, before), e).log[i].session && Resumes(o)
                             && exists j :: 0 <= j < |before| && before[j] == ResumeNoted(Instance(o)))
  {
    hide CellsOk, TableInv, Apart, Owned, LogOk, Visible, Traced, Apply, FrameSourced, HoldsOwn;
    var s := Run(start, before);
    var u := Apply(s, e);
    var t := Run(u, after);
    InitialInv(start);
    RunInv(start, before);
    ApplyInv(s, e);
    RunInv(u, after);
    RunLogGrows(u, after);
    ApplyEffectFirst(s, e);
    assert t.log[i] == u.log[i] && u.log[i].fence == s.table.lastResume;
    assert FencedAt(t, t.log[i].session, t.log[i].fence);
    var at := client.slot;
    assert BoundSourced(t, at);
    var o :| o in t.arrived && BoundBy(t.table.slots[at], at, t.origins, o);
    ArrivedThrough(start, before, e, after, o);
    if o.session == u.log[i].session && Resumes(o) {
      assert Open(t.table.slots, at, u.log[i].session);
      forall j | 0 <= j < |before| ensures before[j] != ResumeNoted(Instance(o)) {
        if before[j].ResumeNoted? { NotedBelowWatermark(start, before, j); }
      }
    }
  }

  lemma ArrivedThrough(start: Sys, before: seq<Event>, e: Event, after: seq<Event>, o: Outcome)
    requires start.arrived == {} && o in Run(Apply(Run(start, before), e), after).arrived
    ensures ArrivesIn(before + [e] + after, o)
  {
    hide Apply;
    var all := before + [e] + after;
    var s := Run(start, before);
    RunArrived(Apply(s, e), after, o);
    if ArrivesIn(after, o) {
      var i :| 0 <= i < |after| && after[i].Arrive? && after[i].outcome == o;
      assert all[|before| + 1 + i] == after[i];
    } else {
      ApplyArrived(s, e, o);
      if e.Arrive? && e.outcome == o {
        assert all[|before|] == e;
      } else {
        RunArrived(start, before, o);
        var i :| 0 <= i < |before| && before[i].Arrive? && before[i].outcome == o;
        assert all[i] == before[i];
      }
    }
  }
}
