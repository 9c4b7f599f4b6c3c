/** Deadlines kept in place: client records, the route table, and the wheel they share. */
module Deadlines {
  import opened Base
  import opened Framing
  import opened DeadlineModel

  lemma CutStep(r: Rules, s: seq<byte>)
    ensures var v := First(Boundary(r), r.max, s);
            && (v.Frame? ==> Cut(r, s).rest == Cut(r, s[v.size..]).rest && Cut(r, s).issue == Cut(r, s[v.size..]).issue)
            && (v.More? ==> Cut(r, s).rest == s && Cut(r, s).issue.None?)
            && (v.Fault? ==> Cut(r, s).issue.Some?)
  {
    hide First;
  }

  /** Walks over whole frames; `offset` is where the incomplete one at the end, if any, begins. */
  method FindBoundary(r: Rules, wire: seq<byte>) returns (ok: bool, offset: nat)
    ensures ok <==> Cut(r, wire).issue.None?
    ensures ok ==> offset + |Cut(r, wire).rest| == |wire|
  {
    hide Cut;
    offset := 0;
    assert wire[0..] == wire;
    while |wire| - offset >= HEADER
      invariant offset <= |wire|
      invariant Cut(r, wire).issue == Cut(r, wire[offset..]).issue && Cut(r, wire).rest == Cut(r, wire[offset..]).rest
      decreases |wire| - offset
    {
      var rest := wire[offset..];
      CutStep(r, rest);
      var header := r.codec.header(rest[..HEADER]);
      if header.Malformed? { return false, offset; }
      var size := HEADER + header.body;
      if size > r.limit(rest[..HEADER]) || size > r.max { return false, offset; }
      if size > |wire| - offset { return true, offset; }
      assert rest[size..] == wire[offset + size..];
      offset := offset + size;
    }
    CutStep(r, wire[offset..]);
    return true, offset;
  }

  class DeadlineService {
    const rules: Rules
    const clients: array<Client>
    const routes: array<Binding>
    var wheel: map<Handle, nat>

    ghost function View(): (s: Service)
      reads this, clients, routes
    {
      Service(clients[..], routes[..], wheel)
    }

    constructor (r: Rules, capacity: nat, timers: nat)
      requires 0 < r.frame
      ensures fresh(clients) && fresh(routes) && rules == r && Initial(r, View()) && Inv(r, View())
    {
      rules, wheel := r, map[];
      clients := new Client[capacity](i => NOBODY);
      routes := new Binding[timers](i => NO_BINDING);
      new;
      InitialInv(r, View());
    }

    method Fail(k: nat, code: Code) returns (out: Code)
      requires k < clients.Length
      modifies clients
      ensures Res(out, View()) == DeadlineModel.Failed(old(View()), k, code)
    {
      clients[k] := clients[k].(failed := true);
      return code;
    }

    method IsVacant(h: Handle) returns (yes: bool)
      ensures yes == Vacant(View(), h)
    {
      return h.owner != 0 && h.slot < routes.Length && forall g :: g in wheel ==> g.slot != h.slot;
    }

    /** Re-arms the timer for the deadlines now in the record, or registers one. */
    method SyncTimer(k: nat, now: nat, t: Timers) returns (code: Code)
      requires k < clients.Length
      modifies this`wheel, clients, routes
      ensures var d := old(clients[k]).deadline;
              && (code == Ok ==> Res(code, View()) == Install(old(View()), k, d, now, t))
              && (code != Ok ==> View() == old(View()) && Install(old(View()), k, d, now, t) == DeadlineModel.Failed(old(View()), k, code))
    {
      hide Vacant, Earliest;
      var d := clients[k].deadline;
      if d.binding.timer.owner != 0 {
        if t.rearm != Ok { return t.rearm; }
        if d.binding.timer !in wheel { return NotFound; }
        if Earliest(d) <= now { return Timeout; }
        wheel := wheel[d.binding.timer := Earliest(d)];
        assert clients[..] == clients[..][k := clients[k].(deadline := d)];
        return Ok;
      }
      if t.register != Ok { return t.register; }
      if Earliest(d) <= now { return Timeout; }
      var vacant := IsVacant(t.handle);
      if !vacant { return Busy; }
      VacantFits(View(), t.handle);
      var binding := Binding(clients[k].lease, t.handle);
      wheel := wheel[t.handle := Earliest(d)];
      clients[k] := clients[k].(deadline := d.(binding := binding));
      routes[t.handle.slot] := binding;
      return Ok;
    }

    /** Writes new deadlines, synchronises, and puts the old ones back if that fails. */
    method Replace(k: nat, d: Deadline, now: nat, t: Timers) returns (code: Code)
      requires k < clients.Length
      modifies this`wheel, clients, routes
      ensures Res(code, View()) == Install(old(View()), k, d, now, t)
    {
      hide Vacant, Earliest;
      var before := clients[k].deadline;
      ghost var s := View();
      clients[k] := clients[k].(deadline := d);
      ghost var written := View();
      assert written == Put(s, k, s.clients[k].(deadline := d));
      InstallIgnores(s, k, d, now, t);
      code := SyncTimer(k, now, t);
      if code != Ok {
        clients[k] := clients[k].(deadline := before, failed := true);
        assert clients[..] == s.clients[k := s.clients[k].(failed := true)];
      }
    }

    method StartClient(k: nat, env: Env) returns (code: Code)
      requires k < clients.Length
      modifies this`wheel, clients, routes
      ensures Res(code, View()) == Start(rules, old(View()), k, env)
    {
      hide Install;
      var d := clients[k].deadline;
      if d.phase != 0 { return Ok; }
      if env.stampNow.NoTime? { code := Fail(k, ClockFault(env.stampNow)); return; }
      if env.stampNow.ns + rules.unauthenticated > U64_MAX { code := Fail(k, Overflow); return; }
      code := Replace(k, d.(phase := env.stampNow.ns + rules.unauthenticated), env.stampNow.ns, env.timers);
    }

    method GuardClient(k: nat, env: Env) returns (code: Code)
      requires k < clients.Length
      modifies this`wheel, clients, routes
      ensures Res(code, View()) == Guard(rules, old(View()), k, env)
    {
      hide Install, Earliest;
      var c := clients[k];
      if c.deadline.phase == 0 || c.closing { return Ok; }
      if env.guardNow.NoTime? { code := Fail(k, ClockFault(env.guardNow)); return; }
      if env.guardNow.ns >= Earliest(c.deadline) {
        clients[k] := c.(closing := true);
        return Ok;
      }
      if c.deadline.session == 0 { return Ok; }
      if env.utc != Ok { code := Fail(k, env.utc); return; }
      if env.session == Ok { return Ok; }
      if env.session != NotFound && env.session != Timeout && env.session != Cancelled { code := Fail(k, env.session); return; }
      if env.guardNow.ns + rules.unauthenticated > U64_MAX { code := Fail(k, Overflow); return; }
      code := Replace(k, c.deadline.(session := 0, phase := env.guardNow.ns + rules.unauthenticated), env.guardNow.ns, env.guardTimers);
    }

    method NoteActivity(k: nat, bound: nat, submitted: bool, env: Env) returns (code: Code)
      requires k < clients.Length
      modifies this`wheel, clients, routes
      ensures Res(code, View()) == Activity(rules, old(View()), k, bound, submitted, env)
    {
      hide Install, Guard;
      code := GuardClient(k, env);
      if code != Ok || clients[k].closing { return; }
      var d := clients[k].deadline;
      if bound == 0 && (!submitted || d.session == 0) { return Ok; }
      if env.stampNow.NoTime? { code := Fail(k, ClockFault(env.stampNow)); return; }
      if env.stampNow.ns + rules.idle > U64_MAX { code := Fail(k, Overflow); return; }
      code := Replace(k, d.(session := if bound != 0 then bound else d.session, phase := env.stampNow.ns + rules.idle), env.stampNow.ns, env.timers);
    }

    method ChangeFrame(k: nat, frame: nat, marks: seq<Mark>, env: Env) returns (code: Code)
      requires k < clients.Length
      modifies this`wheel, clients, routes
      ensures Res(code, View()) == Change(old(View()), k, frame, marks, env)
    {
      hide Install;
      if clients[k].deadline.frame != frame {
        if env.syncNow.NoTime? { code := Fail(k, ClockFault(env.syncNow)); return; }
        code := Replace(k, clients[k].deadline.(frame := frame), env.syncNow.ns, env.timers);
        if code != Ok { return; }
      }
      clients[k] := clients[k].(marks := marks);
      return Ok;
    }

    /** After a receive and before anything is consumed: where does the buffered input stop being whole frames? */
    method CheckFrames(k: nat, seen: nat, env: Env) returns (code: Code)
      requires k < clients.Length
      modifies this`wheel, clients, routes
      ensures Res(code, View()) == Frames(rules, old(View()), k, seen, env)
    {
      hide Guard, Change, Cut;
      code := GuardClient(k, env);
      if code != Ok || clients[k].closing { return; }
      var c := clients[k];
      CutSize(rules, c.read);
      var ok, offset := FindBoundary(rules, c.read);
      if !ok { code := Fail(k, Protocol); return; }
      if offset == |c.read| {
        code := ChangeFrame(k, 0, c.marks, env);
      } else if c.deadline.frame == 0 || offset >= seen {
        if env.stampNow.NoTime? { code := Fail(k, ClockFault(env.stampNow)); return; }
        if env.stampNow.ns + rules.frame > U64_MAX { code := Fail(k, Overflow); return; }
        var due := env.stampNow.ns + rules.frame;
        var marks := if c.failed then c.marks else c.marks + [Mark(c.base + offset, due, env.stampNow.ns, c.base + seen)];
        code := ChangeFrame(k, due, marks, env);
      } else {
        return Ok;
      }
    }

    method CancelTimer(k: nat, answer: Code) returns (code: Code)
      requires k < clients.Length
      modifies this`wheel, clients, routes
      ensures Res(code, View()) == Cancel(old(View()), k, answer)
    {
      var b := clients[k].deadline.binding;
      if b.timer.owner == 0 { return Ok; }
      if answer != Ok { code := Fail(k, answer); return; }
      if b.timer !in wheel || b.timer.slot >= routes.Length { code := Fail(k, NotFound); return; }
      wheel := wheel - {b.timer};
      clients[k] := clients[k].(deadline := clients[k].deadline.(binding := NO_BINDING));
      routes[b.timer.slot] := NO_BINDING;
      return Ok;
    }

    method HandleExpired(h: Handle, check: Code) returns (code: Code)
      modifies clients, routes
      ensures Res(code, View()) == Expired(old(View()), h, check)
    {
      if h.slot >= routes.Length { return Ok; }
      var historical := routes[h.slot];
      if historical.timer != h { return Ok; }
      routes[h.slot] := NO_BINDING;
      if historical.client.slot >= clients.Length { return Internal; }
      var k := historical.client.slot;
      if clients[k].lease != historical.client || clients[k].deadline.binding.timer != h { return Ok; }
      clients[k] := clients[k].(deadline := clients[k].deadline.(binding := NO_BINDING));
      if check == NotFound { return Ok; }
      if check != Ok { code := Fail(k, check); return; }
      clients[k] := clients[k].(closing := true);
      return Ok;
    }
  }

  /** Installing does not look at the deadlines it replaces. */
  lemma InstallIgnores(s: Service, k: nat, d: Deadline, now: nat, t: Timers)
    requires k < |s.clients|
    ensures var w := Install(Put(s, k, s.clients[k].(deadline := d)), k, d, now, t);
            var i := Install(s, k, d, now, t);
            && i.code == w.code && (i.code == Ok ==> i.service == w.service)
            && (i.code != Ok ==> i == DeadlineModel.Failed(s, k, i.code))
  {
    hide Earliest, Vacant;
    var written := Put(s, k, s.clients[k].(deadline := d));
    SameVacant(s, written, t.handle);
    if Vacant(s, t.handle) { VacantFits(s, t.handle); }
  }

  lemma SameVacant(s: Service, t: Service, h: Handle)
    requires s.wheel == t.wheel && s.routes == t.routes
    ensures Vacant(s, h) == Vacant(t, h)
  {
  }
}
