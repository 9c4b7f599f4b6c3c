/**
  Connection deadlines as a value: each client has a phase deadline and, while its read buffer ends
  in an incomplete frame, a frame deadline. One timer per client stands for the earlier of the two; a
  table of routes leads from a timer back to its client. The timer wheel is a map from handle to deadline.
 */
module DeadlineModel {
  import opened Base
  import opened Framing

  datatype Handle = Handle(owner: nat, slot: nat, generation: nat)
  const NO_TIMER := Handle(0, 0, 0)
  datatype Binding = Binding(client: Lease, timer: Handle)
  const NO_BINDING := Binding(NO_LEASE, NO_TIMER)

  /** `frame` is zero while there is none; `session` is the authenticated handle, zero before that. */
  datatype Deadline = Deadline(binding: Binding, phase: nat, frame: nat, session: nat)
  const NO_DEADLINE := Deadline(NO_BINDING, 0, 0, 0)

  /** A frame whose first byte lies at stream position `at`, first seen incomplete at time `stamp` when `before` bytes had been seen. */
  datatype Mark = Mark(at: nat, due: nat, stamp: nat, before: nat)

  /**
    `read` is the unread input and `base` the stream position of its first byte. `failed` records that
    an operation on this client has returned an error; `marks` is every frame deadline set until then.
   */
  datatype Client = Client(lease: Lease, closing: bool, deadline: Deadline, read: seq<byte>, base: nat, failed: bool, marks: seq<Mark>)
  const NOBODY := Client(NO_LEASE, false, NO_DEADLINE, [], 0, false, [])

  /** Header codec, frame limit by command, and the three timeouts. */
  datatype Rules = Rules(codec: Codec, limit: seq<byte> -> nat, max: nat, unauthenticated: nat, frame: nat, idle: nat)

  datatype Service = Service(clients: seq<Client>, routes: seq<Binding>, wheel: map<Handle, nat>)
  datatype Res = Res(code: Code, service: Service)

  datatype Clock = Time(ns: nat) | NoTime(code: Code)

  /** Why the clock could not be read; never `Ok`. */
  function ClockFault(c: Clock): (code: Code)
    requires c.NoTime?
    ensures code != Ok
  {
    if c.code == Ok then Internal else c.code
  }
  datatype Timers = Timers(rearm: Code, register: Code, handle: Handle)

  /** The answers to one call: the clock read by the guard, for a stamp and for a re-arm; the session; the wheel. */
  datatype Env = Env(guardNow: Clock, stampNow: Clock, syncNow: Clock, utc: Code, session: Code, guardTimers: Timers, timers: Timers)

  function Earliest(d: Deadline): nat
  {
    if d.frame != 0 && d.frame < d.phase then d.frame else d.phase
  }

  function Put(s: Service, k: nat, c: Client): Service
    requires k < |s.clients|
  {
    s.(clients := s.clients[k := c])
  }

  function Failed(s: Service, k: nat, code: Code): Res
    requires k < |s.clients|
  {
    Res(code, Put(s, k, s.clients[k].(failed := true)))
  }

  /** A slot of the wheel not in use. */
  predicate Vacant(s: Service, h: Handle)
  {
    h.owner != 0 && h.slot < |s.routes| && forall g :: g in s.wheel ==> g.slot != h.slot
  }

  /** Gives client `k` the deadlines `d` and its timer their minimum; a refusal leaves both as they were. */
  function Install(s: Service, k: nat, d: Deadline, now: nat, t: Timers): (r: Res)
    requires k < |s.clients|
  {
    if d.binding.timer.owner != 0 then
      if t.rearm != Ok then Failed(s, k, t.rearm)
      else if d.binding.timer !in s.wheel then Failed(s, k, NotFound)
      else if Earliest(d) <= now then Failed(s, k, Timeout)
      else Res(Ok, Put(s.(wheel := s.wheel[d.binding.timer := Earliest(d)]), k, s.clients[k].(deadline := d)))
    else
      if t.register != Ok then Failed(s, k, t.register)
      else if Earliest(d) <= now then Failed(s, k, Timeout)
      else if !Vacant(s, t.handle) then Failed(s, k, Busy)
      else
        var b := Binding(s.clients[k].lease, t.handle);
        Res(Ok, Put(s.(wheel := s.wheel[t.handle := Earliest(d)], routes := s.routes[t.handle.slot := b]), k, s.clients[k].(deadline := d.(binding := b))))
  }

  function Start(r: Rules, s: Service, k: nat, env: Env): (res: Res)
    requires k < |s.clients|
  {
    var c := s.clients[k];
    if c.deadline.phase != 0 then Res(Ok, s)
    else if env.stampNow.NoTime? then Failed(s, k, ClockFault(env.stampNow))
    else if env.stampNow.ns + r.unauthenticated > U64_MAX then Failed(s, k, Overflow)
    else Install(s, k, c.deadline.(phase := env.stampNow.ns + r.unauthenticated), env.stampNow.ns, env.timers)
  }

  /** Expiry first; then a session that is gone falls back to the unauthenticated deadline. */
  function Guard(r: Rules, s: Service, k: nat, env: Env): (res: Res)
    requires k < |s.clients|
  {
    var c := s.clients[k];
    if c.deadline.phase == 0 || c.closing then Res(Ok, s)
    else if env.guardNow.NoTime? then Failed(s, k, ClockFault(env.guardNow))
    else if env.guardNow.ns >= Earliest(c.deadline) then Res(Ok, Put(s, k, c.(closing := true)))
    else if c.deadline.session == 0 then Res(Ok, s)
    else if env.utc != Ok then Failed(s, k, env.utc)
    else if env.session == Ok then Res(Ok, s)
    else if env.session !in {NotFound, Timeout, Cancelled} then Failed(s, k, env.session)
    else if env.guardNow.ns + r.unauthenticated > U64_MAX then Failed(s, k, Overflow)
    else Install(s, k, c.deadline.(session := 0, phase := env.guardNow.ns + r.unauthenticated), env.guardNow.ns, env.guardTimers)
  }

  /** A session was bound, or an authenticated client submitted: the idle deadline starts over. */
  function Activity(r: Rules, s: Service, k: nat, bound: nat, submitted: bool, env: Env): (res: Res)
    requires k < |s.clients|
  {
    var g := Guard(r, s, k, env);
    if g.code != Ok || g.service.clients[k].closing then g
    else
      var d := g.service.clients[k].deadline;
      if bound == 0 && (!submitted || d.session == 0) then g
      else if env.stampNow.NoTime? then Failed(g.service, k, ClockFault(env.stampNow))
      else if env.stampNow.ns + r.idle > U64_MAX then Failed(g.service, k, Overflow)
      else Install(g.service, k, d.(session := if bound != 0 then bound else d.session, phase := env.stampNow.ns + r.idle), env.stampNow.ns, env.timers)
  }

  /** Frame boundaries only: the checksum is not looked at, and each command has its own limit. */
  function Boundary(r: Rules): Codec
  {
    Codec(h => match r.codec.header(h)
               case Malformed(d) => Malformed(d)
               case Declares(body) => if HEADER + body > r.limit(h) then Malformed(0) else Declares(body),
          f => None)
  }

  function Cut(r: Rules, read: seq<byte>): Parsed
  {
    Parse(Boundary(r), r.max, read)
  }

  /** The frame deadline after the bytes from `seen` on arrived: none, the one before, or a new one. */
  datatype Choice = Keep | Clear | Stamp

  function Choose(frame: nat, cut: Parsed, size: nat, seen: nat): Choice
    requires |cut.rest| <= size
  {
    if cut.rest == [] then Clear
    else if frame == 0 || size - |cut.rest| >= seen then Stamp
    else Keep
  }

  /** Brings the frame deadline up to date with the read buffer, whose first `seen` bytes are not new. */
  function Update(r: Rules, s: Service, k: nat, seen: nat, env: Env): (res: Res)
    requires k < |s.clients|
  {
    var c := s.clients[k];
    var cut := Cut(r, c.read);
    CutSize(r, c.read);
    if cut.issue.Some? then Failed(s, k, Protocol)
    else match Choose(c.deadline.frame, cut, |c.read|, seen)
      case Keep => Res(Ok, s)
      case Clear => Change(s, k, 0, c.marks, env)
      case Stamp =>
        if env.stampNow.NoTime? then Failed(s, k, ClockFault(env.stampNow))
        else if env.stampNow.ns + r.frame > U64_MAX then Failed(s, k, Overflow)
        else
          var due := env.stampNow.ns + r.frame;
          var mark := Mark(c.base + |c.read| - |cut.rest|, due, env.stampNow.ns, c.base + seen);
          Change(s, k, due, if c.failed then c.marks else c.marks + [mark], env)
  }

  function Frames(r: Rules, s: Service, k: nat, seen: nat, env: Env): (res: Res)
    requires k < |s.clients|
  {
    var g := Guard(r, s, k, env);
    if g.code != Ok || g.service.clients[k].closing then g else Update(r, g.service, k, seen, env)
  }

  /** Installs a new frame deadline; the timer is left alone when the value is the same. */
  function Change(s: Service, k: nat, frame: nat, marks: seq<Mark>, env: Env): (res: Res)
    requires k < |s.clients|
  {
    var c := s.clients[k];
    if c.deadline.frame == frame then Res(Ok, Put(s, k, c.(marks := marks)))
    else if env.syncNow.NoTime? then Failed(s, k, ClockFault(env.syncNow))
    else
      var i := Install(s, k, c.deadline.(frame := frame), env.syncNow.ns, env.timers);
      if i.code != Ok then i else Res(Ok, Put(i.service, k, i.service.clients[k].(marks := marks)))
  }

  lemma CutSize(r: Rules, read: seq<byte>)
    ensures |Cut(r, read).rest| <= |read| && Total(Cut(r, read).frames) + |Cut(r, read).rest| == |read|
  {
    ParseReassembles(Boundary(r), r.max, read);
  }

  function Cancel(s: Service, k: nat, answer: Code): (res: Res)
    requires k < |s.clients|
  {
    var b := s.clients[k].deadline.binding;
    if b.timer.owner == 0 then Res(Ok, s)
    else if answer != Ok then Failed(s, k, answer)
    else if b.timer !in s.wheel || b.timer.slot >= |s.routes| then Failed(s, k, NotFound)
    else
      var c := s.clients[k];
      Res(Ok, Put(s.(wheel := s.wheel - {b.timer}, routes := s.routes[b.timer.slot := NO_BINDING]), k, c.(deadline := c.deadline.(binding := NO_BINDING))))
  }

  /** A timer taken off the wheel: find its client through the route and close it. */
  function Expired(s: Service, h: Handle, check: Code): (res: Res)
  {
    if h.slot >= |s.routes| || s.routes[h.slot].timer != h then Res(Ok, s)
    else
      var b := s.routes[h.slot];
      var t := s.(routes := s.routes[h.slot := NO_BINDING]);
      if b.client.slot >= |s.clients| then Res(Internal, t)
      else
        var k := b.client.slot;
        var c := s.clients[k];
        if c.lease != b.client || c.deadline.binding.timer != h then Res(Ok, t)
        else
          var d := c.(deadline := c.deadline.(binding := NO_BINDING));
          if check == NotFound then Res(Ok, Put(t, k, d))
          else if check != Ok then Res(check, Put(t, k, d.(failed := true)))
          else Res(Ok, Put(t, k, d.(closing := true)))
  }

  // ---- Runs ----------------------------------------------------------------------------------

  datatype Event =
    | Admit(lease: Lease)
    | Begin(at: nat, env: Env)
    | Watch(at: nat, env: Env)
    | Turn(at: nat, bytes: seq<byte>, env: Env)
    | Consume(at: nat, frames: nat)
    | Active(at: nat, bound: nat, submitted: bool, env: Env)
    | Fire(handle: Handle, check: Code)
    | Close(at: nat)
    | Cleanup(at: nat, cancel: Code, released: bool)

  /** Bytes arrive; then the frame deadline is brought up to date. */
  function Receive(r: Rules, s: Service, k: nat, bytes: seq<byte>, env: Env): (res: Res)
    requires k < |s.clients|
  {
    var c := s.clients[k];
    Frames(r, Put(s, k, c.(read := c.read + bytes)), k, |c.read|, env)
  }

  /** Removes the first `n` frames of the read buffer. */
  function Drop(r: Rules, c: Client, n: nat): Client
  {
    var cut := Cut(r, c.read);
    if n > |cut.frames| then c
    else
      ParseAfter(Boundary(r), r.max, c.read, n);
      var d := Total(cut.frames[..n]);
      c.(read := c.read[d..], base := c.base + d)
  }

  function Clean(s: Service, k: nat, cancel: Code, released: bool): Service
    requires k < |s.clients|
  {
    var c := Cancel(s, k, cancel);
    if c.code == Ok && released then Put(c.service, k, NOBODY) else c.service
  }

  predicate Present(s: Service, k: nat)
  {
    k < |s.clients| && s.clients[k].lease != NO_LEASE
  }

  function Step(r: Rules, s: Service, e: Event): (t: Service)
  {
    match e
    case Admit(l) => if l.slot < |s.clients| && s.clients[l.slot] == NOBODY && LeaseShaped(l) then Put(s, l.slot, NOBODY.(lease := l)) else s
    case Begin(k, env) => if Present(s, k) then Start(r, s, k, env).service else s
    case Watch(k, env) => if Present(s, k) then Guard(r, s, k, env).service else s
    case Turn(k, bytes, env) => if Present(s, k) && !s.clients[k].closing then Receive(r, s, k, bytes, env).service else s
    case Consume(k, n) => if Present(s, k) && !s.clients[k].closing then Put(s, k, Drop(r, s.clients[k], n)) else s
    case Active(k, bound, submitted, env) => if Present(s, k) then Activity(r, s, k, bound, submitted, env).service else s
    case Fire(h, check) => if h in s.wheel then Expired(s.(wheel := s.wheel - {h}), h, check).service else s
    case Close(k) => if Present(s, k) then Put(s, k, s.clients[k].(closing := true)) else s
    case Cleanup(k, cancel, released) => if Present(s, k) && s.clients[k].closing then Clean(s, k, cancel, released) else s
  }

  // ---- Timers and routes ---------------------------------------------------------------------

  /** The armed timer of client `k` holds the earlier deadline and its route leads back. */
  ghost predicate BindingOk(s: Service, k: nat)
    requires k < |s.clients|
  {
    var d := s.clients[k].deadline;
    if d.binding.timer.owner == 0 then d.binding == NO_BINDING
    else
      && d.binding.client == s.clients[k].lease && d.binding.client.slot == k
      && d.binding.timer.slot < |s.routes| && s.routes[d.binding.timer.slot] == d.binding
      && d.binding.timer in s.wheel && s.wheel[d.binding.timer] == Earliest(d)
  }

  ghost predicate RouteOk(s: Service, j: nat)
    requires j < |s.routes|
  {
    var b := s.routes[j];
    if b.timer.owner == 0 then b == NO_BINDING
    else b.timer.slot == j && b.timer in s.wheel && b.client.slot < |s.clients| && s.clients[b.client.slot].deadline.binding == b
  }

  ghost predicate HandleOk(s: Service, h: Handle)
  {
    h.owner != 0 && h.slot < |s.routes| && s.routes[h.slot].timer == h
  }

  ghost predicate TimersOk(s: Service)
  {
    && (forall k :: 0 <= k < |s.clients| ==> BindingOk(s, k))
    && (forall j :: 0 <= j < |s.routes| ==> RouteOk(s, j))
    && (forall h :: h in s.wheel ==> HandleOk(s, h))
    && (forall k :: 0 <= k < |s.clients| && s.clients[k].lease != NO_LEASE ==> s.clients[k].lease.slot == k)
  }

  // ---- Frame deadlines -----------------------------------------------------------------------

  predicate MarksOk(r: Rules, marks: seq<Mark>)
  {
    && (forall i :: 0 <= i < |marks| ==> marks[i].due == marks[i].stamp + r.frame && marks[i].before <= marks[i].at)
    && (forall i, j :: 0 <= i < j < |marks| ==> marks[i].at < marks[j].at)
  }

  /**
    For a client without errors: there is a frame deadline exactly when the buffer ends in an
    incomplete frame, and it is the one set when that frame, and no later one, was first seen.
   */
  ghost predicate FrameOk(r: Rules, c: Client)
  {
    var cut := Cut(r, c.read);
    && MarksOk(r, c.marks)
    && |cut.rest| <= |c.read|
    && (!c.failed && !c.closing ==>
          && cut.issue.None?
          && (c.deadline.frame != 0 <==> cut.rest != [])
          && (c.deadline.frame != 0 ==> c.marks != [] && c.marks[|c.marks| - 1].at == c.base + |c.read| - |cut.rest| && c.marks[|c.marks| - 1].due == c.deadline.frame)
          && (c.deadline.frame == 0 ==> forall i :: 0 <= i < |c.marks| ==> c.marks[i].at < c.base + |c.read|))
  }

  ghost predicate Inv(r: Rules, s: Service)
  {
    TimersOk(s) && 0 < r.frame && forall k :: 0 <= k < |s.clients| ==> FrameOk(r, s.clients[k])
  }

  // ---- Every step keeps the timers -----------------------------------------------------------

  /** Only client `k` differs. */
  ghost predicate OnlyAt(s: Service, t: Service, k: nat)
  {
    && |t.clients| == |s.clients| && k < |s.clients| && |t.routes| == |s.routes|
    && (forall j :: 0 <= j < |s.clients| && j != k ==> t.clients[j] == s.clients[j])
  }

  /** Bookkeeping changed at most: not the input, not the frame deadline, not the marks. */
  predicate Mild(c: Client, d: Client)
  {
    && d == c.(deadline := d.deadline, closing := d.closing, failed := d.failed)
    && d.deadline.frame == c.deadline.frame && (c.closing ==> d.closing) && (c.failed ==> d.failed)
  }

  lemma PutTimers(s: Service, k: nat, c: Client)
    requires TimersOk(s) && k < |s.clients|
    requires c.lease == s.clients[k].lease && c.deadline.binding == s.clients[k].deadline.binding
    requires c.deadline.binding.timer.owner != 0 ==> Earliest(c.deadline) == Earliest(s.clients[k].deadline)
    ensures TimersOk(Put(s, k, c))
  {
    hide Earliest;
    var t := Put(s, k, c);
    forall j | 0 <= j < |t.clients| ensures BindingOk(t, j) { assert BindingOk(s, j); }
    forall j | 0 <= j < |t.routes| ensures RouteOk(t, j) { assert RouteOk(s, j); }
    forall h | h in t.wheel ensures HandleOk(t, h) { assert HandleOk(s, h); }
  }

  lemma RearmTimers(s: Service, k: nat, d: Deadline)
    requires TimersOk(s) && k < |s.clients| && d.binding == s.clients[k].deadline.binding && d.binding.timer.owner != 0 && d.binding.timer in s.wheel
    ensures TimersOk(Put(s.(wheel := s.wheel[d.binding.timer := Earliest(d)]), k, s.clients[k].(deadline := d)))
  {
    hide Earliest;
    var t := Put(s.(wheel := s.wheel[d.binding.timer := Earliest(d)]), k, s.clients[k].(deadline := d));
    forall j | 0 <= j < |t.clients| ensures BindingOk(t, j) { assert BindingOk(s, j) && BindingOk(s, k); }
    forall j | 0 <= j < |t.routes| ensures RouteOk(t, j) { assert RouteOk(s, j); }
    forall h | h in t.wheel ensures HandleOk(t, h) { assert HandleOk(s, h); }
  }

  lemma VacantRoute(s: Service, h: Handle)
    requires TimersOk(s) && Vacant(s, h)
    ensures s.routes[h.slot] == NO_BINDING && h !in s.wheel
    ensures forall j :: 0 <= j < |s.clients| ==> s.clients[j].deadline.binding.timer.owner == 0 || s.clients[j].deadline.binding.timer.slot != h.slot
  {
    assert RouteOk(s, h.slot);
    forall j | 0 <= j < |s.clients| ensures s.clients[j].deadline.binding.timer.owner == 0 || s.clients[j].deadline.binding.timer.slot != h.slot {
      assert BindingOk(s, j);
    }
  }

  lemma RegisterTimers(s: Service, k: nat, d: Deadline, h: Handle)
    requires TimersOk(s) && Present(s, k) && s.clients[k].deadline.binding == NO_BINDING && Vacant(s, h)
    ensures var b := Binding(s.clients[k].lease, h);
            TimersOk(Put(s.(wheel := s.wheel[h := Earliest(d)], routes := s.routes[h.slot := b]), k, s.clients[k].(deadline := d.(binding := b))))
  {
    hide Vacant;
    VacantRoute(s, h);
    VacantFits(s, h);
    var b := Binding(s.clients[k].lease, h);
    var t := Put(s.(wheel := s.wheel[h := Earliest(d)], routes := s.routes[h.slot := b]), k, s.clients[k].(deadline := d.(binding := b)));
    forall j | 0 <= j < |t.clients| ensures BindingOk(t, j) { assert BindingOk(s, j); }
    forall j | 0 <= j < |t.routes| ensures RouteOk(t, j) { assert RouteOk(s, j); }
    forall g | g in t.wheel ensures HandleOk(t, g) { if g != h { assert HandleOk(s, g); } }
  }

  lemma VacantFits(s: Service, h: Handle)
    requires Vacant(s, h)
    ensures h.owner != 0 && h.slot < |s.routes| && forall g :: g in s.wheel ==> g.slot != h.slot
  {
  }

  lemma FailedKeeps(s: Service, k: nat, code: Code)
    requires TimersOk(s) && k < |s.clients|
    ensures var r := Failed(s, k, code);
            TimersOk(r.service) && OnlyAt(s, r.service, k) && r.service.clients[k] == s.clients[k].(failed := true) && r.code == code
  {
    hide TimersOk;
    PutTimers(s, k, s.clients[k].(failed := true));
  }

  /** Installing deadlines keeps timers and routes in order, and on failure leaves the client's deadlines as they were. */
  lemma InstallTimers(s: Service, k: nat, d: Deadline, now: nat, t: Timers)
    requires TimersOk(s) && Present(s, k) && d.binding == s.clients[k].deadline.binding
    ensures var r := Install(s, k, d, now, t);
            && TimersOk(r.service) && OnlyAt(s, r.service, k)
            && (r.code == Ok ==> r.service.clients[k] == s.clients[k].(deadline := d.(binding := r.service.clients[k].deadline.binding)))
            && (r.code != Ok ==> r.service.clients[k] == s.clients[k].(failed := true))
  {
    hide TimersOk, Earliest, Vacant, Failed;
    assert d.binding.timer.owner == 0 ==> d.binding == NO_BINDING by { ClientBinding(s, k); }
    FailedKeeps(s, k, t.rearm);
    FailedKeeps(s, k, t.register);
    FailedKeeps(s, k, NotFound);
    FailedKeeps(s, k, Timeout);
    FailedKeeps(s, k, Busy);
    if d.binding.timer.owner != 0 {
      if d.binding.timer in s.wheel { RearmTimers(s, k, d); }
    } else if Vacant(s, t.handle) {
      VacantFits(s, t.handle);
      RegisterTimers(s, k, d, t.handle);
    }
  }

  lemma ClientBinding(s: Service, k: nat)
    requires TimersOk(s) && k < |s.clients|
    ensures BindingOk(s, k)
  {
  }

  lemma StartKeeps(r: Rules, s: Service, k: nat, env: Env)
    requires TimersOk(s) && Present(s, k)
    ensures var t := Start(r, s, k, env).service; TimersOk(t) && OnlyAt(s, t, k) && Mild(s.clients[k], t.clients[k])
  {
    hide TimersOk, Install, Failed;
    var c := s.clients[k];
    if env.stampNow.NoTime? { FailedKeeps(s, k, ClockFault(env.stampNow)); }
    FailedKeeps(s, k, Overflow);
    if env.stampNow.Time? {
      InstallTimers(s, k, c.deadline.(phase := env.stampNow.ns + r.unauthenticated), env.stampNow.ns, env.timers);
    }
  }

  lemma GuardKeeps(r: Rules, s: Service, k: nat, env: Env)
    requires TimersOk(s) && Present(s, k)
    ensures var g := Guard(r, s, k, env);
            && TimersOk(g.service) && OnlyAt(s, g.service, k) && Mild(s.clients[k], g.service.clients[k]) && Present(g.service, k)
            && (g.code != Ok ==> g.service.clients[k].failed)
  {
    hide TimersOk, Install, Failed;
    var c := s.clients[k];
    PutTimers(s, k, c.(closing := true));
    if env.guardNow.NoTime? { FailedKeeps(s, k, ClockFault(env.guardNow)); }
    FailedKeeps(s, k, Overflow);
    FailedKeeps(s, k, env.utc);
    FailedKeeps(s, k, env.session);
    if env.guardNow.Time? {
      InstallTimers(s, k, c.deadline.(session := 0, phase := env.guardNow.ns + r.unauthenticated), env.guardNow.ns, env.guardTimers);
    }
  }

  lemma ActivityKeeps(r: Rules, s: Service, k: nat, bound: nat, submitted: bool, env: Env)
    requires TimersOk(s) && Present(s, k)
    ensures var t := Activity(r, s, k, bound, submitted, env).service; TimersOk(t) && OnlyAt(s, t, k) && Mild(s.clients[k], t.clients[k])
  {
    hide TimersOk, Install, Failed, Guard;
    GuardKeeps(r, s, k, env);
    var g := Guard(r, s, k, env);
    var d := g.service.clients[k].deadline;
    if env.stampNow.NoTime? { FailedKeeps(g.service, k, ClockFault(env.stampNow)); }
    FailedKeeps(g.service, k, Overflow);
    if env.stampNow.Time? {
      InstallTimers(g.service, k, d.(session := if bound != 0 then bound else d.session, phase := env.stampNow.ns + r.idle), env.stampNow.ns, env.timers);
    }
  }

  /** After a change of the frame deadline: done, with timer and marks, or undone but for the failure flag. */
  lemma ChangeKeeps(s: Service, k: nat, frame: nat, marks: seq<Mark>, env: Env)
    requires TimersOk(s) && Present(s, k)
    ensures var r := Change(s, k, frame, marks, env);
            var c := s.clients[k];
            && TimersOk(r.service) && OnlyAt(s, r.service, k)
            && (r.code != Ok ==> r.service.clients[k] == c.(failed := true))
            && (r.code == Ok ==>
                  && r.service.clients[k] == c.(deadline := r.service.clients[k].deadline, marks := marks)
                  && r.service.clients[k].deadline.frame == frame)
  {
    hide TimersOk, Install, Failed, Earliest;
    var c := s.clients[k];
    if c.deadline.frame == frame {
      PutTimers(s, k, c.(marks := marks));
    } else if env.syncNow.NoTime? {
      FailedKeeps(s, k, ClockFault(env.syncNow));
    } else {
      InstallTimers(s, k, c.deadline.(frame := frame), env.syncNow.ns, env.timers);
      var i := Install(s, k, c.deadline.(frame := frame), env.syncNow.ns, env.timers);
      if i.code == Ok { PutTimers(i.service, k, i.service.clients[k].(marks := marks)); }
    }
  }

  lemma CancelKeeps(s: Service, k: nat, answer: Code)
    requires TimersOk(s) && Present(s, k)
    ensures var r := Cancel(s, k, answer);
            && TimersOk(r.service) && OnlyAt(s, r.service, k) && Mild(s.clients[k], r.service.clients[k])
            && (r.code == Ok ==> r.service.clients[k].deadline.binding == NO_BINDING)
  {
    hide Earliest, Failed;
    FailedKeeps(s, k, answer);
    FailedKeeps(s, k, NotFound);
    ClientBinding(s, k);
    var r := Cancel(s, k, answer);
    var b := s.clients[k].deadline.binding;
    if r.code == Ok && b.timer.owner != 0 {
      Unbind(s, k, s.clients[k].(deadline := s.clients[k].deadline.(binding := NO_BINDING)));
    }
  }

  /** A timer leaves the wheel together with its route and its binding. */
  lemma Unbind(s: Service, k: nat, c: Client)
    requires TimersOk(s) && k < |s.clients| && s.clients[k].deadline.binding.timer.owner != 0
    requires c.lease == s.clients[k].lease && c.deadline.binding == NO_BINDING
    ensures var h := s.clients[k].deadline.binding.timer;
            h.slot < |s.routes| && TimersOk(Put(s.(wheel := s.wheel - {h}, routes := s.routes[h.slot := NO_BINDING]), k, c))
  {
    hide Earliest;
    ClientBinding(s, k);
    var h := s.clients[k].deadline.binding.timer;
    var t := Put(s.(wheel := s.wheel - {h}, routes := s.routes[h.slot := NO_BINDING]), k, c);
    forall j | 0 <= j < |t.clients| ensures BindingOk(t, j) { assert BindingOk(s, j); }
    forall j | 0 <= j < |t.routes| ensures RouteOk(t, j) { assert RouteOk(s, j); }
    forall g | g in t.wheel ensures HandleOk(t, g) { assert HandleOk(s, g) && HandleOk(s, h); }
  }

  /** A timer that fires reaches exactly the client it was armed for; the lookup through the route never goes wrong. */
  lemma FireReachesItsClient(s: Service, h: Handle, check: Code)
    requires TimersOk(s) && h in s.wheel
    ensures h.slot < |s.routes|
    ensures var k := s.routes[h.slot].client.slot;
            var r := Expired(s.(wheel := s.wheel - {h}), h, check);
            && k < |s.clients| && s.clients[k].deadline.binding.timer == h && s.wheel[h] == Earliest(s.clients[k].deadline)
            && r.code == (if check == NotFound then Ok else check)
            && TimersOk(r.service) && OnlyAt(s, r.service, k) && Mild(s.clients[k], r.service.clients[k])
            && r.service.clients[k].closing == (s.clients[k].closing || check == Ok) && r.service.clients[k].deadline.binding == NO_BINDING
  {
    hide Earliest;
    assert HandleOk(s, h);
    assert RouteOk(s, h.slot);
    var k := s.routes[h.slot].client.slot;
    ClientBinding(s, k);
    var c := s.clients[k];
    var d := c.(deadline := c.deadline.(binding := NO_BINDING));
    Unbind(s, k, d);
    Unbind(s, k, d.(failed := true));
    Unbind(s, k, d.(closing := true));
  }

  // ---- Every step keeps the frame deadlines --------------------------------------------------

  lemma MildFrame(r: Rules, c: Client, d: Client)
    requires FrameOk(r, c) && Mild(c, d)
    ensures FrameOk(r, d)
  {
    hide MarksOk, Cut;
  }

  /** However much arrives, an incomplete tail either stays where it was or the new one starts in the new bytes. */
  lemma TailMoves(codec: Codec, max: nat, s: seq<byte>, t: seq<byte>)
    requires Parse(codec, max, s).issue.None? && Parse(codec, max, s + t).issue.None?
    ensures var p, q := Parse(codec, max, s), Parse(codec, max, s + t);
            var a, b := |s| - |p.rest|, |s + t| - |q.rest|;
            a <= b && (b == a || b >= |s|) && |q.rest| <= |s + t| && |p.rest| <= |s|
  {
    hide First, Parse, Flatten;
    var p := Parse(codec, max, s);
    ParseExtends(codec, max, s, t);
    ParseReassembles(codec, max, s);
    ParseReassembles(codec, max, s + t);
    ParseReassembles(codec, max, p.rest + t);
    RestIsShort(codec, max, s);
    FirstFrameLonger(codec, max, p.rest, t);
  }

  /** What is left over does not hold a whole frame. */
  lemma {:induction false} RestIsShort(codec: Codec, max: nat, s: seq<byte>)
    requires Parse(codec, max, s).issue.None?
    ensures First(codec, max, Parse(codec, max, s).rest).More?
    decreases |s|
  {
    hide First;
    var v := First(codec, max, s);
    if v.Frame? { RestIsShort(codec, max, s[v.size..]); }
  }

  lemma FirstFrameLonger(codec: Codec, max: nat, rest: seq<byte>, t: seq<byte>)
    requires First(codec, max, rest).More?
    ensures var p := Parse(codec, max, rest + t);
            if p.frames == [] then p.rest == rest + t else |p.rest| <= |t|
  {
    hide First;
    var v := First(codec, max, rest + t);
    if v.Frame? {
      FrameWithin(codec, max, rest, t);
      RestShrinks(codec, max, (rest + t)[v.size..]);
    }
  }

  /** A frame that ends inside `s` is there without what follows. */
  lemma FrameWithin(codec: Codec, max: nat, s: seq<byte>, t: seq<byte>)
    requires First(codec, max, s + t).Frame?
    ensures First(codec, max, s + t).size <= |s| ==> First(codec, max, s) == First(codec, max, s + t)
  {
    var v := First(codec, max, s + t);
    if v.size <= |s| {
      assert (s + t)[..HEADER] == s[..HEADER];
      assert (s + t)[..v.size] == s[..v.size];
    }
  }

  lemma RestShrinks(codec: Codec, max: nat, s: seq<byte>)
    ensures |Parse(codec, max, s).rest| <= |s|
  {
    ParseReassembles(codec, max, s);
  }

  lemma ClearOk(r: Rules, c: Client, bytes: seq<byte>, d: Client)
    requires FrameOk(r, c) && !c.failed && !c.closing && 0 < r.frame
    requires d == c.(read := c.read + bytes, deadline := d.deadline) && d.deadline.frame == 0
    requires Cut(r, d.read).issue.None? && Cut(r, d.read).rest == []
    ensures FrameOk(r, d)
  {
    hide Cut;
    if c.deadline.frame != 0 {
      var n := |c.marks| - 1;
      assert forall i :: 0 <= i < n ==> c.marks[i].at < c.marks[n].at;
    }
  }

  lemma KeepOk(r: Rules, c: Client, bytes: seq<byte>, d: Client)
    requires FrameOk(r, c) && !c.failed && !c.closing
    requires d == c.(read := c.read + bytes, deadline := d.deadline) && d.deadline.frame == c.deadline.frame != 0
    requires Cut(r, d.read).issue.None? && |d.read| - |Cut(r, d.read).rest| < |c.read| && Cut(r, d.read).rest != []
    ensures FrameOk(r, d)
  {
    hide Cut, MarksOk;
    assert Cut(r, c.read) == Parse(Boundary(r), r.max, c.read) && Cut(r, d.read) == Parse(Boundary(r), r.max, c.read + bytes) by { CutIs(r, c.read); CutIs(r, d.read); }
    TailMoves(Boundary(r), r.max, c.read, bytes);
  }

  lemma CutIs(r: Rules, read: seq<byte>)
    ensures Cut(r, read) == Parse(Boundary(r), r.max, read)
  {
  }

  lemma StampOk(r: Rules, c: Client, bytes: seq<byte>, d: Client, m: Mark)
    requires FrameOk(r, c) && !c.failed && !c.closing && 0 < r.frame
    requires d == c.(read := c.read + bytes, deadline := d.deadline, marks := c.marks + [m])
    requires var cut := Cut(r, d.read);
             && cut.issue.None? && cut.rest != [] && |cut.rest| <= |d.read|
             && m == Mark(c.base + |d.read| - |cut.rest|, m.due, m.stamp, c.base + |c.read|) && m.due == m.stamp + r.frame == d.deadline.frame
             && (c.deadline.frame == 0 || |d.read| - |cut.rest| >= |c.read|)
    ensures FrameOk(r, d)
  {
    hide Cut;
    var n := |c.marks|;
    assert Cut(r, c.read) == Parse(Boundary(r), r.max, c.read) && Cut(r, d.read) == Parse(Boundary(r), r.max, c.read + bytes) by { CutIs(r, c.read); CutIs(r, d.read); }
    TailMoves(Boundary(r), r.max, c.read, bytes);
    assert m.at >= c.base + |c.read|;
    assert forall i :: 0 <= i < n ==> c.marks[i].at < c.base + |c.read| by {
      if c.deadline.frame != 0 { assert forall i :: 0 <= i < n - 1 ==> c.marks[i].at < c.marks[n - 1].at; }
    }
  }

  /** A client that is closing or has failed is only held to what its marks say. */
  lemma DoneOk(r: Rules, c: Client, d: Client)
    requires FrameOk(r, c) && d.marks == c.marks && (d.failed || d.closing)
    ensures FrameOk(r, d)
  {
    hide Cut, MarksOk;
    CutSize(r, d.read);
  }

  lemma ReceiveKeeps(r: Rules, s: Service, k: nat, bytes: seq<byte>, env: Env)
    requires TimersOk(s) && Present(s, k) && !s.clients[k].closing && FrameOk(r, s.clients[k]) && 0 < r.frame
    ensures var t := Receive(r, s, k, bytes, env).service;
            TimersOk(t) && OnlyAt(s, t, k) && FrameOk(r, t.clients[k])
  {
    hide TimersOk, Guard, Change, FrameOk, Cut, Failed;
    var c := s.clients[k];
    var s1 := Put(s, k, c.(read := c.read + bytes));
    PutTimers(s, k, c.(read := c.read + bytes));
    GuardKeeps(r, s1, k, env);
    var g := Guard(r, s1, k, env);
    var d := g.service.clients[k];
    if g.code != Ok || d.closing {
      DoneOk(r, c, d);
    } else {
      ChoicesKeep(r, s, k, bytes, g.service, env);
    }
  }

  lemma ChoicesKeep(r: Rules, s: Service, k: nat, bytes: seq<byte>, g: Service, env: Env)
    requires TimersOk(g) && Present(g, k) && OnlyAt(s, g, k) && FrameOk(r, s.clients[k]) && 0 < r.frame
    requires Mild(s.clients[k].(read := s.clients[k].read + bytes), g.clients[k]) && !g.clients[k].closing
    ensures var t := Update(r, g, k, |s.clients[k].read|, env).service;
            TimersOk(t) && OnlyAt(s, t, k) && FrameOk(r, t.clients[k])
  {
    hide TimersOk, Change, FrameOk, Cut, Failed;
    var c, d := s.clients[k], g.clients[k];
    var cut := Cut(r, d.read);
    CutSize(r, d.read);
    var t := Update(r, g, k, |c.read|, env);
    FailedKeeps(g, k, Protocol);
    FailedKeeps(g, k, Overflow);
    if env.stampNow.NoTime? { FailedKeeps(g, k, ClockFault(env.stampNow)); }
    ChangeKeeps(g, k, 0, d.marks, env);
    var stamp := if env.stampNow.Time? then env.stampNow.ns else 0;
    var due := stamp + r.frame;
    var mark := Mark(d.base + |d.read| - |cut.rest|, due, stamp, d.base + |c.read|);
    ChangeKeeps(g, k, due, if d.failed then d.marks else d.marks + [mark], env);
    var e := t.service.clients[k];
    if e.failed || e.closing {
      DoneOk(r, c, e);
    } else if cut.rest == [] {
      ClearOk(r, c, bytes, e);
    } else if Choose(d.deadline.frame, cut, |d.read|, |c.read|) == Keep {
      KeepOk(r, c, bytes, e);
    } else {
      StampOk(r, c, bytes, e, mark);
    }
  }

  lemma DropKeeps(r: Rules, c: Client, n: nat)
    requires FrameOk(r, c)
    ensures FrameOk(r, Drop(r, c, n))
  {
    hide MarksOk, Parse;
    if n <= |Cut(r, c.read).frames| { ParseAfter(Boundary(r), r.max, c.read, n); }
    CutSize(r, Drop(r, c, n).read);
  }

  lemma NewcomerOk(r: Rules, l: Lease)
    ensures FrameOk(r, NOBODY.(lease := l))
  {
  }

  lemma SeatTimers(s: Service, k: nat, c: Client)
    requires TimersOk(s) && k < |s.clients| && s.clients[k].deadline.binding == NO_BINDING && c.deadline.binding == NO_BINDING
    requires c.lease == NO_LEASE || c.lease.slot == k
    ensures TimersOk(Put(s, k, c))
  {
    hide Earliest;
    var t := Put(s, k, c);
    forall j | 0 <= j < |t.clients| ensures BindingOk(t, j) { assert BindingOk(s, j); }
    forall j | 0 <= j < |t.routes| ensures RouteOk(t, j) { assert RouteOk(s, j); }
    forall h | h in t.wheel ensures HandleOk(t, h) { assert HandleOk(s, h); }
  }

  lemma OthersKeep(r: Rules, s: Service, t: Service, k: nat)
    requires Inv(r, s) && TimersOk(t) && OnlyAt(s, t, k) && FrameOk(r, t.clients[k])
    ensures Inv(r, t)
  {
    hide TimersOk, FrameOk;
  }

  lemma MildKeeps(r: Rules, s: Service, t: Service, k: nat)
    requires Inv(r, s) && TimersOk(t) && OnlyAt(s, t, k) && Mild(s.clients[k], t.clients[k])
    ensures Inv(r, t)
  {
    hide TimersOk, FrameOk, Mild;
    MildFrame(r, s.clients[k], t.clients[k]);
    OthersKeep(r, s, t, k);
  }

  lemma CleanKeeps(r: Rules, s: Service, k: nat, cancel: Code, released: bool)
    requires Inv(r, s) && Present(s, k)
    ensures Inv(r, Clean(s, k, cancel, released))
  {
    hide TimersOk, FrameOk, Cancel;
    CancelKeeps(s, k, cancel);
    var c := Cancel(s, k, cancel);
    MildKeeps(r, s, c.service, k);
    if c.code == Ok && released {
      SeatTimers(c.service, k, NOBODY);
      NewcomerOk(r, NO_LEASE);
      OthersKeep(r, c.service, Put(c.service, k, NOBODY), k);
    }
  }

  lemma StepInv(r: Rules, s: Service, e: Event)
    requires Inv(r, s)
    ensures Inv(r, Step(r, s, e))
  {
    hide TimersOk, FrameOk, Guard, Start, Activity, Receive, Drop, Expired, Clean, Earliest;
    match e
    case Admit(l) =>
      if l.slot < |s.clients| && s.clients[l.slot] == NOBODY && LeaseShaped(l) {
        SeatTimers(s, l.slot, NOBODY.(lease := l));
        NewcomerOk(r, l);
        OthersKeep(r, s, Step(r, s, e), l.slot);
      }
    case Begin(k, env) => if Present(s, k) { StartKeeps(r, s, k, env); MildKeeps(r, s, Step(r, s, e), k); }
    case Watch(k, env) => if Present(s, k) { GuardKeeps(r, s, k, env); MildKeeps(r, s, Step(r, s, e), k); }
    case Turn(k, bytes, env) =>
      if Present(s, k) && !s.clients[k].closing {
        ReceiveKeeps(r, s, k, bytes, env);
        OthersKeep(r, s, Step(r, s, e), k);
      }
    case Consume(k, n) =>
      if Present(s, k) && !s.clients[k].closing {
        DropKeeps(r, s.clients[k], n);
        DropOnlyRead(r, s.clients[k], n);
        PutTimers(s, k, Drop(r, s.clients[k], n));
        OthersKeep(r, s, Step(r, s, e), k);
      }
    case Active(k, bound, submitted, env) =>
      if Present(s, k) { ActivityKeeps(r, s, k, bound, submitted, env); MildKeeps(r, s, Step(r, s, e), k); }
    case Fire(h, check) =>
      if h in s.wheel { FireReachesItsClient(s, h, check); MildKeeps(r, s, Step(r, s, e), s.routes[h.slot].client.slot); }
    case Close(k) =>
      if Present(s, k) {
        PutTimers(s, k, s.clients[k].(closing := true));
        MildKeeps(r, s, Step(r, s, e), k);
      }
    case Cleanup(k, cancel, released) => if Present(s, k) && s.clients[k].closing { CleanKeeps(r, s, k, cancel, released); }
  }

  lemma DropOnlyRead(r: Rules, c: Client, n: nat)
    ensures Drop(r, c, n) == c.(read := Drop(r, c, n).read, base := Drop(r, c, n).base)
  {
    hide Cut;
  }

  function Run(r: Rules, s: Service, events: seq<Event>): (t: Service)
    decreases |events|
  {
    if events == [] then s else Run(r, Step(r, s, events[0]), events[1..])
  }

  lemma {:induction false} RunInv(r: Rules, s: Service, events: seq<Event>)
    requires Inv(r, s)
    ensures Inv(r, Run(r, s, events))
    decreases |events|
  {
    hide Inv, Step;
    if events != [] {
      StepInv(r, s, events[0]);
      RunInv(r, Step(r, s, events[0]), events[1..]);
    }
  }

  predicate Initial(r: Rules, s: Service)
  {
    && 0 < r.frame && s.wheel == map[]
    && (forall k :: 0 <= k < |s.clients| ==> s.clients[k] == NOBODY)
    && (forall j :: 0 <= j < |s.routes| ==> s.routes[j] == NO_BINDING)
  }

  lemma InitialInv(r: Rules, s: Service)
    requires Initial(r, s)
    ensures Inv(r, s)
  {
    NewcomerOk(r, NO_LEASE);
  }

  // ---- Whole-run results ---------------------------------------------------------------------

  /** In every run, errors and rollbacks included, an armed timer stands for the earlier of its client's two deadlines. */
  lemma ArmedTimerIsEarliest(r: Rules, start: Service, events: seq<Event>, k: nat)
    requires Initial(r, start)
    requires k < |Run(r, start, events).clients| && Run(r, start, events).clients[k].deadline.binding.timer.owner != 0
    ensures var s := Run(r, start, events);
            var d := s.clients[k].deadline;
            && d.binding.timer in s.wheel && s.wheel[d.binding.timer] == Earliest(d)
            && (Earliest(d) == d.phase || Earliest(d) == d.frame) && Earliest(d) <= d.phase && (d.frame != 0 ==> Earliest(d) <= d.frame)
            && d.binding.timer.slot < |s.routes| && s.routes[d.binding.timer.slot] == Binding(s.clients[k].lease, d.binding.timer)
  {
    hide FrameOk, Step;
    InitialInv(r, start);
    RunInv(r, start, events);
    ClientBinding(Run(r, start, events), k);
  }

  /** Every timer on the wheel belongs to exactly one client. */
  lemma TimersBelongToOne(r: Rules, start: Service, events: seq<Event>, h: Handle, j: nat, k: nat)
    requires Initial(r, start) && h in Run(r, start, events).wheel
    requires j < |Run(r, start, events).clients| && k < |Run(r, start, events).clients|
    ensures var s := Run(r, start, events);
            && (exists m :: 0 <= m < |s.clients| && s.clients[m].deadline.binding.timer == h)
            && (s.clients[j].deadline.binding.timer == h && s.clients[k].deadline.binding.timer == h ==> j == k)
  {
    hide FrameOk, Earliest, Step;
    InitialInv(r, start);
    RunInv(r, start, events);
    var s := Run(r, start, events);
    assert HandleOk(s, h);
    assert RouteOk(s, h.slot);
    ClientBinding(s, j);
    ClientBinding(s, k);
    assert s.clients[s.routes[h.slot].client.slot].deadline.binding.timer == h;
  }

  /**
    As long as no call for a client has failed and it is not closing: a frame deadline exists exactly
    while the read buffer ends in an incomplete frame; it is the deadline set in the turn that brought
    that frame's first byte, whatever was received or consumed since; and no frame is given a second one.
   */
  lemma FrameDeadlineNeverExtended(r: Rules, start: Service, events: seq<Event>, k: nat)
    requires Initial(r, start) && k < |Run(r, start, events).clients|
    ensures var c := Run(r, start, events).clients[k];
            var cut := Cut(r, c.read);
            && (forall i, j :: 0 <= i < j < |c.marks| ==> c.marks[i].at < c.marks[j].at)
            && (forall i :: 0 <= i < |c.marks| ==> c.marks[i].due == c.marks[i].stamp + r.frame && c.marks[i].before <= c.marks[i].at)
            && (!c.failed && !c.closing ==>
                  && (c.deadline.frame != 0 <==> cut.rest != [])
                  && (c.deadline.frame != 0 ==> c.marks != [] && c.marks[|c.marks| - 1].at == c.base + |c.read| - |cut.rest| && c.marks[|c.marks| - 1].due == c.deadline.frame))
  {
    hide TimersOk, Cut, Step;
    InitialInv(r, start);
    RunInv(r, start, events);
    var c := Run(r, start, events).clients[k];
    assert FrameOk(r, c);
  }

  // ---- What each operation achieves ----------------------------------------------------------

  /** One of the two deadlines has passed. */
  predicate Overdue(d: Deadline, now: nat)
  {
    d.phase <= now || (d.frame != 0 && d.frame <= now)
  }

  /**
    An overdue client is closed before anything else is looked at, by every operation that starts with
    the guard, and its deadlines are left as they were; a client that is not overdue is not closed.
   */
  lemma OverdueCloses(r: Rules, s: Service, k: nat, bytes: seq<byte>, seen: nat, bound: nat, submitted: bool, env: Env)
    requires k < |s.clients| && s.clients[k].deadline.phase != 0 && !s.clients[k].closing && env.guardNow.Time?
    ensures var c := s.clients[k];
            Overdue(c.deadline, env.guardNow.ns) ==>
              && Guard(r, s, k, env) == Res(Ok, Put(s, k, c.(closing := true)))
              && Frames(r, s, k, seen, env) == Res(Ok, Put(s, k, c.(closing := true)))
              && Activity(r, s, k, bound, submitted, env) == Res(Ok, Put(s, k, c.(closing := true)))
              && Receive(r, s, k, bytes, env).code == Ok && Receive(r, s, k, bytes, env).service.clients[k] == c.(closing := true, read := c.read + bytes)
    ensures !Overdue(s.clients[k].deadline, env.guardNow.ns) ==> !Guard(r, s, k, env).service.clients[k].closing
  {
    hide Update, Vacant;
  }

  predicate TimersWork(s: Service, t: Timers)
  {
    t.rearm == Ok && t.register == Ok && Vacant(s, t.handle)
  }

  /** A deadline in the future is always installed by a wheel that works. */
  lemma InstallSucceeds(s: Service, k: nat, d: Deadline, now: nat, t: Timers)
    requires TimersOk(s) && k < |s.clients| && d.binding == s.clients[k].deadline.binding && TimersWork(s, t) && now < Earliest(d)
    ensures var i := Install(s, k, d, now, t);
            && i.code == Ok && i.service.clients[k] == s.clients[k].(deadline := d.(binding := i.service.clients[k].deadline.binding))
            && i.service.clients[k].deadline.binding.timer.owner != 0
  {
    hide Earliest, Vacant;
    ClientBinding(s, k);
    if d.binding.timer.owner == 0 { VacantFits(s, t.handle); }
  }

  /** A new client gets the unauthenticated deadline, once. */
  lemma StartSets(r: Rules, s: Service, k: nat, env: Env)
    requires TimersOk(s) && k < |s.clients| && s.clients[k].deadline.phase == 0 && s.clients[k].deadline.frame == 0
    requires env.stampNow.Time? && env.stampNow.ns + r.unauthenticated <= U64_MAX && 0 < r.unauthenticated && TimersWork(s, env.timers)
    ensures var t := Start(r, s, k, env);
            t.code == Ok && t.service.clients[k].deadline == s.clients[k].deadline.(phase := env.stampNow.ns + r.unauthenticated, binding := t.service.clients[k].deadline.binding)
  {
    hide Install, TimersOk, Vacant;
    InstallSucceeds(s, k, s.clients[k].deadline.(phase := env.stampNow.ns + r.unauthenticated), env.stampNow.ns, env.timers);
  }

  /** A client in time whose session answers is left alone; one whose session is gone falls back to the unauthenticated deadline from now. */
  lemma GuardSets(r: Rules, s: Service, k: nat, env: Env)
    requires TimersOk(s) && k < |s.clients| && s.clients[k].deadline.phase != 0 && !s.clients[k].closing
    requires env.guardNow.Time? && !Overdue(s.clients[k].deadline, env.guardNow.ns)
    ensures var d := s.clients[k].deadline;
            d.session == 0 || (env.utc == Ok && env.session == Ok) ==> Guard(r, s, k, env) == Res(Ok, s)
    ensures var d := s.clients[k].deadline;
            var t := Guard(r, s, k, env);
            d.session != 0 && env.utc == Ok && env.session in {NotFound, Timeout, Cancelled} && 0 < r.unauthenticated
            && env.guardNow.ns + r.unauthenticated <= U64_MAX && TimersWork(s, env.guardTimers) ==>
              && t.code == Ok
              && t.service.clients[k].deadline == d.(session := 0, phase := env.guardNow.ns + r.unauthenticated, binding := t.service.clients[k].deadline.binding)
  {
    hide Install, TimersOk, TimersWork;
    var d := s.clients[k].deadline;
    if d.session != 0 && 0 < r.unauthenticated && TimersWork(s, env.guardTimers) {
      InstallSucceeds(s, k, d.(session := 0, phase := env.guardNow.ns + r.unauthenticated), env.guardNow.ns, env.guardTimers);
    }
  }

  /** Activity restarts the idle deadline exactly for a newly bound session or an authenticated submission. */
  lemma ActivitySets(r: Rules, s: Service, k: nat, bound: nat, submitted: bool, env: Env)
    requires TimersOk(s) && k < |s.clients| && s.clients[k].deadline.phase != 0 && !s.clients[k].closing
    requires env.guardNow.Time? && !Overdue(s.clients[k].deadline, env.guardNow.ns)
    requires s.clients[k].deadline.session == 0 || (env.utc == Ok && env.session == Ok)
    ensures var d := s.clients[k].deadline;
            bound == 0 && (!submitted || d.session == 0) ==> Activity(r, s, k, bound, submitted, env) == Res(Ok, s)
    ensures var d := s.clients[k].deadline;
            var t := Activity(r, s, k, bound, submitted, env);
            (bound != 0 || (submitted && d.session != 0)) && env.stampNow.Time? && env.stampNow.ns + r.idle <= U64_MAX && 0 < r.idle
            && (d.frame != 0 ==> env.stampNow.ns < d.frame) && TimersWork(s, env.timers) ==>
              && t.code == Ok
              && t.service.clients[k].deadline == d.(session := if bound != 0 then bound else d.session, phase := env.stampNow.ns + r.idle, binding := t.service.clients[k].deadline.binding)
  {
    hide Install, TimersOk, TimersWork, Guard;
    GuardSets(r, s, k, env);
    var d := s.clients[k].deadline;
    if (bound != 0 || (submitted && d.session != 0)) && env.stampNow.Time? && 0 < r.idle && (d.frame != 0 ==> env.stampNow.ns < d.frame) && TimersWork(s, env.timers) {
      InstallSucceeds(s, k, d.(session := if bound != 0 then bound else d.session, phase := env.stampNow.ns + r.idle), env.stampNow.ns, env.timers);
    }
  }

  /** Nothing stands in the way of client `k`'s turn. */
  predicate TurnWorks(r: Rules, s: Service, k: nat, env: Env)
    requires k < |s.clients|
  {
    var d := s.clients[k].deadline;
    && d.phase != 0 && !s.clients[k].closing && !s.clients[k].failed
    && env.guardNow.Time? && !Overdue(d, env.guardNow.ns) && (d.session == 0 || (env.utc == Ok && env.session == Ok))
    && env.stampNow.Time? && env.stampNow.ns + r.frame <= U64_MAX
    && env.syncNow.Time? && env.syncNow.ns < d.phase && env.syncNow.ns < env.stampNow.ns + r.frame && TimersWork(s, env.timers)
  }

  lemma ChangeSucceeds(s: Service, k: nat, frame: nat, marks: seq<Mark>, env: Env)
    requires TimersOk(s) && k < |s.clients| && TimersWork(s, env.timers)
    requires env.syncNow.Time? && env.syncNow.ns < s.clients[k].deadline.phase && (frame != 0 ==> env.syncNow.ns < frame)
    ensures var c, t := s.clients[k], Change(s, k, frame, marks, env);
            && t.code == Ok && |t.service.clients| == |s.clients|
            && t.service.clients[k] == c.(deadline := c.deadline.(frame := frame, binding := t.service.clients[k].deadline.binding), marks := marks)
  {
    hide TimersOk, Install, TimersWork;
    if s.clients[k].deadline.frame != frame {
      InstallSucceeds(s, k, s.clients[k].deadline.(frame := frame), env.syncNow.ns, env.timers);
      InstallCount(s, k, s.clients[k].deadline.(frame := frame), env.syncNow.ns, env.timers);
    }
  }

  lemma InstallCount(s: Service, k: nat, d: Deadline, now: nat, t: Timers)
    requires k < |s.clients|
    ensures |Install(s, k, d, now, t).service.clients| == |s.clients|
  {
    hide Vacant, Earliest;
  }

  lemma UpdateSucceeds(r: Rules, s: Service, k: nat, seen: nat, env: Env)
    requires TimersOk(s) && k < |s.clients| && TimersWork(s, env.timers) && 0 < r.frame
    requires env.stampNow.Time? && env.stampNow.ns + r.frame <= U64_MAX
    requires env.syncNow.Time? && env.syncNow.ns < s.clients[k].deadline.phase && env.syncNow.ns < env.stampNow.ns + r.frame
    ensures var c, t, cut := s.clients[k], Update(r, s, k, seen, env), Cut(r, s.clients[k].read);
            && (cut.issue.Some? ==> t.code == Protocol)
            && (cut.issue.None? ==>
                  && t.code == Ok && |t.service.clients| == |s.clients|
                  && t.service.clients[k] == c.(deadline := t.service.clients[k].deadline, marks := t.service.clients[k].marks)
                  && t.service.clients[k].deadline == c.deadline.(frame := t.service.clients[k].deadline.frame, binding := t.service.clients[k].deadline.binding)
                  && (t.service.clients[k].deadline.frame != 0 <==> cut.rest != []))
  {
    hide TimersOk, TimersWork, Change, Cut;
    var c := s.clients[k];
    var cut := Cut(r, c.read);
    CutSize(r, c.read);
    var due := env.stampNow.ns + r.frame;
    var mark := Mark(c.base + |c.read| - |cut.rest|, due, env.stampNow.ns, c.base + seen);
    ChangeSucceeds(s, k, 0, c.marks, env);
    ChangeSucceeds(s, k, due, if c.failed then c.marks else c.marks + [mark], env);
  }

  /**
    A turn over well-formed input succeeds: no error, no closing, and a frame deadline exactly when the
    input now ends in an incomplete frame. Malformed input is a protocol error.
   */
  lemma TurnSucceeds(r: Rules, s: Service, k: nat, bytes: seq<byte>, env: Env)
    requires TimersOk(s) && k < |s.clients| && 0 < r.frame && TurnWorks(r, s, k, env)
    ensures var c, t := s.clients[k], Receive(r, s, k, bytes, env);
            var cut := Cut(r, c.read + bytes);
            && (cut.issue.Some? ==> t.code == Protocol)
            && (cut.issue.None? ==>
                  && t.code == Ok && |t.service.clients| == |s.clients|
                  && t.service.clients[k] == c.(read := c.read + bytes, deadline := t.service.clients[k].deadline, marks := t.service.clients[k].marks)
                  && t.service.clients[k].deadline.phase == c.deadline.phase && t.service.clients[k].deadline.session == c.deadline.session
                  && (t.service.clients[k].deadline.frame != 0 <==> cut.rest != []))
  {
    var c := s.clients[k];
    var s1 := Put(s, k, c.(read := c.read + bytes));
    PutTimers(s, k, c.(read := c.read + bytes));
    TimersStillWork(s, s1, env.timers);
    hide TimersOk, TimersWork, Guard, Update, Cut;
    GuardSets(r, s1, k, env);
    UpdateSucceeds(r, s1, k, |c.read|, env);
  }

  lemma TimersStillWork(s: Service, t: Service, timers: Timers)
    requires TimersWork(s, timers) && t.routes == s.routes && t.wheel == s.wheel
    ensures TimersWork(t, timers)
  {
  }

  /** A cancel the wheel accepts frees the timer, its route and its binding. */
  lemma CancelFrees(s: Service, k: nat)
    requires TimersOk(s) && k < |s.clients|
    ensures var b, t := s.clients[k].deadline.binding, Cancel(s, k, Ok);
            && t.code == Ok && k < |t.service.clients| && t.service.clients[k].deadline == s.clients[k].deadline.(binding := NO_BINDING)
            && (b.timer.owner != 0 ==> b.timer !in t.service.wheel && b.timer.slot < |t.service.routes| && t.service.routes[b.timer.slot] == NO_BINDING)
  {
    ClientBinding(s, k);
  }

  /** A clock, a session or a sum that fails is reported as it is, the client marked as failed and otherwise untouched. */
  lemma GuardReportsFailures(r: Rules, s: Service, k: nat, env: Env)
    requires k < |s.clients| && s.clients[k].deadline.phase != 0 && !s.clients[k].closing
    ensures env.guardNow.NoTime? ==> Guard(r, s, k, env) == Failed(s, k, ClockFault(env.guardNow))
    ensures env.guardNow.Time? && !Overdue(s.clients[k].deadline, env.guardNow.ns) && s.clients[k].deadline.session != 0 ==>
              && (env.utc != Ok ==> Guard(r, s, k, env) == Failed(s, k, env.utc))
              && (env.utc == Ok && env.session !in {Ok, NotFound, Timeout, Cancelled} ==> Guard(r, s, k, env) == Failed(s, k, env.session))
              && (env.utc == Ok && env.session in {NotFound, Timeout, Cancelled} && env.guardNow.ns + r.unauthenticated > U64_MAX ==> Guard(r, s, k, env) == Failed(s, k, Overflow))
    ensures s.clients[k].deadline.phase != 0 ==> Start(r, s, k, env) == Res(Ok, s)
  {
    hide Vacant, Install;
  }

  /** Deadlines are installed exactly when the wheel takes them and the earlier one still lies ahead. */
  lemma InstallExact(s: Service, k: nat, d: Deadline, now: nat, t: Timers)
    requires k < |s.clients|
    ensures Install(s, k, d, now, t).code == Ok <==>
              && now < d.phase && (d.frame != 0 ==> now < d.frame)
              && (if d.binding.timer.owner != 0 then t.rearm == Ok && d.binding.timer in s.wheel else t.register == Ok && Vacant(s, t.handle))
    ensures Install(s, k, d, now, t).code != Ok ==> Install(s, k, d, now, t).service == Put(s, k, s.clients[k].(failed := true))
  {
    hide Vacant;
    if Vacant(s, t.handle) { VacantFits(s, t.handle); }
  }

  /** A free slot takes a client in, and a closing client whose timer is cancelled and whose connection is released leaves it free again. */
  lemma SlotsAreReused(r: Rules, s: Service, l: Lease, k: nat)
    requires TimersOk(s) && k < |s.clients|
    ensures l.slot == k && LeaseShaped(l) && s.clients[k] == NOBODY ==> Step(r, s, Admit(l)) == Put(s, k, NOBODY.(lease := l))
    ensures Present(s, k) && s.clients[k].closing ==> Step(r, s, Cleanup(k, Ok, true)) == Put(Cancel(s, k, Ok).service, k, NOBODY)
    ensures Present(s, k) ==> Step(r, s, Close(k)) == Put(s, k, s.clients[k].(closing := true))
  {
    CancelFrees(s, k);
    hide Cancel;
  }
}
