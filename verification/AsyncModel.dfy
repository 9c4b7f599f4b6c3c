/**
  The generic asynchronous head as a value. A frame stays at the front of the stream until its task
  has been handed over; from then on a pending record stands for the consume still owed. Recovery
  takes that consume, a flow refresh and a scheduling up again wherever the last attempt stopped.
 */
module AsyncModel {
  import opened Base
  import opened Framing

  datatype Meta = Meta(client: Lease, sequence: nat, instance: nat, operation: nat, deadline: nat)
  datatype Pending = Pending(meta: Meta, bytes: nat)
  const NO_PENDING := Pending(Meta(NO_LEASE, 0, 0, 0, 0), 0)

  predicate MetaValid(m: Meta)
  {
    LeaseShaped(m.client) && m.sequence != 0 && m.instance != 0 && m.operation != 0
  }

  predicate PendingValid(p: Pending)
  {
    HEADER <= p.bytes <= PROTOCOL_MAX && MetaValid(p.meta)
  }

  datatype StepName = NoStep | ConsumeStep | RefreshStep | ScheduleStep | DoneStep

  function Rank(s: StepName): nat
  {
    match s case NoStep => 0 case ConsumeStep => 1 case RefreshStep => 2 case ScheduleStep => 3 case DoneStep => 4
  }

  datatype Call = Call(step: StepName, code: Code)

  /**
    `cursor` is the step the next recovery starts from. The last three fields are history: frames
    whose task was handed over, the bytes removed by each consume, and the calls the recovery under
    way has made.
   */
  datatype Client = Client(
    lease: Lease, stream: seq<byte>, consumed: nat, pending: Pending, task: bool, cursor: StepName,
    handed: seq<seq<byte>>, taken: seq<seq<byte>>, calls: seq<Call>)

  datatype Env = Env(
    frames: Code, eof: bool, read: Code, submit: Code, transferred: bool, meta: Meta, returned: bool,
    consume: Code, refresh: Code, schedule: Code)

  datatype Res = Res(code: Code, client: Client)
  datatype Recovered = Recovered(code: Code, next: StepName, client: Client)

  function Unread(c: Client): (s: seq<byte>)
  {
    if c.consumed <= |c.stream| then c.stream[c.consumed..] else []
  }

  function ConsumePending(c: Client, answer: Code): (r: Res)
  {
    if answer != Ok then Res(answer, c)
    else if c.pending.bytes > |Unread(c)| then Res(Range, c)
    else Res(Ok, c.(consumed := c.consumed + c.pending.bytes, taken := c.taken + [Unread(c)[..c.pending.bytes]], pending := NO_PENDING))
  }

  /** Only a task really handed over leaves a record. */
  function HandOver(c: Client, frame: seq<byte>, meta: Meta): Client
  {
    c.(pending := Pending(meta, |frame|), task := false, handed := c.handed + [frame])
  }

  function SubmitHead(codec: Codec, c: Client, cap: nat, env: Env): (r: Res)
  {
    if c.task then Res(InvalidArgument, c)
    else if cap < HEADER || cap > PROTOCOL_MAX then Res(Range, c)
    else if c.pending != NO_PENDING then Res(if PendingValid(c.pending) then Busy else InvalidArgument, c)
    else if env.frames != Ok then Res(env.frames, c)
    else
      var peeked := Peek(codec, Limits(cap, 1, cap, 1), env.eof, Unread(c), 0, 0);
      if peeked.stop == Failed then Res(Protocol, c)
      else if peeked.frames == [] then Res(Ok, c)
      else if env.read != Ok then Res(env.read, c)
      else if !env.transferred then Res(env.submit, c.(task := env.returned))
      else
        var r := ConsumePending(HandOver(c, peeked.frames[0], env.meta), env.consume);
        if env.submit != Ok then Res(env.submit, r.client) else r
  }

  function ResumeConsume(c: Client, answer: Code): (r: Res)
  {
    if c.pending == NO_PENDING then Res(NotFound, c)
    else if !PendingValid(c.pending) then Res(InvalidArgument, c)
    else ConsumePending(c, answer)
  }

  // ---- Recovery ------------------------------------------------------------------------------

  /** The checks made before anything is called. */
  function RecoveryCheck(c: Client, client: Lease, from_: StepName): (code: Code)
  {
    if from_ !in {ConsumeStep, RefreshStep, ScheduleStep} then InvalidArgument
    else if client == NO_LEASE then NotFound
    else if !LeaseShaped(client) then InvalidArgument
    else if c.pending != NO_PENDING && (!PendingValid(c.pending) || c.pending.meta.client != client) then InvalidArgument
    else if from_ == ConsumeStep && c.pending == NO_PENDING then NotFound
    else if from_ != ConsumeStep && c.pending != NO_PENDING then Busy
    else Ok
  }

  function Noted(c: Client, step: StepName, code: Code): Client
  {
    c.(calls := c.calls + [Call(step, code)])
  }

  function RecoverSchedule(c: Client, env: Env): (r: Recovered)
  {
    Recovered(env.schedule, if env.schedule == Ok then DoneStep else ScheduleStep, Noted(c, ScheduleStep, env.schedule))
  }

  function RecoverRefresh(c: Client, env: Env): (r: Recovered)
  {
    var d := Noted(c, RefreshStep, env.refresh);
    if env.refresh != Ok then Recovered(env.refresh, RefreshStep, d) else RecoverSchedule(d, env)
  }

  function RecoverConsume(c: Client, env: Env): (r: Recovered)
  {
    var a := ResumeConsume(c, env.consume);
    var d := Noted(a.client, ConsumeStep, a.code);
    if a.code != Ok then Recovered(a.code, ConsumeStep, d) else RecoverRefresh(d, env)
  }

  /** Runs from `from_` to the first failure; `next` names the step not yet done. */
  function Recover(c: Client, client: Lease, from_: StepName, env: Env): (r: Recovered)
  {
    var checked := RecoveryCheck(c, client, from_);
    if checked != Ok then Recovered(checked, NoStep, c)
    else if from_ == ConsumeStep then RecoverConsume(c, env)
    else if from_ == RefreshStep then RecoverRefresh(c, env)
    else RecoverSchedule(c, env)
  }

  // ---- Runs ----------------------------------------------------------------------------------

  /** `Begin` starts a new recovery; `Continue` feeds back the step the last call reported. */
  datatype Event =
    | Receive(bytes: seq<byte>)
    | Submit(cap: nat, env: Env)
    | ResumeOnly(answer: Code)
    | Begin
    | Continue(client: Lease, env: Env)
    | DropTask

  function Step(codec: Codec, c: Client, e: Event): (d: Client)
  {
    match e
    case Receive(bytes) => c.(stream := c.stream + bytes)
    case Submit(cap, env) => SubmitHead(codec, c, cap, env).client
    case ResumeOnly(answer) => ResumeConsume(c, answer).client
    case Begin => c.(cursor := ConsumeStep, calls := [])
    case Continue(client, env) => var r := Recover(c, client, c.cursor, env); r.client.(cursor := r.next)
    case DropTask => c.(task := false)
  }

  predicate Initial(c: Client)
  {
    c.stream == [] && c.consumed == 0 && c.pending == NO_PENDING && !c.task && c.cursor == NoStep && c.handed == [] && c.taken == [] && c.calls == []
  }

  function Frames(codec: Codec, c: Client): seq<seq<byte>>
  {
    Parse(codec, PROTOCOL_MAX, c.stream).frames
  }

  /** The frames handed over are the leading frames of the stream; all but a pending one have been removed. */
  predicate InOrder(c: Client, frames: seq<seq<byte>>)
  {
    && |c.handed| <= |frames| && c.handed == frames[..|c.handed|]
    && |c.taken| <= |c.handed| && c.taken == frames[..|c.taken|] && c.consumed == Total(frames[..|c.taken|])
    && (if c.pending == NO_PENDING then |c.taken| == |c.handed|
        else |c.taken| + 1 == |c.handed| && c.pending.bytes == |frames[|c.taken|]|)
    && (forall i :: 0 <= i < |frames| ==> frames[i] != [])
  }

  /** Calls go forward, past each step as soon as it succeeds; the cursor is the first step without a success. */
  ghost predicate Forward(calls: seq<Call>, cursor: StepName)
  {
    && (forall i, j :: 0 <= i < j < |calls| ==>
          if calls[i].code == Ok then Rank(calls[i].step) < Rank(calls[j].step) else Rank(calls[i].step) <= Rank(calls[j].step))
    && (forall i :: 0 <= i < |calls| ==> calls[i].step in {ConsumeStep, RefreshStep, ScheduleStep})
    && (cursor != NoStep ==>
          && (forall i :: 0 <= i < |calls| ==>
                if calls[i].code == Ok then Rank(calls[i].step) < Rank(cursor) else Rank(calls[i].step) <= Rank(cursor))
          && (forall s :: 0 < Rank(s) < Rank(cursor) ==> Succeeded(calls, s)))
  }

  ghost predicate Succeeded(calls: seq<Call>, s: StepName)
  {
    exists i :: 0 <= i < |calls| && calls[i] == Call(s, Ok)
  }

  ghost predicate Inv(codec: Codec, c: Client)
  {
    InOrder(c, Frames(codec, c)) && Forward(c.calls, c.cursor)
  }

  lemma {:induction false} FramesNotEmpty(codec: Codec, s: seq<byte>, i: nat)
    requires i < |Parse(codec, PROTOCOL_MAX, s).frames|
    ensures Parse(codec, PROTOCOL_MAX, s).frames[i] != []
    decreases |s|
  {
    hide First;
    if i > 0 {
      var v := First(codec, PROTOCOL_MAX, s);
      FramesNotEmpty(codec, s[v.size..], i - 1);
    }
  }

  lemma Prefixes(a: seq<seq<byte>>, b: seq<seq<byte>>, k: nat)
    requires a <= b && k <= |a|
    ensures a[..k] == b[..k]
  {
  }

  lemma ReceiveInv(codec: Codec, c: Client, bytes: seq<byte>)
    requires Inv(codec, c)
    ensures Inv(codec, c.(stream := c.stream + bytes))
  {
    hide Parse, Forward;
    var d := c.(stream := c.stream + bytes);
    ParseExtends(codec, PROTOCOL_MAX, c.stream, bytes);
    assert Frames(codec, c) <= Frames(codec, d);
    Prefixes(Frames(codec, c), Frames(codec, d), |c.handed|);
    Prefixes(Frames(codec, c), Frames(codec, d), |c.taken|);
    forall i | 0 <= i < |Frames(codec, d)| ensures Frames(codec, d)[i] != [] { FramesNotEmpty(codec, d.stream, i); }
  }

  /** Under any frame limit a peek finds the next frame of the reference parse. */
  lemma PeekFindsNext(codec: Codec, c: Client, cap: nat, eof: bool)
    requires Inv(codec, c) && c.pending == NO_PENDING && HEADER <= cap <= PROTOCOL_MAX
    ensures var peeked := Peek(codec, Limits(cap, 1, cap, 1), eof, Unread(c), 0, 0);
            peeked.frames != [] ==> |c.handed| < |Frames(codec, c)| && peeked.frames[0] == Frames(codec, c)[|c.handed|]
  {
    hide Parse, First, Peek, Forward;
    var k := |c.handed|;
    ParseAfter(codec, PROTOCOL_MAX, c.stream, k);
    ParseLimit(codec, cap, PROTOCOL_MAX, Unread(c));
    PeekAgreesWithParse(codec, Limits(cap, 1, cap, 1), eof, Unread(c), 0, 0);
    var peeked := Peek(codec, Limits(cap, 1, cap, 1), eof, Unread(c), 0, 0);
    if peeked.frames != [] {
      assert peeked.frames <= Parse(codec, cap, Unread(c)).frames <= Frames(codec, c)[k..];
      assert peeked.frames[0] == Frames(codec, c)[k..][0];
    }
  }

  lemma HandOverInv(codec: Codec, c: Client, frame: seq<byte>, meta: Meta)
    requires Inv(codec, c) && c.pending == NO_PENDING
    requires |c.handed| < |Frames(codec, c)| && frame == Frames(codec, c)[|c.handed|]
    ensures Inv(codec, HandOver(c, frame, meta)) && HandOver(c, frame, meta).pending != NO_PENDING
  {
    hide Parse, Forward;
    var d := HandOver(c, frame, meta);
    var frames := Frames(codec, c);
    SliceSnoc(frames, |c.handed|);
    assert Frames(codec, d) == frames;
    assert frame != [];
  }

  lemma ConsumeInv(codec: Codec, c: Client, answer: Code)
    requires Inv(codec, c) && c.pending != NO_PENDING
    ensures Inv(codec, ConsumePending(c, answer).client) && ConsumePending(c, answer).code == answer
  {
    hide Parse, Forward;
    var k := |c.taken|;
    var frames := Frames(codec, c);
    FrontFrame(codec, PROTOCOL_MAX, c.stream, k);
    SliceSnoc(frames, k);
    assert Frames(codec, ConsumePending(c, answer).client) == frames;
  }

  lemma TaskInv(codec: Codec, c: Client, task: bool)
    requires Inv(codec, c)
    ensures Inv(codec, c.(task := task))
  {
    hide Parse, Forward;
    assert Frames(codec, c.(task := task)) == Frames(codec, c);
  }

  lemma SubmitInv(codec: Codec, c: Client, cap: nat, env: Env)
    requires Inv(codec, c)
    ensures Inv(codec, SubmitHead(codec, c, cap, env).client)
  {
    hide Inv, Peek, Unread, ConsumePending, HandOver, Frames;
    var r := SubmitHead(codec, c, cap, env);
    TaskInv(codec, c, env.returned);
    if HEADER <= cap <= PROTOCOL_MAX && c.pending == NO_PENDING {
      PeekFindsNext(codec, c, cap, env.eof);
      var peeked := Peek(codec, Limits(cap, 1, cap, 1), env.eof, Unread(c), 0, 0);
      if peeked.frames != [] {
        HandOverInv(codec, c, peeked.frames[0], env.meta);
        ConsumeInv(codec, HandOver(c, peeked.frames[0], env.meta), env.consume);
      }
    }
  }

  lemma NoteInv(codec: Codec, c: Client, step: StepName, code: Code, cursor: StepName)
    requires InOrder(c, Frames(codec, c)) && Forward(c.calls, step)
    requires step in {ConsumeStep, RefreshStep, ScheduleStep}
    requires Rank(cursor) == if code == Ok then Rank(step) + 1 else Rank(step)
    ensures InOrder(Noted(c, step, code), Frames(codec, Noted(c, step, code)))
    ensures Forward(Noted(c, step, code).calls, cursor)
  {
    hide InOrder, Parse;
    var d := Noted(c, step, code);
    assert Frames(codec, d) == Frames(codec, c);
    SameOrder(c, d, Frames(codec, c));
    CallForward(c.calls, step, code, cursor);
  }

  lemma CallForward(calls: seq<Call>, step: StepName, code: Code, cursor: StepName)
    requires Forward(calls, step) && step in {ConsumeStep, RefreshStep, ScheduleStep}
    requires Rank(cursor) == if code == Ok then Rank(step) + 1 else Rank(step)
    ensures Forward(calls + [Call(step, code)], cursor)
  {
    hide Succeeded;
    var longer := calls + [Call(step, code)];
    forall s | 0 < Rank(s) < Rank(cursor) ensures Succeeded(longer, s) {
      if s != step { assert Succeeded(calls, s); }
      SucceededSnoc(calls, Call(step, code), s);
    }
  }

  lemma SucceededSnoc(calls: seq<Call>, a: Call, s: StepName)
    ensures Succeeded(calls, s) || a == Call(s, Ok) ==> Succeeded(calls + [a], s)
  {
    var longer := calls + [a];
    if Succeeded(calls, s) {
      var i :| 0 <= i < |calls| && calls[i] == Call(s, Ok);
      assert longer[i] == Call(s, Ok);
    } else if a == Call(s, Ok) {
      assert longer[|calls|] == a;
    }
  }

  lemma SameOrder(c: Client, d: Client, frames: seq<seq<byte>>)
    requires InOrder(c, frames) && d == c.(calls := d.calls, cursor := d.cursor)
    ensures InOrder(d, frames)
  {
  }

  lemma ScheduleInv(codec: Codec, c: Client, env: Env)
    requires InOrder(c, Frames(codec, c)) && Forward(c.calls, ScheduleStep)
    ensures var r := RecoverSchedule(c, env); InOrder(r.client, Frames(codec, r.client)) && Forward(r.client.calls, r.next)
  {
    hide InOrder, Parse, Forward;
    NoteInv(codec, c, ScheduleStep, env.schedule, if env.schedule == Ok then DoneStep else ScheduleStep);
  }

  lemma RefreshInv(codec: Codec, c: Client, env: Env)
    requires InOrder(c, Frames(codec, c)) && Forward(c.calls, RefreshStep)
    ensures var r := RecoverRefresh(c, env); InOrder(r.client, Frames(codec, r.client)) && Forward(r.client.calls, r.next)
  {
    hide InOrder, Parse, Forward;
    NoteInv(codec, c, RefreshStep, env.refresh, if env.refresh == Ok then ScheduleStep else RefreshStep);
    if env.refresh == Ok { ScheduleInv(codec, Noted(c, RefreshStep, env.refresh), env); }
  }

  lemma RecoverInv(codec: Codec, c: Client, client: Lease, env: Env)
    requires Inv(codec, c)
    ensures Inv(codec, Step(codec, c, Continue(client, env)))
  {
    hide InOrder, Parse, Forward, RecoverRefresh, RecoverSchedule;
    var r := Recover(c, client, c.cursor, env);
    var checked := RecoveryCheck(c, client, c.cursor);
    if checked == Ok {
      if c.cursor == ConsumeStep {
        ConsumeInv(codec, c, env.consume);
        ConsumeKeeps(c, env.consume);
        var a := ResumeConsume(c, env.consume);
        NoteInv(codec, a.client, ConsumeStep, a.code, if a.code == Ok then RefreshStep else ConsumeStep);
        if a.code == Ok { RefreshInv(codec, Noted(a.client, ConsumeStep, a.code), env); }
      } else if c.cursor == RefreshStep {
        RefreshInv(codec, c, env);
      } else {
        ScheduleInv(codec, c, env);
      }
    } else {
      StopForward(c.calls, c.cursor);
    }
    var d := r.client.(cursor := r.next);
    assert Frames(codec, d) == Frames(codec, r.client);
    SameOrder(r.client, d, Frames(codec, r.client));
  }

  lemma StopForward(calls: seq<Call>, cursor: StepName)
    requires Forward(calls, cursor)
    ensures Forward(calls, NoStep)
  {
  }

  lemma ConsumeKeeps(c: Client, answer: Code)
    ensures ConsumePending(c, answer).client.calls == c.calls && ConsumePending(c, answer).client.cursor == c.cursor
  {
  }

  lemma BeginInv(codec: Codec, c: Client)
    requires Inv(codec, c)
    ensures Inv(codec, Step(codec, c, Begin))
  {
    hide InOrder, Parse;
    var d := Step(codec, c, Begin);
    assert Frames(codec, d) == Frames(codec, c);
    SameOrder(c, d, Frames(codec, c));
    assert forall s :: !(0 < Rank(s) < Rank(ConsumeStep));
  }

  lemma StepInv(codec: Codec, c: Client, e: Event)
    requires Inv(codec, c)
    ensures Inv(codec, Step(codec, c, e))
  {
    hide Inv, SubmitHead, Recover, ConsumePending;
    match e
    case Receive(bytes) => ReceiveInv(codec, c, bytes);
    case Submit(cap, env) => SubmitInv(codec, c, cap, env);
    case ResumeOnly(answer) => if c.pending != NO_PENDING { ConsumeInv(codec, c, answer); }
    case Begin => BeginInv(codec, c);
    case Continue(client, env) => RecoverInv(codec, c, client, env);
    case DropTask => TaskInv(codec, c, false);
  }

  lemma InitialInv(codec: Codec, c: Client)
    requires Initial(c)
    ensures Inv(codec, c)
  {
    assert Frames(codec, c) == [];
  }

  function Run(codec: Codec, c: Client, events: seq<Event>): (d: Client)
    decreases |events|
  {
    if events == [] then c else Run(codec, Step(codec, c, events[0]), events[1..])
  }

  lemma {:induction false} RunInv(codec: Codec, c: Client, events: seq<Event>)
    requires Inv(codec, c)
    ensures Inv(codec, Run(codec, c, events))
    decreases |events|
  {
    hide Inv, Step;
    if events != [] {
      StepInv(codec, c, events[0]);
      RunInv(codec, Step(codec, c, events[0]), events[1..]);
    }
  }

  // ---- Whole-run results ---------------------------------------------------------------------

  /**
    In every run the frames handed over are the frames removed, plus exactly the pending one when
    the record is not empty; both are leading frames of the one-shot parse, so none is handed over
    twice and none is skipped.
   */
  lemma HandedIsTakenPlusPending(codec: Codec, start: Client, events: seq<Event>)
    requires Initial(start)
    ensures var c := Run(codec, start, events);
            && c.handed <= Frames(codec, c)
            && (c.pending == NO_PENDING ==> c.handed == c.taken)
            && (c.pending != NO_PENDING ==> |c.taken| < |Frames(codec, c)| && c.handed == c.taken + [Frames(codec, c)[|c.taken|]] && c.pending.bytes == |Frames(codec, c)[|c.taken|]|)
            && c.consumed == Total(c.taken)
  {
    hide Parse, Forward, Step;
    InitialInv(codec, start);
    RunInv(codec, start, events);
    var c := Run(codec, start, events);
    if c.pending != NO_PENDING { SliceSnoc(Frames(codec, c), |c.taken|); }
  }

  /** Feeding back the reported step never repeats one that succeeded, and `DoneStep` means each succeeded once. */
  lemma RecoveryNeverRepeats(codec: Codec, start: Client, events: seq<Event>, i: nat, j: nat)
    requires Initial(start)
    requires i < j < |Run(codec, start, events).calls|
    ensures var calls := Run(codec, start, events).calls;
            && (calls[i].code == Ok ==> calls[j].step != calls[i].step)
            && Rank(calls[i].step) <= Rank(calls[j].step)
  {
    hide InOrder, Parse, Succeeded, Step;
    InitialInv(codec, start);
    RunInv(codec, start, events);
  }

  lemma DoneMeansAllSucceeded(codec: Codec, start: Client, events: seq<Event>)
    requires Initial(start)
    requires Run(codec, start, events).cursor == DoneStep
    ensures forall s :: s in {ConsumeStep, RefreshStep, ScheduleStep} ==> Succeeded(Run(codec, start, events).calls, s)
  {
    hide InOrder, Parse, Succeeded, Step;
    InitialInv(codec, start);
    RunInv(codec, start, events);
  }

  /** A recovery fed back into itself, with every dependency answering, completes in one call from wherever it stands. */
  lemma RecoveryCompletes(codec: Codec, c: Client, env: Env)
    requires Inv(codec, c) && RecoveryCheck(c, c.lease, c.cursor) == Ok
    requires env.consume == Ok && env.refresh == Ok && env.schedule == Ok
    ensures Recover(c, c.lease, c.cursor, env).code == Ok && Recover(c, c.lease, c.cursor, env).next == DoneStep
    ensures Recover(c, c.lease, c.cursor, env).client.pending == NO_PENDING
  {
    hide Inv;
    if c.cursor == ConsumeStep { ConsumeInv(codec, c, Ok); }
  }

  /**
    A refused recovery loses its place: it reports no step exactly when its checks fail, and feeding
    that back makes no call ever again, until the caller begins anew.
   */
  lemma {:induction false} RefusedStaysRefused(codec: Codec, c: Client, client: Lease, env: Env, events: seq<Event>)
    requires Inv(codec, c) && Begin !in events
    ensures Recover(c, client, c.cursor, env).next == NoStep <==> RecoveryCheck(c, client, c.cursor) != Ok
    ensures c.cursor == NoStep ==> Run(codec, c, events).calls == c.calls && Run(codec, c, events).cursor == NoStep
    decreases |events|
  {
    hide Inv;
    if events != [] && c.cursor == NoStep {
      StepInv(codec, c, events[0]);
      QuietStep(codec, c, events[0]);
      RefusedStaysRefused(codec, Step(codec, c, events[0]), client, env, events[1..]);
    }
  }

  lemma QuietStep(codec: Codec, c: Client, e: Event)
    requires c.cursor == NoStep && e != Begin
    ensures Step(codec, c, e).calls == c.calls && Step(codec, c, e).cursor == NoStep
  {
    hide Peek, Unread;
  }

  // ---- What each call achieves ---------------------------------------------------------------

  /**
    With nothing pending a frame at the front is offered, and if its task is handed over the record stands for exactly
    that frame until it is consumed; if not, nothing has changed but a task that came back. Without a frame nothing is offered.
   */
  lemma NextFrameIsOffered(codec: Codec, c: Client, cap: nat, env: Env)
    requires Inv(codec, c) && c.pending == NO_PENDING && !c.task && HEADER <= cap <= PROTOCOL_MAX && env.frames == Ok && env.read == Ok
    ensures var n, q, r := |c.handed|, Parse(codec, PROTOCOL_MAX, c.stream), SubmitHead(codec, c, cap, env);
            && (n < |q.frames| && |q.frames[n]| <= cap && env.transferred ==>
                  && r.client.handed == c.handed + [q.frames[n]]
                  && r.client.pending == (if env.consume == Ok then NO_PENDING else Pending(env.meta, |q.frames[n]|))
                  && r.client.taken == (if env.consume == Ok then c.taken + [q.frames[n]] else c.taken)
                  && r.code == if env.submit != Ok then env.submit else env.consume)
            && (n < |q.frames| && |q.frames[n]| <= cap && !env.transferred ==> r == Res(env.submit, c.(task := env.returned)))
            && (n < |q.frames| && |q.frames[n]| > cap ==> r == Res(Protocol, c))
            && (n == |q.frames| && q.issue.None? && q.rest == [] ==> r == Res(Ok, c))
            && (n == |q.frames| && q.issue.Some? ==> r == Res(Protocol, c))
  {
    hide Parse, First, Peek, Forward;
    NextOfStream(codec, c, cap);
    PeekOne(codec, cap, env.eof, Unread(c));
    var n, q := |c.handed|, Parse(codec, PROTOCOL_MAX, c.stream);
    if n < |q.frames| && |q.frames[n]| <= cap {
      var f := q.frames[n];
      var d := HandOver(c, f, env.meta);
      assert Unread(d) == Unread(c) && Unread(c)[..|f|] == f;
      HandOverInv(codec, c, f, env.meta);
      ConsumeInv(codec, d, env.consume);
    }
  }

  /** A tighter limit sees the same first frame, or that it is too long. */
  lemma FirstUnderCap(codec: Codec, cap: nat, s: seq<byte>)
    requires HEADER <= cap <= PROTOCOL_MAX
    ensures var v, w := First(codec, PROTOCOL_MAX, s), First(codec, cap, s);
            && (v.Frame? ==> w == if v.size <= cap then v else Fault(TooLarge))
            && (v.Fault? ==> w.Fault?)
            && (s == [] ==> w.More?)
  {
  }

  lemma NextOfStream(codec: Codec, c: Client, cap: nat)
    requires Inv(codec, c) && c.pending == NO_PENDING && HEADER <= cap <= PROTOCOL_MAX
    ensures var q := Parse(codec, PROTOCOL_MAX, c.stream);
            var v := First(codec, cap, Unread(c));
            && (|c.handed| < |q.frames| && |q.frames[|c.handed|]| <= cap ==>
                  v == Frame(|q.frames[|c.handed|]|) && v.size <= |Unread(c)| && Unread(c)[..v.size] == q.frames[|c.handed|])
            && (|c.handed| < |q.frames| && |q.frames[|c.handed|]| > cap ==> v == Fault(TooLarge))
            && (|c.handed| == |q.frames| ==> Unread(c) == q.rest && (q.issue.Some? ==> v.Fault?) && (q.rest == [] ==> v.More?))
  {
    hide First, Forward;
    var k := |c.handed|;
    ParseAfter(codec, PROTOCOL_MAX, c.stream, k);
    var q := Parse(codec, PROTOCOL_MAX, c.stream);
    assert Unread(c) == c.stream[Total(q.frames[..k])..];
    var u := Parse(codec, PROTOCOL_MAX, Unread(c));
    assert u == Parsed(q.frames[k..], q.rest, q.issue);
    if k < |q.frames| { assert u.frames[0] == q.frames[k]; }
    FirstUnderCap(codec, cap, Unread(c));
  }

  /** Resuming consumes exactly the pending frame, or keeps the record. */
  lemma ResumeExact(codec: Codec, c: Client, answer: Code)
    requires Inv(codec, c) && c.pending != NO_PENDING && PendingValid(c.pending)
    ensures var r := ResumeConsume(c, answer);
            && r.code == answer
            && (answer == Ok ==> r.client.pending == NO_PENDING && r.client.taken == c.handed && r.client.handed == c.handed)
            && (answer != Ok ==> r.client == c)
  {
    hide Parse, Forward;
    ConsumeInv(codec, c, answer);
  }

  /** A recovery is let through exactly when its step fits the record: consume with one, the later steps without. */
  lemma CheckExact(c: Client, client: Lease, from_: StepName)
    ensures RecoveryCheck(c, client, from_) == Ok <==>
              && client.pool != 0 && client.generation != 0
              && ((from_ == ConsumeStep && c.pending != NO_PENDING && PendingValid(c.pending) && c.pending.meta.client == client)
                  || (from_ in {RefreshStep, ScheduleStep} && c.pending == NO_PENDING))
  {
  }

  /** The first step from `from_` on that does not succeed. */
  function FirstFailure(from_: StepName, env: Env): StepName
  {
    if from_ == ConsumeStep && env.consume != Ok then ConsumeStep
    else if from_ in {ConsumeStep, RefreshStep} && env.refresh != Ok then RefreshStep
    else if env.schedule != Ok then ScheduleStep else DoneStep
  }

  /** A recovery let through goes exactly as far as its dependencies let it, and says where it stopped. */
  lemma RecoverStopsAtFailure(codec: Codec, c: Client, client: Lease, from_: StepName, env: Env)
    requires Inv(codec, c) && RecoveryCheck(c, client, from_) == Ok
    ensures var r := Recover(c, client, from_, env);
            && r.next == FirstFailure(from_, env) && (r.code == Ok <==> r.next == DoneStep)
            && (r.client.pending == NO_PENDING <==> r.next != ConsumeStep)
            && (from_ == ConsumeStep && env.consume == Ok ==> r.client.taken == c.handed)
  {
    hide Inv;
    if from_ == ConsumeStep {
      ConsumeInv(codec, c, env.consume);
      ResumeExact(codec, c, env.consume);
    }
  }

  /** A record that stands, a task not yet dropped or an impossible limit blocks the next submission; a failed look changes nothing. */
  lemma SubmitRefuses(codec: Codec, c: Client, cap: nat, env: Env)
    ensures c.task ==> SubmitHead(codec, c, cap, env) == Res(InvalidArgument, c)
    ensures !c.task && !(32 <= cap <= 32 + 16_777_216) ==> SubmitHead(codec, c, cap, env) == Res(Range, c)
    ensures !c.task && 32 <= cap <= 32 + 16_777_216 && c.pending != NO_PENDING ==> SubmitHead(codec, c, cap, env) == Res(if PendingValid(c.pending) then Busy else InvalidArgument, c)
    ensures !c.task && 32 <= cap <= 32 + 16_777_216 && c.pending == NO_PENDING && env.frames != Ok ==> SubmitHead(codec, c, cap, env) == Res(env.frames, c)
  {
    hide Peek, Unread;
  }

  /** With no record, or a malformed one, nothing is consumed. */
  lemma ResumeRefuses(c: Client, answer: Code)
    ensures c.pending == NO_PENDING ==> ResumeConsume(c, answer) == Res(NotFound, c)
    ensures c.pending != NO_PENDING && !(32 <= c.pending.bytes <= 32 + 16_777_216 && c.pending.meta.client.pool != 0 && c.pending.meta.client.generation != 0
                                         && c.pending.meta.sequence != 0 && c.pending.meta.instance != 0 && c.pending.meta.operation != 0) ==>
              ResumeConsume(c, answer) == Res(InvalidArgument, c)
  {
  }
}
