/**
  One client's authentication head as a value: recognise the frame at the front of the stream,
  submit it once, record what came of it, consume it, and settle the obligation that is left. Each
  dependency answers through `Env`; a refused consume or enqueue changes nothing.
 */
module HeadModel {
  import opened Base
  import opened Framing

  const FRAME_MAX: nat := 156
  const HEAD_LIMITS := Limits(FRAME_MAX, 1, FRAME_MAX, 1)

  datatype Command = NoCommand | Register | Login | Logout | Resume | OtherCommand(code: nat)
  datatype Stage = Decoding | SessionCheck | Admission | Queueing | OtherStage
  datatype Limited = Throttled | AtCapacity | NotLimited
  datatype Status = NoStatus | InternalError | BadRequest | SessionExpired | AuthenticationFailed | RateLimited | Overloaded | Unavailable

  /** Header codec, and the command and sequence number a valid frame carries. */
  datatype Protocol = Protocol(codec: Codec, command: seq<byte> -> Command, sequence: seq<byte> -> nat)

  /** What a submission reports. The task may have been handed over even if `result` is not `Ok`. */
  datatype Submission = Submission(result: Code, transferred: bool, retained: bool, stage: Stage, decided: bool, limited: Limited)
  const NO_SUBMISSION := Submission(Ok, false, false, OtherStage, false, NotLimited)

  datatype HeadState = HeadEmpty | NeedsConsume | Consumed
  datatype Head = Head(state: HeadState, client: Lease, bytes: nat, command: Command, sequence: nat, submission: Submission)
  const NO_HEAD := Head(HeadEmpty, NO_LEASE, 0, NoCommand, 0, NO_SUBMISSION)

  datatype ReplyState = NoReply | NeedsEnqueue | NeedsRefresh | Ready
  datatype Rejection = Rejection(state: ReplyState, client: Lease, command: Command, sequence: nat, status: Status)
  const NO_REJECTION := Rejection(NoReply, NO_LEASE, NoCommand, 0, NoStatus)

  /** A response frame as the client will read it. */
  datatype Reply = Reply(client: Lease, command: Command, sequence: nat, status: Status)

  /** One submission: the bytes handed over and the receipt written for them. */
  datatype Attempt = Attempt(frame: seq<byte>, head: Head)

  /**
    `stream` is every byte received, `consumed` how many of them were consumed, `task` whether a task
    came back. The last three fields are history: submissions, the bytes removed by each consume,
    and the rejection frames enqueued.
   */
  datatype Client = Client(
    lease: Lease, stream: seq<byte>, consumed: nat, head: Head, rejection: Rejection, task: bool,
    attempts: seq<Attempt>, taken: seq<seq<byte>>, replies: seq<Reply>)

  datatype Env = Env(
    frames: Code, eof: bool, read: Code, submit: Submission, returned: bool, consume: Code, resume: Code,
    destroy: Code, ready: Code, encode: Code, enqueue: Code, refresh: Code)

  datatype Res = Res(code: Code, client: Client)

  predicate HeadValid(h: Head)
  {
    if h.state == HeadEmpty
    then h.client == NO_LEASE && h.bytes == 0 && h.command == NoCommand && h.sequence == 0 && h.submission.result == Ok
    else LeaseShaped(h.client) && h.sequence != 0 && HEADER <= h.bytes <= FRAME_MAX
  }

  function Unread(c: Client): (s: seq<byte>)
  {
    if c.consumed <= |c.stream| then c.stream[c.consumed..] else []
  }

  /** Consumes exactly the bytes the receipt names; the result of the submission is kept. */
  function ConsumeReceipt(c: Client, answer: Code): (r: Res)
  {
    if answer != Ok then Res(answer, c)
    else if c.head.bytes > |Unread(c)| then Res(Range, c)
    else Res(Ok, c.(consumed := c.consumed + c.head.bytes, taken := c.taken + [Unread(c)[..c.head.bytes]],
                    head := c.head.(state := Consumed)))
  }

  /** The receipt is written before anything after the submission can fail. */
  function Commit(p: Protocol, c: Client, frame: seq<byte>, env: Env): (r: Client)
  {
    var head := Head(NeedsConsume, c.lease, |frame|, p.command(frame), p.sequence(frame), env.submit);
    c.(head := head, task := env.returned && !env.submit.transferred, attempts := c.attempts + [Attempt(frame, head)])
  }

  function SubmitHead(p: Protocol, c: Client, env: Env): (r: Res)
  {
    if c.task || !HeadValid(c.head) then Res(InvalidArgument, c)
    else if c.head.state != HeadEmpty then Res(Busy, c)
    else if env.frames != Ok then Res(env.frames, c)
    else
      var peeked := Peek(p.codec, HEAD_LIMITS, env.eof, Unread(c), 0, 0);
      if peeked.stop == Failed then Res(Code.Protocol, c)
      else if peeked.frames == [] then Res(Ok, c)
      else if p.sequence(peeked.frames[0]) == 0 then Res(Internal, c)
      else if env.read != Ok then Res(env.read, c)
      else
        var r := ConsumeReceipt(Commit(p, c, peeked.frames[0], env), env.consume);
        if env.submit.result != Ok then Res(env.submit.result, r.client) else r
  }

  function ResumeConsume(c: Client, answer: Code): (r: Res)
  {
    if !HeadValid(c.head) then Res(InvalidArgument, c)
    else if c.head.state != NeedsConsume then Res(NotFound, c)
    else ConsumeReceipt(c, answer)
  }

  function AcknowledgeHead(c: Client): (r: Res)
  {
    if !HeadValid(c.head) then Res(InvalidArgument, c)
    else if c.head.state == HeadEmpty then Res(NotFound, c)
    else if c.head.state == NeedsConsume then Res(Busy, c)
    else Res(Ok, c.(head := NO_HEAD))
  }

  // ---- Rejections ----------------------------------------------------------------------------

  datatype Classified = Classified(code: Code, status: Status)

  /** The status a failed submission is answered with, from the stage that failed and how. */
  function StatusFor(s: Submission): Status
  {
    if s.stage == Decoding && s.result == Code.Protocol then BadRequest
    else if s.stage == SessionCheck then
      if s.result == Timeout then SessionExpired
      else if s.result == NotFound || s.result == Cancelled then AuthenticationFailed else InternalError
    else if s.stage == Admission && s.result == Busy && s.decided then
      match s.limited
      case Throttled => RateLimited
      case AtCapacity => Overloaded
      case NotLimited => InternalError
    else if s.stage == Queueing && s.result == Busy then Overloaded
    else if s.result == Cancelled then Unavailable
    else InternalError
  }

  /** Each status is given in exactly these cases, and everything else is an internal error. */
  lemma StatusExact(s: Submission)
    ensures StatusFor(s) == BadRequest <==> s.stage == Decoding && s.result == Code.Protocol
    ensures StatusFor(s) == SessionExpired <==> s.stage == SessionCheck && s.result == Timeout
    ensures StatusFor(s) == AuthenticationFailed <==> s.stage == SessionCheck && s.result in {NotFound, Cancelled}
    ensures StatusFor(s) == RateLimited <==> s.stage == Admission && s.result == Busy && s.decided && s.limited == Throttled
    ensures StatusFor(s) == Overloaded <==>
              s.result == Busy && (s.stage == Queueing || (s.stage == Admission && s.decided && s.limited == AtCapacity))
    ensures StatusFor(s) == Unavailable <==> s.result == Cancelled && s.stage != SessionCheck
    ensures StatusFor(s) != NoStatus
  {
  }

  predicate AuthCommand(c: Command)
  {
    c in {Register, Login, Logout, Resume}
  }

  function Classify(h: Head): (r: Classified)
  {
    if h.state == HeadEmpty then Classified(NotFound, NoStatus)
    else if !HeadValid(h) || !AuthCommand(h.command) then Classified(InvalidArgument, NoStatus)
    else if h.submission.result == Ok || h.submission.transferred then Classified(NotFound, NoStatus)
    else Classified(Ok, StatusFor(h.submission))
  }

  predicate Matches(h: Head, r: Rejection, status: Status)
  {
    r.state != NoReply && r.client == h.client && r.command == h.command && r.sequence == h.sequence && r.status == status
  }

  datatype Where = Early | AtEnqueue | Later
  datatype StepRes = StepRes(code: Code, stage: Where, client: Client)

  function EnqueueReply(c: Client, env: Env): (r: StepRes)
  {
    if c.rejection.state != NeedsEnqueue then StepRes(Ok, Later, c)
    else if env.encode != Ok then StepRes(env.encode, Early, c)
    else if env.enqueue != Ok then StepRes(env.enqueue, AtEnqueue, c)
    else
      var j := c.rejection;
      StepRes(Ok, Later, c.(rejection := j.(state := NeedsRefresh),
                            replies := c.replies + [Reply(j.client, j.command, j.sequence, j.status)]))
  }

  /** Encode and enqueue once, then refresh; a receipt past the enqueue never enqueues again. */
  function RejectStep(c: Client, env: Env): (r: StepRes)
  {
    var k := Classify(c.head);
    if k.code != Ok then StepRes(k.code, Early, c)
    else if c.head.state == NeedsConsume then StepRes(Busy, Early, c)
    else if c.rejection != NO_REJECTION && !Matches(c.head, c.rejection, k.status) then StepRes(InvalidArgument, Early, c)
    else if c.rejection.state == Ready then StepRes(NotFound, Early, c)
    else
      var d := if c.rejection == NO_REJECTION
               then c.(rejection := Rejection(NeedsEnqueue, c.head.client, c.head.command, c.head.sequence, k.status)) else c;
      if env.ready != Ok then StepRes(env.ready, Early, d)
      else
        var e := EnqueueReply(d, env);
        if e.code != Ok then e
        else if env.refresh != Ok then StepRes(env.refresh, Later, e.client)
        else StepRes(Ok, Later, e.client.(rejection := e.client.rejection.(state := Ready)))
  }

  function AcknowledgeRejection(c: Client): (r: Res)
  {
    var k := Classify(c.head);
    if k.code != Ok then Res(k.code, c)
    else if c.head.state == NeedsConsume then Res(Busy, c)
    else if c.rejection == NO_REJECTION then Res(NotFound, c)
    else if !Matches(c.head, c.rejection, k.status) then Res(InvalidArgument, c)
    else if c.rejection.state != Ready then Res(Busy, c)
    else
      var a := AcknowledgeHead(c);
      if a.code == Ok then Res(Ok, a.client.(rejection := NO_REJECTION)) else a
  }

  // ---- The service's use of both -------------------------------------------------------------

  /** A consumed, untransferred head: reject it and, once the rejection is complete, let go of both receipts. */
  function Settle(c: Client, env: Env): (r: Res)
  {
    var s := RejectStep(c, env);
    if s.code == Range && s.stage == AtEnqueue then Res(Ok, s.client)
    else if s.code != Ok then Res(s.code, s.client)
    else AcknowledgeRejection(s.client)
  }

  function DestroyTask(c: Client, answer: Code): (r: Res)
  {
    if c.task && answer != Ok then Res(answer, c) else Res(Ok, c.(task := false))
  }

  function FinishHead(c: Client, env: Env): (r: Res)
  {
    var a := if c.head.state == NeedsConsume then ResumeConsume(c, env.resume) else Res(Ok, c);
    if a.code != Ok then a
    else if a.client.head.state == HeadEmpty then a
    else
      var t := DestroyTask(a.client, env.destroy);
      if t.code != Ok then t
      else if !t.client.head.submission.transferred && t.client.head.submission.retained then Res(Internal, t.client)
      else if t.client.head.submission.transferred then AcknowledgeHead(t.client)
      else Settle(t.client, env)
  }

  /** One turn: finish what is open, otherwise take the next frame and try to finish that. */
  function Turn(p: Protocol, c: Client, env: Env): (r: Res)
  {
    if c.head.state != HeadEmpty then FinishHead(c, env)
    else
      var s := SubmitHead(p, c, env);
      if s.client.head.state == HeadEmpty then s else FinishHead(s.client, env)
  }

  // ---- Runs ----------------------------------------------------------------------------------

  datatype Event = Receive(bytes: seq<byte>) | Serve(env: Env)

  function Step(p: Protocol, c: Client, e: Event): (d: Client)
  {
    match e
    case Receive(bytes) => c.(stream := c.stream + bytes)
    case Serve(env) => Turn(p, c, env).client
  }

  predicate Initial(c: Client)
  {
    && LeaseShaped(c.lease) && c.stream == [] && c.consumed == 0 && c.head == NO_HEAD && c.rejection == NO_REJECTION
    && !c.task && c.attempts == [] && c.taken == [] && c.replies == []
  }

  // ---- What every run keeps ------------------------------------------------------------------

  function ReplyTo(h: Head): Reply
  {
    Reply(h.client, h.command, h.sequence, StatusFor(h.submission))
  }

  /** The rejections owed for a list of submissions: one for each task not handed over, in order. */
  function Owed(attempts: seq<Attempt>): (r: seq<Reply>)
    decreases |attempts|
  {
    if attempts == [] then []
    else
      var rest, last := Owed(attempts[..|attempts| - 1]), attempts[|attempts| - 1].head;
      if last.submission.transferred then rest else rest + [ReplyTo(last)]
  }

  /** The receipt matches the frame and the client it was written for. */
  predicate Faithful(p: Protocol, lease: Lease, a: Attempt)
  {
    && a.head == Head(NeedsConsume, lease, |a.frame|, p.command(a.frame), p.sequence(a.frame), a.head.submission)
    && HeadValid(a.head)
  }

  /** How a submission may be settled: by handing the task over or by one rejection. */
  predicate Settleable(s: Submission, command: Command)
  {
    s.transferred || (s.result != Ok && !s.retained && AuthCommand(command))
  }

  function Frames(p: Protocol, c: Client): seq<seq<byte>>
  {
    Parse(p.codec, FRAME_MAX, c.stream).frames
  }

  function Settled(c: Client): int
  {
    |c.attempts| - if c.head.state == HeadEmpty then 0 else 1
  }

  function Removed(c: Client): int
  {
    |c.attempts| - if c.head.state == NeedsConsume then 1 else 0
  }

  predicate InOrder(p: Protocol, c: Client, frames: seq<seq<byte>>)
  {
    && |c.attempts| <= |frames|
    && (forall i :: 0 <= i < |c.attempts| ==> c.attempts[i].frame == frames[i] && Faithful(p, c.lease, c.attempts[i]))
    && 0 <= Removed(c) && c.taken == frames[..Removed(c)] && c.consumed == Total(frames[..Removed(c)])
  }

  predicate ReceiptsAgree(c: Client)
  {
    && LeaseShaped(c.lease)
    && (c.head.state == HeadEmpty ==> c.head == NO_HEAD && !c.task)
    && (c.head.state != HeadEmpty ==> c.attempts != [] && c.head == c.attempts[|c.attempts| - 1].head.(state := c.head.state))
    && (c.rejection.state == NoReply ==> c.rejection == NO_REJECTION)
    && (c.rejection.state != NoReply ==>
          && c.rejection.state != Ready && c.head.state == Consumed && !c.head.submission.transferred && !c.head.submission.retained
          && Classify(c.head).code == Ok && Matches(c.head, c.rejection, StatusFor(c.head.submission)))
  }

  predicate Answered(c: Client)
  {
    && 0 <= Settled(c)
    && (forall i :: 0 <= i < Settled(c) ==> Settleable(c.attempts[i].head.submission, c.attempts[i].head.command))
    && c.replies == Owed(c.attempts[..Settled(c)]) + if c.rejection.state == NeedsRefresh then [ReplyTo(c.head)] else []
  }

  ghost predicate Inv(p: Protocol, c: Client)
  {
    ReceiptsAgree(c) && InOrder(p, c, Frames(p, c)) && Answered(c)
  }

  lemma InitialInv(p: Protocol, c: Client)
    requires Initial(c)
    ensures Inv(p, c)
  {
    assert Frames(p, c) == [];
  }

  lemma Prefixes(a: seq<seq<byte>>, b: seq<seq<byte>>, k: nat)
    requires a <= b && k <= |a|
    ensures a[..k] == b[..k]
  {
  }

  lemma ReceiveInv(p: Protocol, c: Client, bytes: seq<byte>)
    requires Inv(p, c)
    ensures Inv(p, Step(p, c, Receive(bytes)))
  {
    hide Parse, Faithful, Owed;
    ParseExtends(p.codec, FRAME_MAX, c.stream, bytes);
    var d := Step(p, c, Receive(bytes));
    assert Frames(p, c) <= Frames(p, d);
    Prefixes(Frames(p, c), Frames(p, d), Removed(c));
  }

  /** What a peek at the head finds is the next frame of the reference parse. */
  lemma PeekFindsNext(p: Protocol, c: Client, eof: bool)
    requires Inv(p, c) && c.head.state == HeadEmpty
    ensures var peeked := Peek(p.codec, HEAD_LIMITS, eof, Unread(c), 0, 0);
            peeked.frames != [] ==> |c.attempts| < |Frames(p, c)| && peeked.frames[0] == Frames(p, c)[|c.attempts|] && HEADER <= |peeked.frames[0]| <= FRAME_MAX
  {
    hide Parse, First, Owed, Faithful;
    var k := |c.attempts|;
    ParseAfter(p.codec, FRAME_MAX, c.stream, k);
    PeekAgreesWithParse(p.codec, HEAD_LIMITS, eof, Unread(c), 0, 0);
    var peeked := Peek(p.codec, HEAD_LIMITS, eof, Unread(c), 0, 0);
    if peeked.frames != [] {
      assert peeked.frames <= Frames(p, c)[k..];
      assert peeked.frames[0] == Frames(p, c)[k..][0];
    }
  }

  lemma CommitInv(p: Protocol, c: Client, env: Env)
    requires Inv(p, c) && c.head.state == HeadEmpty
    requires var peeked := Peek(p.codec, HEAD_LIMITS, env.eof, Unread(c), 0, 0);
             peeked.frames != [] && p.sequence(peeked.frames[0]) != 0
    ensures Inv(p, Commit(p, c, Peek(p.codec, HEAD_LIMITS, env.eof, Unread(c), 0, 0).frames[0], env))
  {
    hide Parse, Peek, InOrder, Answered, ReceiptsAgree;
    PeekFindsNext(p, c, env.eof);
    var f := Peek(p.codec, HEAD_LIMITS, env.eof, Unread(c), 0, 0).frames[0];
    CommitReceipts(p, c, f, env);
    CommitOrder(p, c, f, env, Frames(p, c));
  }

  lemma CommitOrder(p: Protocol, c: Client, f: seq<byte>, env: Env, frames: seq<seq<byte>>)
    requires InOrder(p, c, frames) && c.head.state == HeadEmpty && LeaseShaped(c.lease)
    requires |c.attempts| < |frames| && f == frames[|c.attempts|] && HEADER <= |f| <= FRAME_MAX && p.sequence(f) != 0
    ensures InOrder(p, Commit(p, c, f, env), frames)
  {
    var d := Commit(p, c, f, env);
    assert Faithful(p, d.lease, d.attempts[|c.attempts|]);
    forall i | 0 <= i < |c.attempts| ensures d.attempts[i] == c.attempts[i] { }
  }

  lemma CommitReceipts(p: Protocol, c: Client, f: seq<byte>, env: Env)
    requires ReceiptsAgree(c) && Answered(c) && c.head.state == HeadEmpty
    ensures ReceiptsAgree(Commit(p, c, f, env)) && Answered(Commit(p, c, f, env)) && LeaseShaped(c.lease)
  {
    hide Owed, Classify;
    var d := Commit(p, c, f, env);
    assert d.attempts[..|c.attempts|] == c.attempts && c.attempts[..|c.attempts|] == c.attempts;
  }

  lemma ConsumeInv(p: Protocol, c: Client, answer: Code)
    requires Inv(p, c) && c.head.state == NeedsConsume
    ensures Inv(p, ConsumeReceipt(c, answer).client)
    ensures ConsumeReceipt(c, answer).code == answer
  {
    hide Parse, Owed, Classify;
    var k := |c.attempts| - 1;
    var frames := Frames(p, c);
    FrontFrame(p.codec, FRAME_MAX, c.stream, k);
    SliceSnoc(frames, k);
    assert Faithful(p, c.lease, c.attempts[k]) && c.head.bytes == |frames[k]|;
    var d := ConsumeReceipt(c, answer).client;
    assert Frames(p, d) == frames;
    assert d.attempts == c.attempts && d.rejection == c.rejection;
  }

  lemma SubmitInv(p: Protocol, c: Client, env: Env)
    requires Inv(p, c) && c.head.state == HeadEmpty
    ensures Inv(p, SubmitHead(p, c, env).client)
  {
    hide Inv, Peek, Unread, ConsumeReceipt;
    var peeked := Peek(p.codec, HEAD_LIMITS, env.eof, Unread(c), 0, 0);
    if peeked.frames != [] && p.sequence(peeked.frames[0]) != 0 {
      CommitInv(p, c, env);
      ConsumeInv(p, Commit(p, c, peeked.frames[0], env), env.consume);
    }
  }

  lemma OwedSnoc(attempts: seq<Attempt>, k: nat)
    requires k < |attempts|
    ensures Owed(attempts[..k + 1]) ==
            if attempts[k].head.submission.transferred then Owed(attempts[..k]) else Owed(attempts[..k]) + [ReplyTo(attempts[k].head)]
  {
    assert attempts[..k + 1][..k] == attempts[..k];
  }

  lemma OpenHead(p: Protocol, c: Client)
    requires Inv(p, c) && c.head.state != HeadEmpty
    ensures HeadValid(c.head) && Settled(c) == |c.attempts| - 1
    ensures c.attempts[|c.attempts| - 1].head.submission == c.head.submission && c.attempts[|c.attempts| - 1].head.command == c.head.command
    ensures ReplyTo(c.attempts[|c.attempts| - 1].head) == ReplyTo(c.head)
  {
    hide Parse, Owed, Classify;
    assert Faithful(p, c.lease, c.attempts[|c.attempts| - 1]);
  }

  /** Letting go of a receipt whose obligation has been met. */
  lemma ReleaseInv(p: Protocol, c: Client, d: Client)
    requires Inv(p, c) && c.head.state == Consumed && !c.task
    requires d == c.(head := NO_HEAD, rejection := NO_REJECTION)
    requires if c.head.submission.transferred then c.rejection.state == NoReply else c.rejection.state == NeedsRefresh
    ensures Inv(p, d)
  {
    hide Parse, Owed, Faithful;
    OpenHead(p, c);
    var k := |c.attempts| - 1;
    OwedSnoc(c.attempts, k);
    assert c.attempts[..k + 1] == c.attempts && d.attempts == c.attempts;
    assert Settled(d) == k + 1;
    assert Owed(c.attempts[..k]) + [] == Owed(c.attempts[..k]);
    assert Owed(c.attempts) + [] == Owed(c.attempts);
    assert Frames(p, d) == Frames(p, c);
  }

  lemma DestroyInv(p: Protocol, c: Client, answer: Code)
    requires Inv(p, c) && c.head.state != HeadEmpty
    ensures Inv(p, DestroyTask(c, answer).client)
  {
    hide Parse, Owed, Faithful, Classify;
    assert Frames(p, DestroyTask(c, answer).client) == Frames(p, c);
  }

  lemma OpenRejection(p: Protocol, c: Client)
    requires Inv(p, c) && c.head.state == Consumed && !c.head.submission.retained && Classify(c.head).code == Ok
    requires c.rejection == NO_REJECTION
    ensures Inv(p, c.(rejection := Rejection(NeedsEnqueue, c.head.client, c.head.command, c.head.sequence, Classify(c.head).status)))
  {
    hide Parse, Owed, Faithful;
    var d := c.(rejection := Rejection(NeedsEnqueue, c.head.client, c.head.command, c.head.sequence, Classify(c.head).status));
    assert Frames(p, d) == Frames(p, c);
  }

  lemma EnqueueInv(p: Protocol, c: Client, env: Env)
    requires Inv(p, c) && c.head.state == Consumed && c.rejection.state in {NeedsEnqueue, NeedsRefresh}
    ensures Inv(p, EnqueueReply(c, env).client)
    ensures EnqueueReply(c, env).client.head == c.head
    ensures EnqueueReply(c, env).code == Ok ==> EnqueueReply(c, env).client.rejection.state == NeedsRefresh
    ensures EnqueueReply(c, env).client.task == c.task
  {
    hide Parse, Owed, Faithful;
    var d := EnqueueReply(c, env).client;
    assert Frames(p, d) == Frames(p, c);
    assert Owed(c.attempts[..Settled(c)]) + [] == Owed(c.attempts[..Settled(c)]);
  }

  lemma SettleInv(p: Protocol, c: Client, env: Env)
    requires Inv(p, c) && c.head.state == Consumed && !c.task && !c.head.submission.transferred && !c.head.submission.retained
    ensures Inv(p, Settle(c, env).client)
  {
    hide InOrder, Answered, EnqueueReply;
    if Classify(c.head).code == Ok {
      var d := if c.rejection == NO_REJECTION
               then c.(rejection := Rejection(NeedsEnqueue, c.head.client, c.head.command, c.head.sequence, Classify(c.head).status)) else c;
      if c.rejection == NO_REJECTION { OpenRejection(p, c); }
      EnqueueInv(p, d, env);
      var e := EnqueueReply(d, env);
      if env.ready == Ok && e.code == Ok && env.refresh == Ok {
        OpenHead(p, e.client);
        ReleaseInv(p, e.client, e.client.(head := NO_HEAD, rejection := NO_REJECTION));
      }
    }
  }

  lemma FinishInv(p: Protocol, c: Client, env: Env)
    requires Inv(p, c) && c.head.state != HeadEmpty
    ensures Inv(p, FinishHead(c, env).client)
  {
    hide Inv, Settle, ConsumeReceipt;
    OpenHead(p, c);
    if c.head.state == NeedsConsume { ConsumeInv(p, c, env.resume); }
    var a := if c.head.state == NeedsConsume then ResumeConsume(c, env.resume) else Res(Ok, c);
    if a.code == Ok {
      ConsumeKeeps(c, env.resume);
      var t := DestroyTask(a.client, env.destroy);
      DestroyInv(p, a.client, env.destroy);
      if t.code == Ok {
        OpenHead(p, t.client);
        if t.client.head.submission.transferred {
          NoRejection(p, t.client);
          ReleaseInv(p, t.client, t.client.(head := NO_HEAD, rejection := NO_REJECTION));
        } else if !t.client.head.submission.retained {
          SettleInv(p, t.client, env);
        }
      }
    }
  }

  lemma ConsumeKeeps(c: Client, answer: Code)
    ensures var r := ConsumeReceipt(c, answer);
            && r.client.head == (if r.code == Ok then c.head.(state := Consumed) else c.head)
            && r.client.task == c.task && r.client.rejection == c.rejection && r.client.attempts == c.attempts && r.client.replies == c.replies
  {
  }

  lemma NoRejection(p: Protocol, c: Client)
    requires Inv(p, c) && c.head.state != HeadEmpty && c.head.submission.transferred
    ensures c.rejection == NO_REJECTION
  {
    hide InOrder, Answered;
  }

  lemma TurnInv(p: Protocol, c: Client, env: Env)
    requires Inv(p, c)
    ensures Inv(p, Turn(p, c, env).client)
  {
    hide Inv, SubmitHead, FinishHead;
    if c.head.state != HeadEmpty {
      FinishInv(p, c, env);
    } else {
      SubmitInv(p, c, env);
      var s := SubmitHead(p, c, env);
      if s.client.head.state != HeadEmpty { FinishInv(p, s.client, env); }
    }
  }

  lemma StepInv(p: Protocol, c: Client, e: Event)
    requires Inv(p, c)
    ensures Inv(p, Step(p, c, e))
  {
    hide Inv, Turn;
    match e
    case Receive(bytes) => ReceiveInv(p, c, bytes);
    case Serve(env) => TurnInv(p, c, env);
  }

  function Run(p: Protocol, c: Client, events: seq<Event>): (d: Client)
    decreases |events|
  {
    if events == [] then c else Run(p, Step(p, c, events[0]), events[1..])
  }

  lemma {:induction false} RunInv(p: Protocol, c: Client, events: seq<Event>)
    requires Inv(p, c)
    ensures Inv(p, Run(p, c, events))
    decreases |events|
  {
    hide Inv, Step;
    if events != [] {
      StepInv(p, c, events[0]);
      RunInv(p, Step(p, c, events[0]), events[1..]);
    }
  }

  // ---- Whole-run results ---------------------------------------------------------------------

  /**
    The frames submitted are, in order and without gaps or repeats, the leading frames of the
    one-shot parse of everything received; each consume removes exactly the next of them, and the
    only one submitted and not yet removed is the one whose receipt says so.
   */
  lemma EveryFrameSubmittedOnce(p: Protocol, start: Client, events: seq<Event>)
    requires Initial(start)
    ensures var c := Run(p, start, events);
            var n := |c.attempts|;
            && n <= |Frames(p, c)|
            && (forall i :: 0 <= i < n ==> c.attempts[i].frame == Frames(p, c)[i] && c.attempts[i].head.bytes == |Frames(p, c)[i]|)
            && c.taken <= Frames(p, c) && c.consumed == Total(c.taken)
            && |c.taken| == n - if c.head.state == NeedsConsume then 1 else 0
  {
    hide Parse, Owed, Classify, Step;
    InitialInv(p, start);
    RunInv(p, start, events);
  }

  function Transfers(attempts: seq<Attempt>): (n: nat)
    decreases |attempts|
  {
    if attempts == [] then 0
    else Transfers(attempts[..|attempts| - 1]) + if attempts[|attempts| - 1].head.submission.transferred then 1 else 0
  }

  lemma {:induction false} OwedCount(attempts: seq<Attempt>)
    ensures |Owed(attempts)| + Transfers(attempts) == |attempts|
    decreases |attempts|
  {
    if attempts != [] { OwedCount(attempts[..|attempts| - 1]); }
  }

  /** Each task not handed over has its own place among the rejections. */
  lemma {:induction false} OwedAt(attempts: seq<Attempt>, i: nat)
    requires i < |attempts| && !attempts[i].head.submission.transferred
    ensures var at := |Owed(attempts[..i])|; at < |Owed(attempts)| && Owed(attempts)[at] == ReplyTo(attempts[i].head)
    decreases |attempts|
  {
    var n := |attempts| - 1;
    assert attempts[..n + 1] == attempts;
    OwedSnoc(attempts, n);
    if i < n {
      OwedAt(attempts[..n], i);
      assert attempts[..n][..i] == attempts[..i];
    }
  }

  /**
    Whenever the receipt is empty again, every submission so far ended in exactly one way: handed
    over, or answered by one rejection that sits at its own place in the queue. The two counts add up,
    so no submission had both and none had neither.
   */
  lemma ExactlyOneOutcome(p: Protocol, start: Client, events: seq<Event>, i: nat)
    requires Initial(start)
    requires Run(p, start, events).head.state == HeadEmpty && i < |Run(p, start, events).attempts|
    ensures var c := Run(p, start, events);
            && |c.replies| + Transfers(c.attempts) == |c.attempts|
            && (!c.attempts[i].head.submission.transferred ==>
                  var at := |Owed(c.attempts[..i])|;
                  at < |c.replies| && c.replies[at] == ReplyTo(c.attempts[i].head) && c.attempts[i].head.submission.result != Ok)
  {
    hide Parse, Owed, Classify, InOrder, Step;
    InitialInv(p, start);
    RunInv(p, start, events);
    var c := Run(p, start, events);
    assert c.attempts[..|c.attempts|] == c.attempts;
    assert Owed(c.attempts) + [] == Owed(c.attempts);
    OwedCount(c.attempts);
    if !c.attempts[i].head.submission.transferred { OwedAt(c.attempts, i); }
  }

  /** Even mid-way a transferred task has no rejection, and an untransferred one at most one. */
  lemma NeverBoth(p: Protocol, start: Client, events: seq<Event>)
    requires Initial(start) && Run(p, start, events).head.state != HeadEmpty
    ensures var c := Run(p, start, events);
            c.attempts != [] &&
            var earlier := Owed(c.attempts[..|c.attempts| - 1]);
            || c.replies == earlier
            || (!c.head.submission.transferred && c.rejection.state == NeedsRefresh && c.replies == earlier + [ReplyTo(c.head)])
  {
    hide Parse, Owed, Classify, InOrder, Step;
    InitialInv(p, start);
    RunInv(p, start, events);
    var c := Run(p, start, events);
    var earlier := Owed(c.attempts[..|c.attempts| - 1]);
    assert earlier + [] == earlier;
  }

  const ALL_OK := Env(Ok, false, Ok, NO_SUBMISSION, false, Ok, Ok, Ok, Ok, Ok, Ok, Ok)

  lemma SettleCompletes(p: Protocol, c: Client)
    requires Inv(p, c) && c.head.state == Consumed && !c.head.submission.transferred && !c.head.submission.retained
    ensures var r := Settle(c, ALL_OK); r.client.head.state == HeadEmpty <==> Classify(c.head).code == Ok
    ensures var r := Settle(c, ALL_OK); r.code == Ok <==> Classify(c.head).code == Ok
  {
    hide Answered, InOrder, StatusFor;
    OpenHead(p, c);
  }

  /** With every dependency answering, one more turn settles a head exactly when it can be settled at all. */
  lemma SettlesIffSettleable(p: Protocol, c: Client)
    requires Inv(p, c) && c.head.state != HeadEmpty
    ensures Turn(p, c, ALL_OK).client.head.state == HeadEmpty <==> Settleable(c.head.submission, c.head.command)
    ensures Turn(p, c, ALL_OK).code == Ok <==> Settleable(c.head.submission, c.head.command)
  {
    hide Inv, Settle, ConsumeReceipt;
    OpenHead(p, c);
    if c.head.state == NeedsConsume { ConsumeInv(p, c, Ok); }
    ConsumeKeeps(c, Ok);
    var a := if c.head.state == NeedsConsume then ResumeConsume(c, Ok) else Res(Ok, c);
    DestroyInv(p, a.client, Ok);
    var t := DestroyTask(a.client, Ok);
    OpenHead(p, t.client);
    if !t.client.head.submission.transferred && !t.client.head.submission.retained { SettleCompletes(p, t.client); }
  }

  lemma SettleKeepsAttempts(c: Client, env: Env)
    ensures Settle(c, env).client.attempts == c.attempts
  {
    hide Classify;
  }

  lemma FinishKeepsAttempts(c: Client, env: Env)
    ensures FinishHead(c, env).client.attempts == c.attempts
  {
    hide Settle, ConsumeReceipt;
    ConsumeKeeps(c, env.resume);
    var a := if c.head.state == NeedsConsume then ResumeConsume(c, env.resume) else Res(Ok, c);
    SettleKeepsAttempts(DestroyTask(a.client, env.destroy).client, env);
  }

  lemma TurnAppends(p: Protocol, c: Client, e: Event)
    ensures c.attempts <= Step(p, c, e).attempts
  {
    hide Peek, Unread, FinishHead;
    if e.Serve? {
      FinishKeepsAttempts(c, e.env);
      FinishKeepsAttempts(SubmitHead(p, c, e.env).client, e.env);
    }
  }

  lemma {:induction false} RunAppends(p: Protocol, c: Client, events: seq<Event>)
    requires Inv(p, c)
    ensures c.attempts <= Run(p, c, events).attempts
    decreases |events|
  {
    hide Inv, Step;
    if events != [] {
      StepInv(p, c, events[0]);
      TurnAppends(p, c, events[0]);
      RunAppends(p, Step(p, c, events[0]), events[1..]);
    }
  }

  /** A head that cannot be settled keeps its gate shut for good: nothing more is ever submitted. */
  lemma UnsettledBlocks(p: Protocol, c: Client, events: seq<Event>)
    requires Inv(p, c) && c.head.state != HeadEmpty && !Settleable(c.head.submission, c.head.command)
    ensures Run(p, c, events).attempts == c.attempts && Run(p, c, events).head.state != HeadEmpty
  {
    hide InOrder, Parse, Owed, Classify, Step;
    RunInv(p, c, events);
    RunAppends(p, c, events);
    OpenHead(p, c);
    var d := Run(p, c, events);
    var k := |c.attempts| - 1;
    assert d.attempts[k] == c.attempts[k];
    assert Settled(d) <= k;
  }

  // ---- What each call achieves ---------------------------------------------------------------

  /** The unread bytes start with the next frame, if there is one, and otherwise with what the reference parse is left with. */
  lemma NextOfStream(p: Protocol, c: Client)
    requires Inv(p, c) && c.head.state == HeadEmpty
    ensures var q := Parse(p.codec, FRAME_MAX, c.stream);
            var v := First(p.codec, FRAME_MAX, Unread(c));
            && (|c.attempts| < |q.frames| ==> v.Frame? && v.size <= |Unread(c)| && Unread(c)[..v.size] == q.frames[|c.attempts|])
            && (|c.attempts| == |q.frames| ==> Unread(c) == q.rest && v == if q.issue.Some? then Fault(q.issue.value) else More)
  {
    hide First, Owed, Faithful, Classify;
    var k := |c.attempts|;
    ParseAfter(p.codec, FRAME_MAX, c.stream, k);
    var q := Parse(p.codec, FRAME_MAX, c.stream);
    assert Unread(c) == c.stream[Total(q.frames[..k])..];
    var u := Parse(p.codec, FRAME_MAX, Unread(c));
    assert u == Parsed(q.frames[k..], q.rest, q.issue);
    if k < |q.frames| { assert u.frames[0] == q.frames[k]; }
  }

  /** A complete frame at the front is submitted, once, whatever it is and whatever comes of it; with none nothing is. */
  lemma NextFrameIsSubmitted(p: Protocol, c: Client, env: Env)
    requires Inv(p, c) && c.head.state == HeadEmpty && env.frames == Ok && env.read == Ok
    ensures var n, q, r := |c.attempts|, Parse(p.codec, FRAME_MAX, c.stream), SubmitHead(p, c, env);
            && (n < |q.frames| && p.sequence(q.frames[n]) != 0 ==>
                  var f := q.frames[n];
                  var head := Head(NeedsConsume, c.lease, |f|, p.command(f), p.sequence(f), env.submit);
                  && r.client.attempts == c.attempts + [Attempt(f, head)]
                  && r.client.head == head.(state := if env.consume == Ok then Consumed else NeedsConsume)
                  && r.client.taken == (if env.consume == Ok then c.taken + [f] else c.taken)
                  && r.client.task == (env.returned && !env.submit.transferred) && r.client.replies == c.replies
                  && r.code == if env.submit.result != Ok then env.submit.result else env.consume)
            && (n < |q.frames| && p.sequence(q.frames[n]) == 0 ==> r == Res(Internal, c))
            && (n == |q.frames| ==> r == Res(if q.issue.Some? || (env.eof && q.rest != []) then Code.Protocol else Ok, c))
  {
    hide Parse, First, Peek, Owed, Classify, Faithful;
    NextOfStream(p, c);
    PeekOne(p.codec, FRAME_MAX, env.eof, Unread(c));
    var n, q := |c.attempts|, Parse(p.codec, FRAME_MAX, c.stream);
    if n < |q.frames| && p.sequence(q.frames[n]) != 0 {
      var f := q.frames[n];
      var d := Commit(p, c, f, env);
      assert Unread(d) == Unread(c) && Unread(c)[..|f|] == f;
      CommitInv(p, c, env);
      ConsumeInv(p, d, env.consume);
    }
  }

  predicate Answers(env: Env)
  {
    && env.frames == Ok && env.read == Ok && env.consume == Ok && env.resume == Ok && env.destroy == Ok
    && env.ready == Ok && env.encode == Ok && env.enqueue == Ok && env.refresh == Ok
  }

  /** With every dependency answering, one turn takes the next frame all the way: handed over, or answered by its rejection. */
  lemma TurnHandlesNext(p: Protocol, c: Client, env: Env)
    requires Inv(p, c) && c.head.state == HeadEmpty && Answers(env)
    requires |c.attempts| < |Frames(p, c)| && p.sequence(Frames(p, c)[|c.attempts|]) != 0
    requires Settleable(env.submit, p.command(Frames(p, c)[|c.attempts|]))
    ensures var f, r := Frames(p, c)[|c.attempts|], Turn(p, c, env);
            && r.code == Ok && r.client.head.state == HeadEmpty
            && |r.client.attempts| == |c.attempts| + 1 && r.client.attempts[|c.attempts|].frame == f && r.client.taken == c.taken + [f]
            && r.client.replies == c.replies + (if env.submit.transferred then [] else [Reply(c.lease, p.command(f), p.sequence(f), StatusFor(env.submit))])
            && r.client.stream == c.stream
  {
    hide Parse, SubmitHead, FinishHead, Inv;
    NextFrameIsSubmitted(p, c, env);
    SubmitInv(p, c, env);
    SubmitKeepsStream(p, c, env);
    var d := SubmitHead(p, c, env).client;
    NoRejectionWhenEmpty(p, c);
    FinishSettles(p, d, env);
  }

  lemma NoRejectionWhenEmpty(p: Protocol, c: Client)
    requires Inv(p, c) && c.head.state == HeadEmpty
    ensures c.rejection == NO_REJECTION
  {
    hide InOrder, Answered, Classify;
  }

  lemma SubmitKeepsStream(p: Protocol, c: Client, env: Env)
    ensures SubmitHead(p, c, env).client.stream == c.stream && SubmitHead(p, c, env).client.lease == c.lease && SubmitHead(p, c, env).client.rejection == c.rejection
  {
    hide Peek, Unread;
  }

  /** A consumed head that can be settled is settled in one go. */
  lemma FinishSettles(p: Protocol, c: Client, env: Env)
    requires Inv(p, c) && c.head.state == Consumed && c.rejection == NO_REJECTION && Answers(env) && Settleable(c.head.submission, c.head.command)
    ensures var r := FinishHead(c, env);
            && r.code == Ok && r.client.head.state == HeadEmpty && r.client.attempts == c.attempts && r.client.taken == c.taken && r.client.stream == c.stream
            && r.client.replies == c.replies + if c.head.submission.transferred then [] else [ReplyTo(c.head)]
  {
    hide InOrder, Answered, StatusFor;
    OpenHead(p, c);
    assert c.replies + [] == c.replies;
  }

  /** A full response queue is no error: the turn ends well, the receipt waits and nothing was enqueued. */
  lemma BlockedReplyWaits(p: Protocol, c: Client, env: Env)
    requires Inv(p, c) && c.head.state == Consumed && c.rejection.state != NeedsRefresh && !c.head.submission.transferred
    requires Settleable(c.head.submission, c.head.command) && Answers(env.(enqueue := Ok)) && env.enqueue == Range
    ensures var r := FinishHead(c, env);
            r.code == Ok && r.client.head == c.head && r.client.replies == c.replies && r.client.rejection.state == NeedsEnqueue
  {
    hide InOrder, Answered, StatusFor;
    OpenHead(p, c);
  }

  function Turns(env: Env, n: nat): seq<Event>
  {
    if n == 0 then [] else [Serve(env)] + Turns(env, n - 1)
  }

  /** So as many turns as there are frames waiting handle all of them. */
  lemma {:induction false} AllFramesAreHandled(p: Protocol, c: Client, env: Env, n: nat)
    requires Inv(p, c) && c.head.state == HeadEmpty && Answers(env) && env.submit.transferred
    requires |c.attempts| + n == |Frames(p, c)| && forall i :: |c.attempts| <= i < |Frames(p, c)| ==> p.sequence(Frames(p, c)[i]) != 0
    ensures var d := Run(p, c, Turns(env, n));
            d.head.state == HeadEmpty && |d.attempts| == |Frames(p, c)| && d.taken == Frames(p, c) && d.stream == c.stream
    decreases n
  {
    hide Parse, Turn, Inv;
    if n == 0 {
      TakenSoFar(p, c);
    } else {
      TurnHandlesNext(p, c, env);
      TurnInv(p, c, env);
      var d := Turn(p, c, env).client;
      assert Frames(p, d) == Frames(p, c);
      AllFramesAreHandled(p, d, env, n - 1);
      assert Turns(env, n)[1..] == Turns(env, n - 1);
    }
  }

  lemma TakenSoFar(p: Protocol, c: Client)
    requires Inv(p, c) && c.head.state == HeadEmpty && |c.attempts| == |Frames(p, c)|
    ensures c.taken == Frames(p, c)
  {
    hide Parse, Owed, Classify;
  }

  /** What a rejection in progress returns: the first failure, except that a full queue is no failure. */
  function ReplyCode(state: ReplyState, env: Env): Code
  {
    if env.ready != Ok then env.ready
    else if state != NeedsRefresh && env.encode != Ok then env.encode
    else if state != NeedsRefresh && env.enqueue == Range then Ok
    else if state != NeedsRefresh && env.enqueue != Ok then env.enqueue
    else env.refresh
  }

  /** Every failure on the way is reported as it is and keeps the receipts; only a full response queue ends a turn well. */
  lemma FinishReportsFailures(p: Protocol, c: Client, env: Env)
    requires Inv(p, c) && c.head.state != HeadEmpty
    ensures c.head.state == NeedsConsume && env.resume != Ok ==> FinishHead(c, env) == Res(env.resume, c)
    ensures c.head.state == Consumed && c.task && env.destroy != Ok ==> FinishHead(c, env) == Res(env.destroy, c)
    ensures c.head.state == Consumed && !c.task && c.head.submission.transferred ==> FinishHead(c, env).code == Ok
    ensures c.head.state == Consumed && !c.task && !c.head.submission.transferred && c.head.submission.retained ==> FinishHead(c, env) == Res(Internal, c)
    ensures c.head.state == Consumed && !c.task && !c.head.submission.transferred && Settleable(c.head.submission, c.head.command) ==>
              var r := FinishHead(c, env);
              && r.code == ReplyCode(c.rejection.state, env)
              && (r.client.head.state == HeadEmpty <==> r.code == Ok && (c.rejection.state == NeedsRefresh || env.enqueue == Ok))
              && (r.client.head.state != HeadEmpty ==> r.client.head == c.head)
  {
    hide InOrder, Answered, StatusFor;
    OpenHead(p, c);
  }

  /** A rejection receipt written for another head is neither continued nor acknowledged. */
  lemma ForeignRejectionRefused(c: Client, env: Env)
    requires c.head.state == Consumed && Classify(c.head).code == Ok && c.rejection != NO_REJECTION
    requires c.rejection.client != c.head.client || c.rejection.command != c.head.command || c.rejection.sequence != c.head.sequence || c.rejection.status != StatusFor(c.head.submission)
    ensures RejectStep(c, env) == StepRes(InvalidArgument, Early, c) && AcknowledgeRejection(c) == Res(InvalidArgument, c)
  {
    hide StatusFor;
  }

  /** A receipt that stands blocks the next submission, and a failed look at the input changes nothing. */
  lemma SubmitRefuses(p: Protocol, c: Client, env: Env)
    ensures c.task ==> SubmitHead(p, c, env) == Res(InvalidArgument, c)
    ensures !c.task && HeadValid(c.head) && c.head.state != HeadEmpty ==> SubmitHead(p, c, env) == Res(Busy, c)
    ensures !c.task && c.head == NO_HEAD && env.frames != Ok ==> SubmitHead(p, c, env) == Res(env.frames, c)
    ensures !c.task && c.head == NO_HEAD && env.frames == Ok && env.read != Ok ==>
              SubmitHead(p, c, env).client == c && SubmitHead(p, c, env).code in {Ok, Code.Protocol, Internal, env.read}
  {
    hide Peek, Unread;
  }
}
