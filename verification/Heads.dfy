/** One client's head and rejection receipts, advanced in place. */
module Heads {
  import opened Base
  import opened Framing
  import opened HeadModel

  class ClientHead {
    const protocol: Protocol
    const lease: Lease
    var stream: seq<byte>
    var consumed: nat
    var head: Head
    var rejection: Rejection
    var task: bool
    ghost var attempts: seq<Attempt>
    ghost var taken: seq<seq<byte>>
    ghost var replies: seq<Reply>

    ghost function View(): (c: Client)
      reads this
    {
      Client(lease, stream, consumed, head, rejection, task, attempts, taken, replies)
    }

    constructor (p: Protocol, l: Lease)
      requires LeaseShaped(l)
      ensures protocol == p && lease == l && Initial(View())
    {
      protocol, lease := p, l;
      stream, consumed, head, rejection, task := [], 0, NO_HEAD, NO_REJECTION, false;
      attempts, taken, replies := [], [], [];
    }

    method ReceiveBytes(bytes: seq<byte>)
      modifies this`stream
      ensures View() == Step(protocol, old(View()), Receive(bytes))
    {
      stream := stream + bytes;
    }

    method UnreadBytes() returns (s: seq<byte>)
      ensures s == Unread(View())
    {
      return if consumed <= |stream| then stream[consumed..] else [];
    }

    method ConsumeHead(answer: Code) returns (code: Code)
      modifies this`consumed, this`head, this`taken
      ensures Res(code, View()) == ConsumeReceipt(old(View()), answer)
    {
      hide Unread;
      if answer != Ok { return answer; }
      var unread := UnreadBytes();
      if head.bytes > |unread| { return Range; }
      taken := taken + [unread[..head.bytes]];
      consumed := consumed + head.bytes;
      head := head.(state := Consumed);
      return Ok;
    }

    method SubmitReadHead(env: Env) returns (code: Code)
      modifies this`consumed, this`head, this`task, this`taken, this`attempts
      ensures Res(code, View()) == SubmitHead(protocol, old(View()), env)
    {
      hide Unread, ConsumeReceipt, Peek;
      if task || !HeadValid(head) { return InvalidArgument; }
      if head.state != HeadEmpty { return Busy; }
      if env.frames != Ok { return env.frames; }
      var unread := UnreadBytes();
      var peeked, _ := ScanFrames(protocol.codec, HEAD_LIMITS, env.eof, unread);
      if peeked.stop == Failed { return Code.Protocol; }
      if peeked.frames == [] { return Ok; }
      var wire := peeked.frames[0];
      if protocol.sequence(wire) == 0 { return Internal; }
      if env.read != Ok { return env.read; }
      var next := Head(NeedsConsume, lease, |wire|, protocol.command(wire), protocol.sequence(wire), env.submit);
      task := env.returned && !env.submit.transferred;
      head := next;
      attempts := attempts + [Attempt(wire, next)];
      code := ConsumeHead(env.consume);
      if next.submission.result != Ok { code := next.submission.result; }
    }

    method ResumeConsumption(answer: Code) returns (code: Code)
      modifies this`consumed, this`head, this`taken
      ensures Res(code, View()) == ResumeConsume(old(View()), answer)
    {
      hide ConsumeReceipt;
      if !HeadValid(head) { return InvalidArgument; }
      if head.state != NeedsConsume { return NotFound; }
      code := ConsumeHead(answer);
    }

    method Acknowledge() returns (code: Code)
      modifies this`head
      ensures Res(code, View()) == AcknowledgeHead(old(View()))
    {
      if !HeadValid(head) { return InvalidArgument; }
      if head.state == HeadEmpty { return NotFound; }
      if head.state == NeedsConsume { return Busy; }
      head := NO_HEAD;
      return Ok;
    }

    method Reject(env: Env) returns (code: Code, stage: Where)
      modifies this`rejection, this`replies
      ensures StepRes(code, stage, View()) == RejectStep(old(View()), env)
    {
      hide Classify;
      var k := Classify(head);
      if k.code != Ok { return k.code, Early; }
      if head.state == NeedsConsume { return Busy, Early; }
      if rejection != NO_REJECTION && !Matches(head, rejection, k.status) { return InvalidArgument, Early; }
      if rejection.state == Ready { return NotFound, Early; }
      if rejection == NO_REJECTION { rejection := Rejection(NeedsEnqueue, head.client, head.command, head.sequence, k.status); }
      if env.ready != Ok { return env.ready, Early; }
      code, stage := EnqueueRejection(env);
      if code != Ok { return; }
      if env.refresh != Ok { return env.refresh, Later; }
      rejection := rejection.(state := Ready);
      return Ok, Later;
    }

    method EnqueueRejection(env: Env) returns (code: Code, stage: Where)
      modifies this`rejection, this`replies
      ensures StepRes(code, stage, View()) == EnqueueReply(old(View()), env)
    {
      if rejection.state == NeedsEnqueue {
        if env.encode != Ok { return env.encode, Early; }
        if env.enqueue != Ok { return env.enqueue, AtEnqueue; }
        replies := replies + [Reply(rejection.client, rejection.command, rejection.sequence, rejection.status)];
        rejection := rejection.(state := NeedsRefresh);
      }
      return Ok, Later;
    }

    method AcknowledgeBoth() returns (code: Code)
      modifies this`head, this`rejection
      ensures Res(code, View()) == AcknowledgeRejection(old(View()))
    {
      hide Classify;
      var k := Classify(head);
      if k.code != Ok { return k.code; }
      if head.state == NeedsConsume { return Busy; }
      if rejection == NO_REJECTION { return NotFound; }
      if !Matches(head, rejection, k.status) { return InvalidArgument; }
      if rejection.state != Ready { return Busy; }
      code := Acknowledge();
      if code == Ok { rejection := NO_REJECTION; }
    }

    method DestroyRemaining(answer: Code) returns (code: Code)
      modifies this`task
      ensures Res(code, View()) == DestroyTask(old(View()), answer)
    {
      if task && answer != Ok { return answer; }
      task := false;
      return Ok;
    }

    /** What is left to do for a head that has been submitted. */
    method Finish(env: Env) returns (code: Code)
      modifies this
      ensures Res(code, View()) == FinishHead(old(View()), env) && stream == old(stream)
    {
      hide ResumeConsume, RejectStep, AcknowledgeRejection, AcknowledgeHead;
      code := Ok;
      if head.state == NeedsConsume {
        code := ResumeConsumption(env.resume);
        if code != Ok { return; }
      }
      if head.state == HeadEmpty { return Ok; }
      code := DestroyRemaining(env.destroy);
      if code != Ok { return; }
      if !head.submission.transferred && head.submission.retained { return Internal; }
      if head.submission.transferred {
        code := Acknowledge();
        return;
      }
      var stage;
      code, stage := Reject(env);
      if code == Range && stage == AtEnqueue { return Ok; }
      if code != Ok { return; }
      code := AcknowledgeBoth();
    }

    method ServeTurn(env: Env) returns (code: Code)
      modifies this
      ensures Res(code, View()) == Turn(protocol, old(View()), env)
    {
      hide SubmitHead, FinishHead;
      if head.state != HeadEmpty {
        code := Finish(env);
      } else {
        code := SubmitReadHead(env);
        if head.state != HeadEmpty { code := Finish(env); }
      }
    }
  }
}
