/** One client's pending record and recovery, advanced in place. */
module AsyncHeads {
  import opened Base
  import opened Framing
  import opened AsyncModel

  class AsyncHead {
    const codec: Codec
    const lease: Lease
    var stream: seq<byte>
    var consumed: nat
    var pending: Pending
    var task: bool
    var cursor: StepName
    ghost var handed: seq<seq<byte>>
    ghost var taken: seq<seq<byte>>
    ghost var calls: seq<Call>

    ghost function View(): (c: Client)
      reads this
    {
      Client(lease, stream, consumed, pending, task, cursor, handed, taken, calls)
    }

    constructor (k: Codec, l: Lease)
      ensures codec == k && lease == l && Initial(View())
    {
      codec, lease := k, l;
      stream, consumed, pending, task, cursor := [], 0, NO_PENDING, false, NoStep;
      handed, taken, calls := [], [], [];
    }

    method UnreadBytes() returns (s: seq<byte>)
      ensures s == Unread(View())
    {
      return if consumed <= |stream| then stream[consumed..] else [];
    }

    method ConsumeOnce(answer: Code) returns (code: Code)
      modifies this`consumed, this`pending, this`taken
      ensures Res(code, View()) == ConsumePending(old(View()), answer)
    {
      hide Unread;
      if answer != Ok { return answer; }
      var unread := UnreadBytes();
      if pending.bytes > |unread| { return Range; }
      taken := taken + [unread[..pending.bytes]];
      consumed := consumed + pending.bytes;
      pending := NO_PENDING;
      return Ok;
    }

    method SubmitReadHead(cap: nat, env: Env) returns (code: Code)
      modifies this`consumed, this`pending, this`task, this`handed, this`taken
      ensures Res(code, View()) == SubmitHead(codec, old(View()), cap, env)
    {
      hide Unread, ConsumePending, Peek, PendingValid;
      if task { return InvalidArgument; }
      if cap < HEADER || cap > PROTOCOL_MAX { return Range; }
      if pending != NO_PENDING { return if PendingValid(pending) then Busy else InvalidArgument; }
      if env.frames != Ok { return env.frames; }
      var unread := UnreadBytes();
      var peeked, _ := ScanFrames(codec, Limits(cap, 1, cap, 1), env.eof, unread);
      if peeked.stop == Failed { return Protocol; }
      if peeked.frames == [] { return Ok; }
      if env.read != Ok { return env.read; }
      if !env.transferred {
        task := env.returned;
        return env.submit;
      }
      task := false;
      pending := Pending(env.meta, |peeked.frames[0]|);
      handed := handed + [peeked.frames[0]];
      code := ConsumeOnce(env.consume);
      if env.submit != Ok { code := env.submit; }
    }

    method ResumeConsumption(answer: Code) returns (code: Code)
      modifies this`consumed, this`pending, this`taken
      ensures Res(code, View()) == ResumeConsume(old(View()), answer)
    {
      hide ConsumePending;
      if pending == NO_PENDING { return NotFound; }
      if !PendingValid(pending) { return InvalidArgument; }
      code := ConsumeOnce(answer);
    }

    /** Consume, refresh, schedule, from the given step to the first failure. */
    method ResumePending(client: Lease, from_: StepName, env: Env) returns (code: Code, next: StepName)
      modifies this`consumed, this`pending, this`taken, this`calls
      ensures Recovered(code, next, View()) == Recover(old(View()), client, from_, env)
    {
      hide ResumeConsume, RecoveryCheck;
      code := Checks(client, from_);
      if code != Ok { return code, NoStep; }
      next := from_;
      assert next in {ConsumeStep, RefreshStep, ScheduleStep} by { CheckedStep(View(), client, from_); }
      if next == ConsumeStep {
        code := ResumeConsumption(env.consume);
        calls := calls + [Call(ConsumeStep, code)];
        if code != Ok { return; }
        next := RefreshStep;
      }
      if next == RefreshStep {
        calls := calls + [Call(RefreshStep, env.refresh)];
        if env.refresh != Ok { return env.refresh, next; }
        next := ScheduleStep;
      }
      calls := calls + [Call(ScheduleStep, env.schedule)];
      if env.schedule != Ok { return env.schedule, next; }
      return Ok, DoneStep;
    }

    method Checks(client: Lease, from_: StepName) returns (code: Code)
      ensures code == RecoveryCheck(View(), client, from_)
    {
      if from_ != ConsumeStep && from_ != RefreshStep && from_ != ScheduleStep { return InvalidArgument; }
      if client == NO_LEASE { return NotFound; }
      if !LeaseShaped(client) { return InvalidArgument; }
      var empty := pending == NO_PENDING;
      if !empty {
        if !PendingValid(pending) { return InvalidArgument; }
        if pending.meta.client != client { return InvalidArgument; }
      }
      if from_ == ConsumeStep && empty { return NotFound; }
      if from_ != ConsumeStep && !empty { return Busy; }
      return Ok;
    }

    /** Feeds the step the last call reported back in. */
    method ContinueRecovery(client: Lease, env: Env) returns (code: Code)
      modifies this
      ensures code == Recover(old(View()), client, old(cursor), env).code && View() == Step(codec, old(View()), Continue(client, env))
    {
      hide Recover;
      code, cursor := ResumePending(client, cursor, env);
    }
  }

  lemma CheckedStep(c: Client, client: Lease, from_: StepName)
    ensures RecoveryCheck(c, client, from_) == Ok ==> from_ in {ConsumeStep, RefreshStep, ScheduleStep}
  {
  }
}
