/** The connection object: two buffers and a handful of fields updated in place, each operation refining its model. */
module Connections {
  import opened Base
  import opened Framing
  import opened ConnectionModel
  import opened Buffers

  const NO_FLOW := Flow(FlowOptions(0, 0, 0, 0, 0), false, false)

  class Connection {
    const readBuffer: Buffer
    const writeBuffer: Buffer
    var readEof: bool
    var loopAttached: bool
    var loopInterests: Interests
    var flowEnabled: bool
    /** Watermarks and the two latched pressures; meaningful while enabled. */
    var flow: Flow
    var closeState: CloseState
    var closeMode: CloseMode
    var closeReason: nat
    /** The history a run is judged by. */
    ghost var received: seq<byte>
    ghost var consumed: seq<byte>
    ghost var offered: seq<seq<byte>>
    ghost var taken: seq<seq<byte>>
    ghost var accepted: seq<byte>
    ghost var sent: seq<byte>

    ghost predicate Sound()
      reads this, readBuffer, readBuffer.data, writeBuffer, writeBuffer.data
    {
      && readBuffer != writeBuffer && readBuffer.data != writeBuffer.data
      && readBuffer.Valid() && writeBuffer.Valid()
    }

    ghost predicate Valid()
      reads this, readBuffer, readBuffer.data, writeBuffer, writeBuffer.data
    {
      Sound() && Inv(View())
    }

    /** The abstract value: buffer contents, not buffer layout. */
    ghost function View(): (c: Conn)
      requires Sound()
      reads this, readBuffer, readBuffer.data, writeBuffer, writeBuffer.data
    {
      Conn(readBuffer.Contents(), readBuffer.data.Length, writeBuffer.Contents(), writeBuffer.data.Length, readEof,
           if loopAttached then Some(loopInterests) else None,
           if flowEnabled then Some(flow) else None,
           closeState, closeMode, closeReason, received, consumed, offered, taken, accepted, sent)
    }

    constructor (readCapacity: nat, writeCapacity: nat)
      requires 0 < readCapacity <= MAX_CAPACITY && 0 < writeCapacity <= MAX_CAPACITY
      ensures Valid() && Initial(View())
      ensures View().readCap == readCapacity && View().writeCap == writeCapacity
    {
      readBuffer := new Buffer(readCapacity);
      writeBuffer := new Buffer(writeCapacity);
      readEof, loopAttached, loopInterests := false, false, NO_INTERESTS;
      flowEnabled, flow := false, NO_FLOW;
      closeState, closeMode, closeReason := Open, NoClose, NO_REASON;
      received, consumed, offered, taken, accepted, sent := [], [], [], [], [], [];
      new;
      InitialInv(View());
    }

    /** Compacts once, then receives until a budget, the free space, the peer or an error says stop. */
    method Receive(kernel: seq<Recv>, maxBytes: nat, maxCalls: nat) returns (r: Received)
      requires Valid()
      modifies this, readBuffer, readBuffer.data
      ensures Valid()
      ensures (r, View()) == DoReceive(old(View()), kernel, maxBytes, maxCalls)
    {
      hide Inv, Absorb;
      ReceiveInv(View(), kernel, maxBytes, maxCalls);
      if maxBytes == 0 || maxCalls == 0 { return Received([], false, Range, Broken, 0); }
      if closeState != Open { return Received([], false, Busy, Broken, 0); }
      readBuffer.Compact();
      if readEof { return Received([], false, Ok, PeerDone, 0); }
      r := ReceiveInto(readBuffer, kernel, maxBytes, maxCalls);
      readEof := readEof || r.eof;
      received := received + r.bytes;
    }

    method ReadConsume(size: nat) returns (code: Code)
      requires Valid()
      modifies this, readBuffer, readBuffer.data
      ensures Valid()
      ensures Outcome(code, View()) == DoConsume(old(View()), size)
    {
      hide Inv;
      ghost var c := View();
      ConsumeInv(c, size);
      code := readBuffer.Consume(size);
      if code == Ok {
        consumed := consumed + c.read[..size];
        assert View() == c.(read := c.read[size..], consumed := c.consumed + c.read[..size]);
      }
    }

    /** Reads only; the frames on offer are recorded for the run's sake. */
    method FramesPeek(codec: Codec, l: Limits) returns (code: Code, p: Peeked, total: nat)
      requires Valid()
      modifies this`offered
      ensures Valid()
      ensures PeekReply(code, p) == DoPeek(codec, old(View()), l) && total == Total(p.frames)
      ensures View() == Step(codec, old(View()), PeekFrames(l))
    {
      total := 0;
      if l.views == 0 || l.messages == 0 || l.bytes == 0 || l.max < HEADER || l.max > readBuffer.data.Length ||
         l.max > PROTOCOL_MAX || l.bytes < l.max || (flowEnabled && l.max > flow.options.maxFrame) {
        return Range, Peeked([], Failed, None), 0;
      }
      p, total := ScanFrames(codec, l, readEof, readBuffer.data[readBuffer.readIndex..readBuffer.writeIndex]);
      code := if p.stop == Failed then Protocol else Ok;
      offered := p.frames;
    }

    /** All or nothing: every refusal precedes the first change. */
    method WriteEnqueue(bytes: seq<byte>) returns (code: Code)
      requires Valid() && |bytes| <= SIZE_MAX
      modifies this, writeBuffer, writeBuffer.data
      ensures Valid()
      ensures Outcome(code, View()) == DoEnqueue(old(View()), bytes)
    {
      hide Inv;
      EnqueueInv(View(), bytes);
      var readable := writeBuffer.writeIndex - writeBuffer.readIndex;
      var pending := CheckedAdd(readable, |bytes|);
      if pending.Bad? { return Overflow; }
      if |bytes| > writeBuffer.data.Length { return Range; }
      if pending.value > writeBuffer.data.Length { return Busy; }
      if closeState != Open { return Busy; }
      if |bytes| > writeBuffer.data.Length - writeBuffer.writeIndex { writeBuffer.Compact(); }
      code := writeBuffer.Append(bytes);
      accepted := accepted + bytes;
    }

    method SendPending(kernel: seq<Send>, maxBytes: nat, maxCalls: nat) returns (r: Sent)
      requires Valid()
      modifies this, writeBuffer, writeBuffer.data
      ensures Valid()
      ensures (r, View()) == DoSend(old(View()), kernel, maxBytes, maxCalls)
    {
      hide Inv, Push;
      SendInv(View(), kernel, maxBytes, maxCalls);
      if maxBytes == 0 || maxCalls == 0 { return Sent(0, Range, SendBroken, 0); }
      if closeState == Ready { return Sent(0, Busy, SendBroken, 0); }
      ghost var queued := writeBuffer.Contents();
      r := SendFrom(writeBuffer, kernel, maxBytes, maxCalls);
      sent := sent + queued[..r.count];
    }

    method AttachLoop(interests: Interests, add: Code) returns (code: Code)
      requires Valid()
      modifies this
      ensures Valid()
      ensures Outcome(code, View()) == DoAttach(old(View()), interests, add)
    {
      hide Inv, Buffer.Contents, Buffer.Valid;
      BindingInv(View(), interests, add);
      if closeState != Open || loopAttached { return Busy; }
      if add == Ok { loopAttached, loopInterests := true, interests; }
      return add;
    }

    method ReplaceInterests(interests: Interests, mod: Code) returns (code: Code)
      requires Valid()
      modifies this
      ensures Valid()
      ensures Outcome(code, View()) == DoSetInterests(old(View()), interests, mod)
    {
      hide Inv, Buffer.Contents, Buffer.Valid;
      BindingInv(View(), interests, mod);
      if closeState != Open { return Busy; }
      if !loopAttached { return NotFound; }
      if flowEnabled { return Busy; }
      if mod == Ok { loopInterests := interests; }
      return mod;
    }

    method DetachLoop(del: Code) returns (code: Code)
      requires Valid()
      modifies this`loopAttached, this`loopInterests, this`flowEnabled, this`flow
      ensures Valid()
      ensures Outcome(code, View()) == DoDetach(old(View()), del)
    {
      hide Inv, Buffer.Contents, Buffer.Valid;
      UnbindingInv(View(), del);
      if !loopAttached { return Ok; }
      if del == Ok {
        loopAttached, loopInterests, flowEnabled, flow := false, NO_INTERESTS, false, NO_FLOW;
      }
      return del;
    }

    /** The plan that follows from the current occupancies. */
    method PlanFlow(options: FlowOptions, reset: bool) returns (plan: Plan)
      requires Sound()
      ensures var c := View();
              var held := !reset && c.flow.Some?;
              plan == FlowPlan(options, |c.read|, |c.write|, c.eof, held && c.flow.value.readPressure, held && c.flow.value.writePressure)
    {
      hide FlowPlan;
      var readable := readBuffer.writeIndex - readBuffer.readIndex;
      var queued := writeBuffer.writeIndex - writeBuffer.readIndex;
      var held := !reset && flowEnabled;
      plan := FlowPlan(options, readable, queued, readEof, held && flow.readPressure, held && flow.writePressure);
    }

    /** Nothing is published until a needed change of interests has succeeded. */
    method ApplyFlow(options: FlowOptions, reset: bool, mod: Code) returns (code: Code)
      requires Sound() && loopAttached
      modifies this`flow, this`flowEnabled, this`loopInterests
      ensures Sound()
      ensures Outcome(code, View()) == FlowApply(old(View()), options, reset, mod)
    {
      hide FlowPlan, Buffer.Contents, Buffer.Valid;
      var plan := PlanFlow(options, reset);
      if plan.interests == loopInterests || mod == Ok {
        code, flow, flowEnabled, loopInterests := Ok, plan.flow, true, plan.interests;
      } else {
        code := mod;
      }
    }

    method ConfigureFlow(options: FlowOptions, mod: Code) returns (code: Code)
      requires Valid()
      modifies this
      ensures Valid()
      ensures Outcome(code, View()) == DoFlowConfigure(old(View()), options, mod)
    {
      if closeState != Open { return Busy; }
      if !loopAttached { return NotFound; }
      if options.maxFrame < HEADER || options.maxFrame > readBuffer.data.Length || options.maxFrame > PROTOCOL_MAX ||
         options.readLow < options.maxFrame - 1 || options.readLow >= options.readHigh ||
         options.readHigh > readBuffer.data.Length || options.writeLow >= options.writeHigh ||
         options.writeHigh > writeBuffer.data.Length {
        return Range;
      }
      FlowInv(View(), options, true, mod);
      code := ApplyFlow(options, true, mod);
    }

    method RefreshFlow(mod: Code) returns (code: Code)
      requires Valid()
      modifies this
      ensures Valid()
      ensures Outcome(code, View()) == DoFlowRefresh(old(View()), mod)
    {
      if closeState != Open { return Busy; }
      if !loopAttached || !flowEnabled { return NotFound; }
      FlowInv(View(), flow.options, false, mod);
      code := ApplyFlow(flow.options, false, mod);
    }

    method DisableFlow() returns (code: Code)
      requires Valid()
      modifies this
      ensures Valid()
      ensures Outcome(code, View()) == DoFlowDisable(old(View()))
    {
      hide Inv, Buffer.Contents, Buffer.Valid;
      UnbindingInv(View(), Ok);
      if closeState != Open { return Busy; }
      flowEnabled, flow := false, NO_FLOW;
      return Ok;
    }

    method SyncClose(mod: Code) returns (code: Code)
      requires Sound()
      modifies this`closeState, this`loopInterests
      ensures Sound()
      ensures Outcome(code, View()) == CloseSync(old(View()), mod)
    {
      var draining := closeMode == Drain && writeBuffer.writeIndex != writeBuffer.readIndex;
      closeState := if draining then Draining else Ready;
      var interests := if draining then WRITE_ONLY else NO_INTERESTS;
      if loopAttached && interests != loopInterests {
        if mod != Ok { return mod; }
        loopInterests := interests;
      }
      return Ok;
    }

    method AskClose(mode: CloseMode, reason: nat, mod: Code) returns (code: Code)
      requires Valid()
      modifies this
      ensures Valid()
      ensures Outcome(code, View()) == DoRequestClose(old(View()), mode, reason, mod)
    {
      hide Inv, CloseSync, Buffer.Contents, Buffer.Valid;
      CloseInv(View(), mode, reason, mod);
      if mode == NoClose || reason < 1 || reason > LAST_REASON { return InvalidArgument; }
      if closeMode == Immediate && mode == Drain { return Busy; }
      if closeState == Open { closeReason := reason; }
      closeMode := mode;
      code := SyncClose(mod);
    }

    method RefreshClose(mod: Code) returns (code: Code)
      requires Valid()
      modifies this
      ensures Valid()
      ensures Outcome(code, View()) == DoCloseRefresh(old(View()), mod)
    {
      hide Inv, CloseSync, Buffer.Contents, Buffer.Valid;
      CloseInv(View(), Drain, 1, mod);
      if closeState == Open { return NotFound; }
      code := SyncClose(mod);
    }
  }

  /** One `recv` under the budgets, or the reason not to make one. */
  method CallReceive(kernel: seq<Recv>, tail: nat, maxBytes: nat, maxCalls: nat, got: nat, calls: nat) returns (c: Call)
    requires got <= maxBytes && calls <= maxCalls
    ensures c == ReceiveOnce(kernel, tail, maxBytes, maxCalls, got, calls)
  {
    if got == maxBytes { return Finished(Received([], false, Ok, BytesSpent, calls)); }
    if tail == 0 { return Finished(Received([], false, Ok, BufferFull, calls)); }
    if calls == maxCalls { return Finished(Received([], false, Ok, CallsSpent, calls)); }
    var request := maxBytes - got;
    if request > tail { request := tail; }
    if request > SCRATCH { request := SCRATCH; }
    var answer := Answer(kernel, calls);
    if answer.Bogus? || (answer.Data? && |answer.bytes| > request) { return Finished(Received([], false, Internal, Broken, calls + 1)); }
    if answer.Failure? { return Finished(Received([], false, Io, Broken, calls + 1)); }
    if answer.Again? { return Finished(Received([], false, Ok, WouldBlock, calls + 1)); }
    if answer.bytes == [] { return Finished(Received([], true, Ok, PeerDone, calls + 1)); }
    return Arrived(answer.bytes);
  }

  /** One turn of the receive loop: a call, and its bytes appended. */
  method ReceiveTurn(buffer: Buffer, kernel: seq<Recv>, maxBytes: nat, maxCalls: nat, got: nat, calls: nat) returns (c: Call)
    requires buffer.Valid() && got <= maxBytes && calls <= maxCalls
    modifies buffer, buffer.data
    ensures buffer.Valid() && buffer.data == old(buffer.data)
    ensures c == ReceiveOnce(kernel, buffer.data.Length - old(buffer.writeIndex), maxBytes, maxCalls, got, calls)
    ensures c.Finished? ==> buffer.Contents() == old(buffer.Contents()) && buffer.writeIndex == old(buffer.writeIndex)
    ensures c.Arrived? ==> buffer.Contents() == old(buffer.Contents()) + c.bytes && buffer.writeIndex == old(buffer.writeIndex) + |c.bytes|
  {
    hide ReceiveOnce;
    c := CallReceive(kernel, buffer.data.Length - buffer.writeIndex, maxBytes, maxCalls, got, calls);
    if c.Arrived? {
      var code := buffer.Append(c.bytes);
    }
  }

  /** The receive loop: appends what each call brought. */
  method ReceiveInto(buffer: Buffer, kernel: seq<Recv>, maxBytes: nat, maxCalls: nat) returns (r: Received)
    requires buffer.Valid() && buffer.writeIndex == |buffer.Contents()|
    modifies buffer, buffer.data
    ensures buffer.Valid() && buffer.data == old(buffer.data)
    ensures r == Absorb(kernel, buffer.data.Length - |old(buffer.Contents())|, maxBytes, maxCalls, [], 0)
    ensures buffer.Contents() == old(buffer.Contents()) + r.bytes
  {
    hide ReceiveOnce, Absorb, Buffer.Contents;
    ghost var before := buffer.Contents();
    var got: seq<byte>, calls: nat := [], 0;
    ghost var whole := Absorb(kernel, buffer.data.Length - buffer.writeIndex, maxBytes, maxCalls, got, calls);
    assert before + [] == before;
    while true
      invariant buffer.Valid() && buffer.data == old(buffer.data)
      invariant |got| <= maxBytes && calls <= maxCalls
      invariant buffer.Contents() == before + got
      invariant whole == Absorb(kernel, buffer.data.Length - buffer.writeIndex, maxBytes, maxCalls, got, calls)
      decreases maxCalls - calls
    {
      AbsorbTurn(kernel, buffer.data.Length - buffer.writeIndex, maxBytes, maxCalls, got, calls);
      var c := ReceiveTurn(buffer, kernel, maxBytes, maxCalls, |got|, calls);
      if c.Finished? { return c.result.(bytes := got); }
      assert (before + got) + c.bytes == before + (got + c.bytes);
      got, calls := got + c.bytes, calls + 1;
    }
  }

  lemma AbsorbTurn(kernel: seq<Recv>, tail: nat, maxBytes: nat, maxCalls: nat, got: seq<byte>, calls: nat)
    requires |got| <= maxBytes && calls <= maxCalls
    ensures match ReceiveOnce(kernel, tail, maxBytes, maxCalls, |got|, calls)
            case Finished(r) => Absorb(kernel, tail, maxBytes, maxCalls, got, calls) == r.(bytes := got)
            case Arrived(bytes) =>
              Absorb(kernel, tail, maxBytes, maxCalls, got, calls) == Absorb(kernel, tail - |bytes|, maxBytes, maxCalls, got + bytes, calls + 1)
  {
  }

  /** One `send` under the budgets, or the reason not to make one. */
  method CallSend(kernel: seq<Send>, pending: nat, maxBytes: nat, maxCalls: nat, done: nat, calls: nat) returns (t: SendTurn)
    requires done <= maxBytes && calls <= maxCalls
    ensures t == SendOnce(kernel, pending, maxBytes, maxCalls, done, calls)
  {
    if pending == 0 { return Over(Sent(0, Ok, Emptied, calls)); }
    if done == maxBytes { return Over(Sent(0, Ok, BudgetSpent, calls)); }
    if calls == maxCalls { return Over(Sent(0, Ok, CallLimit, calls)); }
    var request := maxBytes - done;
    if request > pending { request := pending; }
    if request > SCRATCH { request := SCRATCH; }
    var answer := Reply(kernel, calls);
    if answer.Took? && (answer.count <= 0 || answer.count > request) { return Over(Sent(0, Internal, SendBroken, calls + 1)); }
    if answer.Later? { return Over(Sent(0, Ok, SendBlocked, calls + 1)); }
    if answer.Failing? { return Over(Sent(0, Io, SendBroken, calls + 1)); }
    return Passed(answer.count);
  }

  /** One turn of the send loop: a call, and what it took consumed. */
  method SendTurnFrom(buffer: Buffer, kernel: seq<Send>, maxBytes: nat, maxCalls: nat, done: nat, calls: nat) returns (t: SendTurn)
    requires buffer.Valid() && done <= maxBytes && calls <= maxCalls
    modifies buffer, buffer.data
    ensures buffer.Valid() && buffer.data == old(buffer.data)
    ensures t == SendOnce(kernel, |old(buffer.Contents())|, maxBytes, maxCalls, done, calls)
    ensures t.Over? ==> buffer.Contents() == old(buffer.Contents())
    ensures t.Passed? ==> buffer.Contents() == old(buffer.Contents())[t.count..]
  {
    hide SendOnce;
    t := CallSend(kernel, buffer.writeIndex - buffer.readIndex, maxBytes, maxCalls, done, calls);
    if t.Passed? {
      var code := buffer.Consume(t.count);
    }
  }

  /** The send loop: each accepted prefix is consumed before the next call. */
  method SendFrom(buffer: Buffer, kernel: seq<Send>, maxBytes: nat, maxCalls: nat) returns (r: Sent)
    requires buffer.Valid()
    modifies buffer, buffer.data
    ensures buffer.Valid() && buffer.data == old(buffer.data)
    ensures r == Push(kernel, |old(buffer.Contents())|, maxBytes, maxCalls, 0, 0)
    ensures r.count <= |old(buffer.Contents())| && buffer.Contents() == old(buffer.Contents())[r.count..]
  {
    hide SendOnce, Push, Buffer.Contents;
    ghost var before := buffer.Contents();
    ghost var whole := Push(kernel, |before|, maxBytes, maxCalls, 0, 0);
    var done: nat, calls: nat := 0, 0;
    assert before[0..] == before;
    while true
      invariant buffer.Valid() && buffer.data == old(buffer.data)
      invariant done <= maxBytes && calls <= maxCalls && done <= |before|
      invariant buffer.Contents() == before[done..]
      invariant whole == Push(kernel, |before|, maxBytes, maxCalls, done, calls)
      decreases maxCalls - calls
    {
      PushTurn(kernel, |before|, maxBytes, maxCalls, done, calls);
      var t := SendTurnFrom(buffer, kernel, maxBytes, maxCalls, done, calls);
      if t.Over? { return t.result.(count := done); }
      Slices(before, done, t.count);
      done, calls := done + t.count, calls + 1;
    }
  }

  lemma PushTurn(kernel: seq<Send>, queued: nat, maxBytes: nat, maxCalls: nat, done: nat, calls: nat)
    requires done <= maxBytes && calls <= maxCalls && done <= queued
    ensures match SendOnce(kernel, queued - done, maxBytes, maxCalls, done, calls)
            case Over(r) => Push(kernel, queued, maxBytes, maxCalls, done, calls) == r.(count := done)
            case Passed(n) =>
              Push(kernel, queued, maxBytes, maxCalls, done, calls) == Push(kernel, queued, maxBytes, maxCalls, done + n, calls + 1)
  {
  }
}
