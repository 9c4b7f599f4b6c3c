/**
  A raw connection as a value, one function per operation, and what every run of those operations
  keeps: framing that ignores chunking, bytes neither lost nor repeated on the way out, a close
  that only moves forward, and flow control that cannot stall on half a frame.
 */
module ConnectionModel {
  import opened Base
  import opened Framing

  const SCRATCH: nat := 4096

  /** The three readiness bits a connection can register for. */
  datatype Interests = Interests(read: bool, write: bool, peerWriteClosed: bool)
  const NO_INTERESTS := Interests(false, false, false)
  const WRITE_ONLY := Interests(false, true, false)
  datatype CloseState = Open | Draining | Ready
  datatype CloseMode = NoClose | Drain | Immediate
  const NO_REASON: nat := 0
  const LAST_REASON: nat := 6

  datatype FlowOptions = FlowOptions(maxFrame: nat, readLow: nat, readHigh: nat, writeLow: nat, writeHigh: nat)
  datatype Flow = Flow(options: FlowOptions, readPressure: bool, writePressure: bool)

  /**
    `loop` holds the registered interests while attached and `flow` the watermarks while enabled.
    The last six fields are history: bytes received and consumed, frames offered by the latest peek
    and not yet taken, frames taken, bytes accepted for sending, bytes the transport took.
   */
  datatype Conn = Conn(
    read: seq<byte>, readCap: nat, write: seq<byte>, writeCap: nat, eof: bool,
    loop: Option<Interests>, flow: Option<Flow>,
    state: CloseState, mode: CloseMode, reason: nat,
    received: seq<byte>, consumed: seq<byte>, offered: seq<seq<byte>>, taken: seq<seq<byte>>,
    accepted: seq<byte>, sent: seq<byte>)

  datatype Outcome = Outcome(code: Code, conn: Conn)

  function Min(a: nat, b: nat): nat { if a < b then a else b }

  // ---- Receiving -----------------------------------------------------------------------------

  /** What one `recv` hands back: bytes (none at end of stream), try again, an error, or a count no `recv` may return. */
  datatype Recv = Data(bytes: seq<byte>) | Again | Failure | Bogus
  datatype ReceiveStop = BytesSpent | BufferFull | CallsSpent | WouldBlock | PeerDone | Broken
  datatype Received = Received(bytes: seq<byte>, eof: bool, code: Code, stop: ReceiveStop, calls: nat)

  /** Call number `i` of a schedule of answers; past its end the transport keeps saying try again. */
  function Answer(kernel: seq<Recv>, i: nat): Recv
  {
    if i < |kernel| then kernel[i] else Again
  }

  datatype Call = Finished(result: Received) | Arrived(bytes: seq<byte>)

  /** One turn of the receive loop with `got` bytes and `calls` calls behind it and room for `tail` more bytes. */
  function ReceiveOnce(kernel: seq<Recv>, tail: nat, maxBytes: nat, maxCalls: nat, got: nat, calls: nat): (c: Call)
    requires got <= maxBytes && calls <= maxCalls
    ensures c.Arrived? ==> calls < maxCalls && 0 < |c.bytes| <= tail && got + |c.bytes| <= maxBytes
    ensures c.Arrived? ==> Answer(kernel, calls) == Data(c.bytes)
    ensures c.Finished? ==> c.result.bytes == []
  {
    if got == maxBytes then Finished(Received([], false, Ok, BytesSpent, calls))
    else if tail == 0 then Finished(Received([], false, Ok, BufferFull, calls))
    else if calls == maxCalls then Finished(Received([], false, Ok, CallsSpent, calls))
    else
      var request := Min(Min(maxBytes - got, tail), SCRATCH);
      match Answer(kernel, calls)
      case Bogus => Finished(Received([], false, Internal, Broken, calls + 1))
      case Failure => Finished(Received([], false, Io, Broken, calls + 1))
      case Again => Finished(Received([], false, Ok, WouldBlock, calls + 1))
      case Data(bytes) =>
        if |bytes| > request then Finished(Received([], false, Internal, Broken, calls + 1))
        else if bytes == [] then Finished(Received([], true, Ok, PeerDone, calls + 1))
        else Arrived(bytes)
  }

  /** The receive loop, holding `got` so far. */
  function Absorb(kernel: seq<Recv>, tail: nat, maxBytes: nat, maxCalls: nat, got: seq<byte>, calls: nat): (r: Received)
    requires |got| <= maxBytes && calls <= maxCalls
    decreases maxCalls - calls
  {
    match ReceiveOnce(kernel, tail, maxBytes, maxCalls, |got|, calls)
    case Finished(r) => r.(bytes := got)
    case Arrived(bytes) => Absorb(kernel, tail - |bytes|, maxBytes, maxCalls, got + bytes, calls + 1)
  }

  /** The bytes handed over by the `n` calls from `first` on, in order. */
  function HandedOver(kernel: seq<Recv>, first: nat, n: nat): (s: seq<byte>)
    decreases n
  {
    if n == 0 then []
    else (if Answer(kernel, first).Data? then Answer(kernel, first).bytes else []) + HandedOver(kernel, first + 1, n - 1)
  }

  /** The answers that break off a receive: an error, or a count beyond what was asked for. */
  predicate ReceiveFault(a: Recv, budget: int, tail: int, code: Code)
  {
    match a
    case Failure => code == Io
    case Bogus => code == Internal
    case Data(bytes) => code == Internal && (|bytes| > budget || |bytes| > tail || |bytes| > SCRATCH)
    case Again => false
  }

  /** Budgets and free space hold, and each stop reason means what it says. */
  lemma {:induction false} AbsorbBounds(kernel: seq<Recv>, tail: nat, maxBytes: nat, maxCalls: nat, got: seq<byte>, calls: nat)
    requires |got| <= maxBytes && calls <= maxCalls
    ensures var r := Absorb(kernel, tail, maxBytes, maxCalls, got, calls);
            && |r.bytes| <= |got| + tail && |r.bytes| <= maxBytes && calls <= r.calls <= maxCalls
            && (r.stop == BytesSpent ==> |r.bytes| == maxBytes)
            && (r.stop == BufferFull ==> |r.bytes| == |got| + tail)
            && (r.stop == CallsSpent ==> r.calls == maxCalls)
            && (r.stop in {WouldBlock, PeerDone} ==> calls < r.calls && Answer(kernel, r.calls - 1) == if r.eof then Data([]) else Again)
            && (r.stop == PeerDone <==> r.eof)
            && (r.code == Ok <==> r.stop != Broken)
            && (r.code != Ok ==> calls < r.calls && ReceiveFault(Answer(kernel, r.calls - 1), maxBytes - |r.bytes|, |got| + tail - |r.bytes|, r.code))
    decreases maxCalls - calls
  {
    var c := ReceiveOnce(kernel, tail, maxBytes, maxCalls, |got|, calls);
    if c.Arrived? {
      AbsorbBounds(kernel, tail - |c.bytes|, maxBytes, maxCalls, got + c.bytes, calls + 1);
    }
  }

  /** Every byte handed over is kept, in order; only a count no `recv` may return is dropped. */
  lemma {:induction false} AbsorbKeepsEveryByte(kernel: seq<Recv>, tail: nat, maxBytes: nat, maxCalls: nat, got: seq<byte>, calls: nat)
    requires |got| <= maxBytes && calls <= maxCalls
    ensures var r := Absorb(kernel, tail, maxBytes, maxCalls, got, calls);
            && calls <= r.calls
            && (r.code != Internal ==> r.bytes == got + HandedOver(kernel, calls, r.calls - calls))
    decreases maxCalls - calls
  {
    var c := ReceiveOnce(kernel, tail, maxBytes, maxCalls, |got|, calls);
    var r := Absorb(kernel, tail, maxBytes, maxCalls, got, calls);
    if c.Arrived? {
      AbsorbKeepsEveryByte(kernel, tail - |c.bytes|, maxBytes, maxCalls, got + c.bytes, calls + 1);
      if r.code != Internal {
        assert (got + c.bytes) + HandedOver(kernel, calls + 1, r.calls - calls - 1) == got + HandedOver(kernel, calls, r.calls - calls);
      }
    } else {
      assert HandedOver(kernel, calls + 1, 0) == [];
    }
  }

  /** Free space behind the buffered bytes. */
  function Tail(c: Conn): nat
  {
    if |c.read| < c.readCap then c.readCap - |c.read| else 0
  }

  function DoReceive(c: Conn, kernel: seq<Recv>, maxBytes: nat, maxCalls: nat): (o: (Received, Conn))
  {
    if maxBytes == 0 || maxCalls == 0 then (Received([], false, Range, Broken, 0), c)
    else if c.state != Open then (Received([], false, Busy, Broken, 0), c)
    else if c.eof then (Received([], false, Ok, PeerDone, 0), c)
    else
      var r := Absorb(kernel, Tail(c), maxBytes, maxCalls, [], 0);
      (r, c.(read := c.read + r.bytes, received := c.received + r.bytes, eof := r.eof))
  }

  function DoConsume(c: Conn, size: nat): (o: Outcome)
  {
    if size <= |c.read| then Outcome(Ok, c.(read := c.read[size..], consumed := c.consumed + c.read[..size]))
    else Outcome(Range, c)
  }

  // ---- Peeking at frames ---------------------------------------------------------------------

  /** The limits a peek may be given on this connection. */
  predicate LimitsLegal(c: Conn, l: Limits)
  {
    && l.views != 0 && l.messages != 0 && l.bytes != 0
    && HEADER <= l.max <= c.readCap && l.max <= PROTOCOL_MAX && l.max <= l.bytes
    && (c.flow.Some? ==> l.max <= c.flow.value.options.maxFrame)
  }

  datatype PeekReply = PeekReply(code: Code, peeked: Peeked)

  function DoPeek(codec: Codec, c: Conn, l: Limits): (r: PeekReply)
  {
    if !LimitsLegal(c, l) then PeekReply(Range, Peeked([], Failed, None))
    else
      var p := Peek(codec, l, c.eof, c.read, 0, 0);
      PeekReply(if p.stop == Failed then Protocol else Ok, p)
  }

  // ---- Writing -------------------------------------------------------------------------------

  function DoEnqueue(c: Conn, bytes: seq<byte>): (o: Outcome)
  {
    if |c.write| + |bytes| > SIZE_MAX then Outcome(Overflow, c)
    else if |bytes| > c.writeCap then Outcome(Range, c)
    else if |c.write| + |bytes| > c.writeCap then Outcome(Busy, c)
    else if c.state != Open then Outcome(Busy, c)
    else Outcome(Ok, c.(write := c.write + bytes, accepted := c.accepted + bytes))
  }

  /** What one `send` hands back: a byte count, try again, or an error. */
  datatype Send = Took(count: int) | Later | Failing
  datatype SendStop = Emptied | BudgetSpent | CallLimit | SendBlocked | SendBroken
  datatype Sent = Sent(count: nat, code: Code, stop: SendStop, calls: nat)

  function Reply(kernel: seq<Send>, i: nat): Send
  {
    if i < |kernel| then kernel[i] else Later
  }

  datatype SendTurn = Over(result: Sent) | Passed(count: nat)

  /** One turn of the send loop with `pending` bytes queued. */
  function SendOnce(kernel: seq<Send>, pending: nat, maxBytes: nat, maxCalls: nat, done: nat, calls: nat): (t: SendTurn)
    requires done <= maxBytes && calls <= maxCalls
    ensures t.Passed? ==> calls < maxCalls && 0 < t.count <= pending && done + t.count <= maxBytes && Reply(kernel, calls) == Took(t.count)
    ensures t.Over? ==> t.result.count == 0
  {
    if pending == 0 then Over(Sent(0, Ok, Emptied, calls))
    else if done == maxBytes then Over(Sent(0, Ok, BudgetSpent, calls))
    else if calls == maxCalls then Over(Sent(0, Ok, CallLimit, calls))
    else
      var request := Min(Min(maxBytes - done, pending), SCRATCH);
      match Reply(kernel, calls)
      case Later => Over(Sent(0, Ok, SendBlocked, calls + 1))
      case Failing => Over(Sent(0, Io, SendBroken, calls + 1))
      case Took(n) => if n <= 0 || n > request then Over(Sent(0, Internal, SendBroken, calls + 1)) else Passed(n)
  }

  /** The send loop with `queued` bytes to send, `done` of them passed on already. */
  function Push(kernel: seq<Send>, queued: nat, maxBytes: nat, maxCalls: nat, done: nat, calls: nat): (r: Sent)
    requires done <= maxBytes && calls <= maxCalls && done <= queued
    decreases maxCalls - calls
  {
    match SendOnce(kernel, queued - done, maxBytes, maxCalls, done, calls)
    case Over(r) => r.(count := done)
    case Passed(n) => Push(kernel, queued, maxBytes, maxCalls, done + n, calls + 1)
  }

  /** The bytes the transport took in the `n` calls from `first` on. */
  function TakenBy(kernel: seq<Send>, first: nat, n: nat): (total: int)
    decreases n
  {
    if n == 0 then 0
    else (if Reply(kernel, first).Took? then Reply(kernel, first).count else 0) + TakenBy(kernel, first + 1, n - 1)
  }

  /** The answers that break off a send: an error, or a count that is not positive or beyond what was offered. */
  predicate SendFault(a: Send, budget: int, queued: int, code: Code)
  {
    match a
    case Failing => code == Io
    case Took(n) => code == Internal && (n <= 0 || n > budget || n > queued || n > SCRATCH)
    case Later => false
  }

  lemma {:induction false} PushBounds(kernel: seq<Send>, queued: nat, maxBytes: nat, maxCalls: nat, done: nat, calls: nat)
    requires done <= maxBytes && calls <= maxCalls && done <= queued
    ensures var r := Push(kernel, queued, maxBytes, maxCalls, done, calls);
            && done <= r.count <= queued && r.count <= maxBytes && calls <= r.calls <= maxCalls
            && (r.stop == Emptied ==> r.count == queued)
            && (r.stop == BudgetSpent ==> r.count == maxBytes)
            && (r.stop == CallLimit ==> r.calls == maxCalls)
            && (r.stop == SendBlocked ==> calls < r.calls && Reply(kernel, r.calls - 1) == Later)
            && (r.code == Ok <==> r.stop != SendBroken)
            && (r.code != Ok ==> calls < r.calls && SendFault(Reply(kernel, r.calls - 1), maxBytes - r.count, queued - r.count, r.code))
    decreases maxCalls - calls
  {
    var t := SendOnce(kernel, queued - done, maxBytes, maxCalls, done, calls);
    if t.Passed? {
      PushBounds(kernel, queued, maxBytes, maxCalls, done + t.count, calls + 1);
    }
  }

  /** The count reported is exactly what the transport took. */
  lemma {:induction false} PushCountsEveryByte(kernel: seq<Send>, queued: nat, maxBytes: nat, maxCalls: nat, done: nat, calls: nat)
    requires done <= maxBytes && calls <= maxCalls && done <= queued
    ensures var r := Push(kernel, queued, maxBytes, maxCalls, done, calls);
            calls <= r.calls && (r.code != Internal ==> r.count == done + TakenBy(kernel, calls, r.calls - calls))
    decreases maxCalls - calls
  {
    var t := SendOnce(kernel, queued - done, maxBytes, maxCalls, done, calls);
    if t.Passed? {
      PushCountsEveryByte(kernel, queued, maxBytes, maxCalls, done + t.count, calls + 1);
    } else {
      assert TakenBy(kernel, calls + 1, 0) == 0;
    }
  }

  function DoSend(c: Conn, kernel: seq<Send>, maxBytes: nat, maxCalls: nat): (o: (Sent, Conn))
  {
    if maxBytes == 0 || maxCalls == 0 then (Sent(0, Range, SendBroken, 0), c)
    else if c.state == Ready then (Sent(0, Busy, SendBroken, 0), c)
    else
      PushBounds(kernel, |c.write|, maxBytes, maxCalls, 0, 0);
      var r := Push(kernel, |c.write|, maxBytes, maxCalls, 0, 0);
      (r, c.(write := c.write[r.count..], sent := c.sent + c.write[..r.count]))
  }

  // ---- The loop binding and flow control -----------------------------------------------------

  /** `add`, `mod` and `del` below are what the event loop answers when it is asked. */
  function DoAttach(c: Conn, interests: Interests, add: Code): (o: Outcome)
  {
    if c.state != Open || c.loop.Some? then Outcome(Busy, c)
    else if add != Ok then Outcome(add, c)
    else Outcome(Ok, c.(loop := Some(interests)))
  }

  function DoSetInterests(c: Conn, interests: Interests, mod: Code): (o: Outcome)
  {
    if c.state != Open then Outcome(Busy, c)
    else if c.loop.None? then Outcome(NotFound, c)
    else if c.flow.Some? then Outcome(Busy, c)
    else if mod != Ok then Outcome(mod, c)
    else Outcome(Ok, c.(loop := Some(interests)))
  }

  function DoDetach(c: Conn, del: Code): (o: Outcome)
  {
    if c.loop.None? then Outcome(Ok, c)
    else if del != Ok then Outcome(del, c)
    else Outcome(Ok, c.(loop := None, flow := None))
  }

  /** Hysteresis: pressure comes on at `high` and stays on until the occupancy falls to `low`. */
  function Pressure(occupied: nat, low: nat, high: nat, was: bool): bool
  {
    if was then occupied > low else occupied >= high
  }

  /** Reads are wanted while neither side is under pressure; writes while something is queued. */
  function FlowInterests(eof: bool, queued: bool, readPressure: bool, writePressure: bool): Interests
  {
    var reading := !eof && !readPressure && !writePressure;
    Interests(reading, queued, reading)
  }

  datatype Plan = Plan(flow: Flow, interests: Interests)

  /** The pressures and interests that follow from the two occupancies and the pressures before. */
  function FlowPlan(o: FlowOptions, readable: nat, queued: nat, eof: bool, wasRead: bool, wasWrite: bool): (p: Plan)
    ensures p.flow.options == o
  {
    var rp := Pressure(readable, o.readLow, o.readHigh, wasRead);
    var wp := Pressure(queued, o.writeLow, o.writeHigh, wasWrite);
    Plan(Flow(o, rp, wp), FlowInterests(eof, queued != 0, rp, wp))
  }

  function FlowApply(c: Conn, o: FlowOptions, reset: bool, mod: Code): (r: Outcome)
    requires c.loop.Some?
  {
    var held := !reset && c.flow.Some?;
    var plan := FlowPlan(o, |c.read|, |c.write|, c.eof, held && c.flow.value.readPressure, held && c.flow.value.writePressure);
    if plan.interests != c.loop.value && mod != Ok then Outcome(mod, c)
    else Outcome(Ok, c.(flow := Some(plan.flow), loop := Some(plan.interests)))
  }

  predicate FlowOptionsLegal(c: Conn, o: FlowOptions)
  {
    && HEADER <= o.maxFrame <= c.readCap && o.maxFrame <= PROTOCOL_MAX
    && o.maxFrame - 1 <= o.readLow < o.readHigh <= c.readCap
    && o.writeLow < o.writeHigh <= c.writeCap
  }

  function DoFlowConfigure(c: Conn, o: FlowOptions, mod: Code): (r: Outcome)
  {
    if c.state != Open then Outcome(Busy, c)
    else if c.loop.None? then Outcome(NotFound, c)
    else if !FlowOptionsLegal(c, o) then Outcome(Range, c)
    else FlowApply(c, o, true, mod)
  }

  function DoFlowRefresh(c: Conn, mod: Code): (r: Outcome)
  {
    if c.state != Open then Outcome(Busy, c)
    else if c.loop.None? || c.flow.None? then Outcome(NotFound, c)
    else FlowApply(c, c.flow.value.options, false, mod)
  }

  function DoFlowDisable(c: Conn): (r: Outcome)
  {
    if c.state != Open then Outcome(Busy, c) else Outcome(Ok, c.(flow := None))
  }

  // ---- Closing -------------------------------------------------------------------------------

  /** The state is settled before the loop is asked, so a refusal cannot reopen the connection. */
  function CloseSync(c: Conn, mod: Code): (r: Outcome)
  {
    var draining := c.mode == Drain && c.write != [];
    var next := c.(state := if draining then Draining else Ready);
    var interests := if draining then WRITE_ONLY else NO_INTERESTS;
    if c.loop.None? || interests == c.loop.value then Outcome(Ok, next)
    else if mod != Ok then Outcome(mod, next)
    else Outcome(Ok, next.(loop := Some(interests)))
  }

  function DoRequestClose(c: Conn, mode: CloseMode, reason: nat, mod: Code): (r: Outcome)
  {
    if mode == NoClose || reason < 1 || reason > LAST_REASON then Outcome(InvalidArgument, c)
    else if c.mode == Immediate && mode == Drain then Outcome(Busy, c)
    else
      var first := if c.state == Open then c.(reason := reason) else c;
      CloseSync(first.(mode := mode), mod)
  }

  function DoCloseRefresh(c: Conn, mod: Code): (r: Outcome)
  {
    if c.state == Open then Outcome(NotFound, c) else CloseSync(c, mod)
  }

  // ---- Runs ----------------------------------------------------------------------------------

  datatype Event =
    | Receive(rkernel: seq<Recv>, rbytes: nat, rcalls: nat)
    | PeekFrames(limits: Limits)
    | TakeFrames(count: nat)
    | Enqueue(bytes: seq<byte>)
    | SendSome(skernel: seq<Send>, sbytes: nat, scalls: nat)
    | Attach(interests: Interests, answer: Code)
    | SetInterests(interests: Interests, answer: Code)
    | Detach(answer: Code)
    | FlowConfigure(options: FlowOptions, answer: Code)
    | FlowRefresh(answer: Code)
    | FlowDisable
    | RequestClose(how: CloseMode, why: nat, answer: Code)
    | CloseRefresh(answer: Code)

  /** Taking frames consumes the bytes of the first `k` frames the latest peek offered. */
  function TakeOffered(c: Conn, k: nat): (d: Conn)
  {
    if k > |c.offered| then c
    else
      var o := DoConsume(c, Total(c.offered[..k]));
      if o.code != Ok then c
      else o.conn.(taken := c.taken + c.offered[..k], offered := c.offered[k..])
  }

  function Step(codec: Codec, c: Conn, e: Event): (d: Conn)
  {
    match e
    case Receive(kernel, bytes, calls) => DoReceive(c, kernel, bytes, calls).1
    case PeekFrames(l) =>
      var r := DoPeek(codec, c, l);
      if r.code == Range then c else c.(offered := r.peeked.frames)
    case TakeFrames(k) => TakeOffered(c, k)
    case Enqueue(bytes) => DoEnqueue(c, bytes).conn
    case SendSome(kernel, bytes, calls) => DoSend(c, kernel, bytes, calls).1
    case Attach(i, a) => DoAttach(c, i, a).conn
    case SetInterests(i, a) => DoSetInterests(c, i, a).conn
    case Detach(a) => DoDetach(c, a).conn
    case FlowConfigure(o, a) => DoFlowConfigure(c, o, a).conn
    case FlowRefresh(a) => DoFlowRefresh(c, a).conn
    case FlowDisable => DoFlowDisable(c).conn
    case RequestClose(m, w, a) => DoRequestClose(c, m, w, a).conn
    case CloseRefresh(a) => DoCloseRefresh(c, a).conn
  }

  ghost predicate Initial(c: Conn)
  {
    && 0 < c.readCap && 0 < c.writeCap
    && c.read == [] && c.write == [] && !c.eof && c.loop.None? && c.flow.None?
    && c.state == Open && c.mode == NoClose && c.reason == NO_REASON
    && c.received == [] && c.consumed == [] && c.offered == [] && c.taken == [] && c.accepted == [] && c.sent == []
  }

  /** What holds between any two operations. */
  ghost predicate Inv(c: Conn)
  {
    && |c.read| <= c.readCap && |c.write| <= c.writeCap
    && c.received == c.consumed + c.read
    && c.accepted == c.sent + c.write
    && (c.flow.Some? ==> c.loop.Some? && FlowOptionsLegal(c, c.flow.value.options))
    && (c.state == Open <==> c.mode == NoClose)
    && (c.state == Open <==> c.reason == NO_REASON)
    && (c.state == Draining ==> c.mode == Drain)
    && (c.state == Ready && c.mode == Drain ==> c.write == [])
  }

  lemma InitialInv(c: Conn)
    requires Initial(c)
    ensures Inv(c)
  {
  }

  lemma ReceiveInv(c: Conn, kernel: seq<Recv>, maxBytes: nat, maxCalls: nat)
    requires Inv(c)
    ensures Inv(DoReceive(c, kernel, maxBytes, maxCalls).1)
  {
    if maxBytes != 0 && maxCalls != 0 && c.state == Open && !c.eof {
      AbsorbBounds(kernel, Tail(c), maxBytes, maxCalls, [], 0);
      var r := Absorb(kernel, Tail(c), maxBytes, maxCalls, [], 0);
      assert (c.consumed + c.read) + r.bytes == c.consumed + (c.read + r.bytes);
    }
  }

  lemma ConsumeInv(c: Conn, size: nat)
    requires Inv(c)
    ensures Inv(DoConsume(c, size).conn)
  {
    if size <= |c.read| {
      assert c.consumed + c.read == (c.consumed + c.read[..size]) + c.read[size..];
    }
  }

  lemma EnqueueInv(c: Conn, bytes: seq<byte>)
    requires Inv(c)
    ensures Inv(DoEnqueue(c, bytes).conn)
  {
    assert (c.sent + c.write) + bytes == c.sent + (c.write + bytes);
  }

  lemma SendInv(c: Conn, kernel: seq<Send>, maxBytes: nat, maxCalls: nat)
    requires Inv(c)
    ensures Inv(DoSend(c, kernel, maxBytes, maxCalls).1)
  {
    if maxBytes != 0 && maxCalls != 0 && c.state != Ready {
      PushBounds(kernel, |c.write|, maxBytes, maxCalls, 0, 0);
      var n := Push(kernel, |c.write|, maxBytes, maxCalls, 0, 0).count;
      assert c.sent + c.write == (c.sent + c.write[..n]) + c.write[n..];
    }
  }

  lemma BindingInv(c: Conn, interests: Interests, answer: Code)
    requires Inv(c)
    ensures Inv(DoAttach(c, interests, answer).conn) && Inv(DoSetInterests(c, interests, answer).conn)
  {
  }

  lemma UnbindingInv(c: Conn, answer: Code)
    requires Inv(c)
    ensures Inv(DoDetach(c, answer).conn) && Inv(DoFlowDisable(c).conn)
  {
  }

  lemma FlowInv(c: Conn, o: FlowOptions, reset: bool, answer: Code)
    requires Inv(c) && c.loop.Some? && FlowOptionsLegal(c, o)
    ensures Inv(FlowApply(c, o, reset, answer).conn)
  {
  }

  /** Settling a close touches the state and the registered interests, nothing else. */
  lemma SyncSettles(c: Conn, mod: Code)
    ensures var d := CloseSync(c, mod).conn;
            && d == c.(state := if c.mode == Drain && c.write != [] then Draining else Ready, loop := d.loop)
            && (d.loop.Some? <==> c.loop.Some?)
  {
  }

  lemma CloseInv(c: Conn, mode: CloseMode, reason: nat, mod: Code)
    requires Inv(c)
    ensures Inv(DoRequestClose(c, mode, reason, mod).conn)
    ensures Inv(DoCloseRefresh(c, mod).conn)
  {
    hide CloseSync;
    SyncSettles(c, mod);
    SyncSettles((if c.state == Open then c.(reason := reason) else c).(mode := mode), mod);
  }

  /** Every operation keeps the invariant. */
  lemma StepInv(codec: Codec, c: Conn, e: Event)
    requires Inv(c)
    ensures Inv(Step(codec, c, e))
  {
    hide DoReceive, DoConsume, DoEnqueue, DoSend, DoAttach, DoSetInterests, DoDetach, FlowApply, DoFlowDisable, DoRequestClose, DoCloseRefresh, Peek;
    match e
    case Receive(kernel, bytes, calls) => ReceiveInv(c, kernel, bytes, calls);
    case TakeFrames(k) => if k <= |c.offered| { ConsumeInv(c, Total(c.offered[..k])); }
    case Enqueue(bytes) => EnqueueInv(c, bytes);
    case SendSome(kernel, bytes, calls) => SendInv(c, kernel, bytes, calls);
    case PeekFrames(l) =>
    case Attach(i, a) => BindingInv(c, i, a);
    case SetInterests(i, a) => BindingInv(c, i, a);
    case Detach(a) => UnbindingInv(c, a);
    case FlowDisable => UnbindingInv(c, Ok);
    case FlowConfigure(o, a) => if c.loop.Some? && FlowOptionsLegal(c, o) { FlowInv(c, o, true, a); }
    case FlowRefresh(a) => if c.flow.Some? { FlowInv(c, c.flow.value.options, false, a); }
    case RequestClose(m, w, a) => CloseInv(c, m, w, a);
    case CloseRefresh(a) => CloseInv(c, Drain, 1, a);
  }

  /** The state after a list of operations, in order. */
  function Run(codec: Codec, c: Conn, events: seq<Event>): (d: Conn)
    decreases |events|
  {
    if events == [] then c else Run(codec, Step(codec, c, events[0]), events[1..])
  }

  lemma {:induction false} RunInv(codec: Codec, c: Conn, events: seq<Event>)
    requires Inv(c)
    ensures Inv(Run(codec, c, events))
    decreases |events|
  {
    hide Inv, Step;
    if events != [] {
      StepInv(codec, c, events[0]);
      RunInv(codec, Step(codec, c, events[0]), events[1..]);
    }
  }

  // ---- Whole-run results: the write side and closing -----------------------------------------

  /** What no operation can undo. */
  ghost predicate Advances(c: Conn, d: Conn)
  {
    && c.received <= d.received && c.accepted <= d.accepted && c.sent <= d.sent
    && (c.eof ==> d.eof && d.received == c.received)
    && (c.state != Open ==> d.state != Open && d.reason == c.reason && d.accepted == c.accepted && d.received == c.received)
    && (c.state == Ready ==> d.state == Ready && d.write == c.write && d.sent == c.sent)
    && (c.mode == Immediate ==> d.mode == Immediate)
  }

  lemma CloseAdvances(c: Conn, mode: CloseMode, reason: nat, mod: Code)
    requires Inv(c)
    ensures Advances(c, DoRequestClose(c, mode, reason, mod).conn)
    ensures Advances(c, DoCloseRefresh(c, mod).conn)
  {
    hide CloseSync;
    SyncSettles(c, mod);
    SyncSettles((if c.state == Open then c.(reason := reason) else c).(mode := mode), mod);
  }

  lemma TransferAdvances(c: Conn, rk: seq<Recv>, sk: seq<Send>, maxBytes: nat, maxCalls: nat, k: nat)
    requires Inv(c)
    ensures Advances(c, DoReceive(c, rk, maxBytes, maxCalls).1)
    ensures Advances(c, DoSend(c, sk, maxBytes, maxCalls).1)
    ensures Advances(c, TakeOffered(c, k))
  {
    hide Absorb, Push;
  }

  lemma StepAdvances(codec: Codec, c: Conn, e: Event)
    requires Inv(c)
    ensures Advances(c, Step(codec, c, e))
  {
    hide DoReceive, DoSend, TakeOffered, Peek, FlowPlan, DoRequestClose, DoCloseRefresh;
    match e
    case Receive(kernel, bytes, calls) => TransferAdvances(c, kernel, [], bytes, calls, 0);
    case SendSome(kernel, bytes, calls) => TransferAdvances(c, [], kernel, bytes, calls, 0);
    case TakeFrames(k) => TransferAdvances(c, [], [], 0, 0, k);
    case RequestClose(m, w, a) => CloseAdvances(c, m, w, a);
    case CloseRefresh(a) => CloseAdvances(c, Drain, 1, a);
    case _ =>
  }

  /**
    Over any run: the stream only grows, end of input is final, the first close reason is permanent,
    Immediate is never downgraded, and Ready absorbs.
   */
  lemma {:induction false} RunAdvances(codec: Codec, c: Conn, events: seq<Event>)
    requires Inv(c)
    ensures Advances(c, Run(codec, c, events))
    decreases |events|
  {
    if events != [] {
      StepInv(codec, c, events[0]);
      StepAdvances(codec, c, events[0]);
      RunAdvances(codec, Step(codec, c, events[0]), events[1..]);
    }
  }

  /** The transport has exactly the accepted bytes that are no longer queued; a finished drain has sent them all. */
  lemma LosslessDrain(codec: Codec, start: Conn, events: seq<Event>)
    requires Initial(start)
    ensures var c := Run(codec, start, events);
            && c.accepted == c.sent + c.write
            && (c.state == Ready && c.mode == Drain ==> c.sent == c.accepted)
  {
    hide Step;
    RunInv(codec, start, events);
  }

  // ---- Whole-run results: framing ------------------------------------------------------------

  /** The frames taken and on offer are the leading frames of everything received, parsed at once. */
  ghost predicate Framed(codec: Codec, c: Conn)
  {
    && |c.consumed| == Total(c.taken)
    && c.taken + c.offered <= Parse(codec, PROTOCOL_MAX, c.received).frames
  }

  lemma PrefixTake(a: seq<seq<byte>>, b: seq<seq<byte>>, k: nat)
    requires k <= |a|
    ensures (b + a[..k]) + a[k..] == b + a
  {
  }

  lemma PrefixOf(a: seq<seq<byte>>, b: seq<seq<byte>>, whole: seq<seq<byte>>)
    requires a <= whole && b <= whole[|a|..]
    ensures a + b <= whole
  {
  }

  /** The unread bytes parse to what is left of the one-shot parse after the taken frames. */
  lemma UnreadParse(codec: Codec, c: Conn)
    requires Inv(c) && Framed(codec, c)
    ensures var p := Parse(codec, PROTOCOL_MAX, c.received);
            c.taken <= p.frames && Parse(codec, PROTOCOL_MAX, c.read) == Parsed(p.frames[|c.taken|..], p.rest, p.issue)
  {
    hide Parse;
    var p := Parse(codec, PROTOCOL_MAX, c.received);
    assert p.frames[..|c.taken|] == c.taken;
    ParseAfter(codec, PROTOCOL_MAX, c.received, |c.taken|);
    assert c.received[|c.consumed|..] == c.read;
  }

  lemma PeekFramed(codec: Codec, c: Conn, l: Limits)
    requires Inv(c) && Framed(codec, c) && LimitsLegal(c, l)
    ensures c.taken + DoPeek(codec, c, l).peeked.frames <= Parse(codec, PROTOCOL_MAX, c.received).frames
  {
    hide Parse, Peek;
    UnreadParse(codec, c);
    PeekAgreesWithParse(codec, l, c.eof, c.read, 0, 0);
    ParseLimit(codec, l.max, PROTOCOL_MAX, c.read);
    PrefixOf(c.taken, DoPeek(codec, c, l).peeked.frames, Parse(codec, PROTOCOL_MAX, c.received).frames);
  }

  lemma TakeFramed(codec: Codec, c: Conn, k: nat)
    requires Inv(c) && Framed(codec, c)
    ensures Framed(codec, TakeOffered(c, k))
  {
    hide Parse;
    if k <= |c.offered| && Total(c.offered[..k]) <= |c.read| {
      TotalConcat(c.taken, c.offered[..k]);
      PrefixTake(c.offered, c.taken, k);
    }
  }

  lemma ReceiveFramed(codec: Codec, c: Conn, kernel: seq<Recv>, maxBytes: nat, maxCalls: nat)
    requires Inv(c) && Framed(codec, c)
    ensures Framed(codec, DoReceive(c, kernel, maxBytes, maxCalls).1)
  {
    hide Parse, Absorb;
    if maxBytes != 0 && maxCalls != 0 && c.state == Open && !c.eof {
      ParseExtends(codec, PROTOCOL_MAX, c.received, Absorb(kernel, Tail(c), maxBytes, maxCalls, [], 0).bytes);
    }
  }

  lemma StepFramed(codec: Codec, c: Conn, e: Event)
    requires Inv(c) && Framed(codec, c)
    ensures Framed(codec, Step(codec, c, e))
  {
    hide Parse, DoReceive, DoSend, Peek, TakeOffered, FlowPlan, CloseSync;
    match e
    case Receive(kernel, bytes, calls) => ReceiveFramed(codec, c, kernel, bytes, calls);
    case PeekFrames(l) => if LimitsLegal(c, l) { PeekFramed(codec, c, l); }
    case TakeFrames(k) => TakeFramed(codec, c, k);
    case SendSome(kernel, bytes, calls) => TransferKeepsInput(c, kernel, bytes, calls);
    case RequestClose(m, w, a) => CloseKeepsInput(c, m, w, a);
    case CloseRefresh(a) => CloseKeepsInput(c, Drain, 1, a);
    case _ =>
  }

  /** Nothing on the write side or in a close touches the input. */
  ghost predicate SameInput(c: Conn, d: Conn)
  {
    c.received == d.received && c.consumed == d.consumed && c.taken == d.taken && c.offered == d.offered
  }

  lemma TransferKeepsInput(c: Conn, kernel: seq<Send>, maxBytes: nat, maxCalls: nat)
    ensures SameInput(c, DoSend(c, kernel, maxBytes, maxCalls).1)
  {
    hide Push;
  }

  lemma CloseKeepsInput(c: Conn, mode: CloseMode, reason: nat, mod: Code)
    ensures SameInput(c, DoRequestClose(c, mode, reason, mod).conn) && SameInput(c, DoCloseRefresh(c, mod).conn)
  {
    hide CloseSync;
    SyncSettles(c, mod);
    SyncSettles((if c.state == Open then c.(reason := reason) else c).(mode := mode), mod);
  }

  /**
    Framing does not depend on chunking: however a stream was cut into receives and interleaved with
    peeks, takes and every other operation, what was delivered is a prefix of the one-shot parse.
   */
  lemma {:induction false} RunFramed(codec: Codec, c: Conn, events: seq<Event>)
    requires Inv(c) && Framed(codec, c)
    ensures Framed(codec, Run(codec, c, events))
    decreases |events|
  {
    hide Framed, Step;
    if events != [] {
      StepInv(codec, c, events[0]);
      StepFramed(codec, c, events[0]);
      RunFramed(codec, Step(codec, c, events[0]), events[1..]);
    }
  }

  /** From a new connection on, for every stream and every interleaving. */
  lemma FramingIgnoresChunking(codec: Codec, start: Conn, events: seq<Event>)
    requires Initial(start)
    ensures Framed(codec, Run(codec, start, events))
  {
    hide Step;
    assert start.taken + start.offered == [];
    RunFramed(codec, start, events);
  }

  /** The stream position of the fault a peek reports, and the reference parse's view of it. */
  ghost predicate FaultExplained(codec: Codec, c: Conn, l: Limits, r: Peeked)
    requires r.issue.Some?
  {
    var p := Parse(codec, PROTOCOL_MAX, c.received);
    var at := |c.consumed| + Total(r.frames);
    match r.issue.value
    case CodecFault(_) => p.issue == r.issue && p.frames == c.taken + r.frames && at == Total(p.frames)
    case TooLarge => at <= |c.received| && HeaderOver(codec, c.received[at..], l.max)
    case Truncated => c.eof && p.issue.None? && p.rest != [] && p.frames == c.taken + r.frames && at == Total(p.frames)
  }

  /** A peek faults only where, and for the reason that, the one-shot parse of the whole stream says so. */
  lemma PeekFaultExplained(codec: Codec, c: Conn, l: Limits)
    requires Inv(c) && Framed(codec, c) && DoPeek(codec, c, l).code == Protocol
    ensures DoPeek(codec, c, l).peeked.issue.Some? && FaultExplained(codec, c, l, DoPeek(codec, c, l).peeked)
  {
    hide Parse, Peek;
    var r := DoPeek(codec, c, l).peeked;
    UnreadParse(codec, c);
    PeekAgreesWithParse(codec, l, c.eof, c.read, 0, 0);
    ParseLimit(codec, l.max, PROTOCOL_MAX, c.read);
    TotalConcat(c.taken, r.frames);
    var p := Parse(codec, PROTOCOL_MAX, c.received);
    assert c.taken + p.frames[|c.taken|..] == p.frames;
    if r.issue == Some(TooLarge) {
      OversizeHeader(codec, c, l, r);
    }
  }

  lemma OversizeHeader(codec: Codec, c: Conn, l: Limits, r: Peeked)
    requires Inv(c) && r.issue == Some(TooLarge)
    requires Settled(r, Parse(codec, l.max, c.read), c.eof) && HeaderOver(codec, Parse(codec, l.max, c.read).rest, l.max)
    ensures |c.consumed| + Total(r.frames) <= |c.received|
    ensures HeaderOver(codec, c.received[|c.consumed| + Total(r.frames)..], l.max)
  {
    hide Parse;
    var p := Parse(codec, l.max, c.read);
    ParseReassembles(codec, l.max, c.read);
    assert c.received[|c.consumed| + Total(r.frames)..] == p.rest;
  }

  /**
    Two runs that received prefixes of one stream, cut up and interleaved in any two ways, report a
    codec fault at the same stream position with the same diagnosis.
   */
  lemma SameCodecFaultHoweverSplit(codec: Codec, a: Conn, b: Conn, la: Limits, lb: Limits, stream: seq<byte>)
    requires Inv(a) && Framed(codec, a) && Inv(b) && Framed(codec, b)
    requires a.received <= stream && b.received <= stream
    requires DoPeek(codec, a, la).code == Protocol && DoPeek(codec, a, la).peeked.issue.Some? && DoPeek(codec, a, la).peeked.issue.value.CodecFault?
    requires DoPeek(codec, b, lb).code == Protocol && DoPeek(codec, b, lb).peeked.issue.Some? && DoPeek(codec, b, lb).peeked.issue.value.CodecFault?
    ensures DoPeek(codec, a, la).peeked.issue == DoPeek(codec, b, lb).peeked.issue
    ensures |a.consumed| + Total(DoPeek(codec, a, la).peeked.frames) == |b.consumed| + Total(DoPeek(codec, b, lb).peeked.frames)
  {
    hide Parse, Peek;
    PeekFaultExplained(codec, a, la);
    PeekFaultExplained(codec, b, lb);
    ParseExtends(codec, PROTOCOL_MAX, a.received, stream[|a.received|..]);
    ParseExtends(codec, PROTOCOL_MAX, b.received, stream[|b.received|..]);
    assert a.received + stream[|a.received|..] == stream == b.received + stream[|b.received|..];
  }

  ghost predicate TakenWithin(c: Conn, max: nat)
  {
    forall i :: 0 <= i < |c.taken| ==> |c.taken[i]| <= max
  }

  /** Under the limit of the peek, the whole stream parses to the frames taken and reported, and then to the fault. */
  lemma FaultAtLimit(codec: Codec, c: Conn, l: Limits)
    requires Inv(c) && Framed(codec, c) && TakenWithin(c, l.max) && DoPeek(codec, c, l).code == Protocol
    ensures var p, r := Parse(codec, l.max, c.received), DoPeek(codec, c, l).peeked;
            && p.frames == c.taken + r.frames && |c.consumed| + Total(r.frames) == Total(p.frames)
            && r.issue.Some?
            && (if r.issue == Some(Truncated) then c.eof && p.issue.None? else p.issue == r.issue)
  {
    hide Parse, Peek;
    var k := |c.taken|;
    var whole := Parse(codec, PROTOCOL_MAX, c.received).frames;
    assert c.taken == whole[..k];
    WithinLimit(codec, l.max, PROTOCOL_MAX, c.received, k);
    var p := Parse(codec, l.max, c.received);
    ParseAfter(codec, l.max, c.received, k);
    assert c.received[|c.consumed|..] == c.read;
    PeekAgreesWithParse(codec, l, c.eof, c.read, 0, 0);
    TotalConcat(c.taken, p.frames[k..]);
    assert p.frames == p.frames[..k] + p.frames[k..];
  }

  /**
    Two runs over one stream, cut up and interleaved in any two ways but held to one frame limit,
    fault at the same stream position for the same reason: oversize, codec or truncation alike.
   */
  lemma SameFaultHoweverSplit(codec: Codec, a: Conn, b: Conn, la: Limits, lb: Limits, stream: seq<byte>)
    requires Inv(a) && Framed(codec, a) && Inv(b) && Framed(codec, b) && la.max == lb.max && TakenWithin(a, la.max) && TakenWithin(b, la.max)
    requires a.received <= stream && b.received <= stream && (a.eof ==> a.received == stream) && (b.eof ==> b.received == stream)
    requires DoPeek(codec, a, la).code == Protocol && DoPeek(codec, b, lb).code == Protocol
    ensures DoPeek(codec, a, la).peeked.issue == DoPeek(codec, b, lb).peeked.issue
    ensures |a.consumed| + Total(DoPeek(codec, a, la).peeked.frames) == |b.consumed| + Total(DoPeek(codec, b, lb).peeked.frames)
  {
    hide Parse, Peek, Framed, TakenWithin;
    FaultAtLimit(codec, a, la);
    FaultAtLimit(codec, b, lb);
    ParseExtends(codec, la.max, a.received, stream[|a.received|..]);
    ParseExtends(codec, la.max, b.received, stream[|b.received|..]);
    assert a.received + stream[|a.received|..] == stream == b.received + stream[|b.received|..];
  }

  /** What is on offer is buffered, so taking it succeeds; and the bytes consumed are the taken frames, end to end. */
  lemma TakenAreConsumed(codec: Codec, c: Conn, k: nat)
    requires Inv(c) && Framed(codec, c) && k <= |c.offered|
    ensures TakeOffered(c, k).taken == c.taken + c.offered[..k]
    ensures c.consumed == Flatten(c.taken)
  {
    hide Parse;
    var p := Parse(codec, PROTOCOL_MAX, c.received);
    ParseReassembles(codec, PROTOCOL_MAX, c.received);
    FlattenPrefix(c.taken, p.frames);
    assert c.received[..|c.consumed|] == c.consumed;
    PrefixTake(c.offered, c.taken, k);
    assert c.taken + c.offered[..k] <= c.taken + c.offered;
    FlattenPrefix(c.taken + c.offered[..k], p.frames);
    TotalConcat(c.taken, c.offered[..k]);
  }

  lemma {:induction false} FlattenPrefix(a: seq<seq<byte>>, b: seq<seq<byte>>)
    requires a <= b
    ensures Flatten(a) <= Flatten(b)
  {
    if a != [] {
      FlattenPrefix(a[1..], b[1..]);
    }
  }

  // ---- Flow control ---------------------------------------------------------------------------

  /**
    After a successful configure or refresh, read pressure means a legal peek has something to report:
    reading is never switched off while half a frame is all there is.
   */
  lemma NoStallOnHalfFrame(codec: Codec, before: Conn, o: FlowOptions, reset: bool, mod: Code, l: Limits)
    requires Inv(before) && before.loop.Some? && FlowOptionsLegal(before, o) && FlowApply(before, o, reset, mod).code == Ok
    requires var c := FlowApply(before, o, reset, mod).conn; c.flow.value.readPressure && LimitsLegal(c, l)
    ensures var r := DoPeek(codec, FlowApply(before, o, reset, mod).conn, l);
            r.peeked.frames != [] || r.code == Protocol
  {
    hide Peek;
    var c := FlowApply(before, o, reset, mod).conn;
    PeekProgress(codec, l, c.eof, c.read);
  }

  /**
    No wakeup is lost: with no interest registered nothing waits to be sent, and either the peer has
    finished or there is a frame (or a fault) to handle right now.
   */
  lemma IdleOnlyWhenDone(codec: Codec, before: Conn, o: FlowOptions, reset: bool, mod: Code, l: Limits)
    requires Inv(before) && before.loop.Some? && FlowOptionsLegal(before, o) && FlowApply(before, o, reset, mod).code == Ok
    requires var c := FlowApply(before, o, reset, mod).conn; c.loop == Some(NO_INTERESTS) && LimitsLegal(c, l)
    ensures var c := FlowApply(before, o, reset, mod).conn;
            && c.write == []
            && (c.eof || c.flow.value.readPressure)
            && (!c.eof ==> DoPeek(codec, c, l).peeked.frames != [] || DoPeek(codec, c, l).code == Protocol)
  {
    hide Peek;
    var c := FlowApply(before, o, reset, mod).conn;
    if !c.eof {
      NoStallOnHalfFrame(codec, before, o, reset, mod, l);
    }
  }

  // ---- What each operation achieves ----------------------------------------------------------

  /** A receive is refused for these reasons only; otherwise it takes over what the calls brought, and ends as they ended. */
  lemma ReceiveExact(c: Conn, kernel: seq<Recv>, maxBytes: nat, maxCalls: nat)
    requires Inv(c)
    ensures var (r, d) := DoReceive(c, kernel, maxBytes, maxCalls);
            && (r.code == Range <==> maxBytes == 0 || maxCalls == 0)
            && (r.code == Busy <==> maxBytes != 0 && maxCalls != 0 && c.state != Open)
            && (r.code in {Range, Busy} ==> d == c)
            && (r.code !in {Range, Busy} && c.eof ==> d == c && r == Received([], false, Ok, PeerDone, 0))
            && (r.code !in {Range, Busy} && !c.eof ==>
                  && d == c.(read := c.read + r.bytes, received := c.received + r.bytes, eof := r.eof)
                  && (r.code != Internal ==> r.bytes == HandedOver(kernel, 0, r.calls))
                  && (r.stop == BytesSpent ==> |r.bytes| == maxBytes) && (r.stop == BufferFull ==> |d.read| == c.readCap) && (r.stop == CallsSpent ==> r.calls == maxCalls)
                  && (r.stop !in {BytesSpent, BufferFull, CallsSpent} ==> 0 < r.calls))
  {
    hide Absorb;
    AbsorbBounds(kernel, Tail(c), maxBytes, maxCalls, [], 0);
    AbsorbKeepsEveryByte(kernel, Tail(c), maxBytes, maxCalls, [], 0);
  }

  /** Bytes are accepted exactly while the connection is open and they fit; a refusal changes nothing. */
  lemma EnqueueExact(c: Conn, bytes: seq<byte>)
    ensures var o := DoEnqueue(c, bytes);
            && (o.code == Ok <==> c.state == Open && |c.write| + |bytes| <= c.writeCap && |c.write| + |bytes| <= SIZE_MAX)
            && o.conn == (if o.code == Ok then c.(write := c.write + bytes, accepted := c.accepted + bytes) else c)
            && (c.state == Open && |c.write| + |bytes| <= SIZE_MAX && o.code != Ok ==> o.code == if |bytes| > c.writeCap then Range else Busy)
  {
  }

  /** A connection sends until it is ready to be destroyed, drained or not: what the transport took leaves the queue. */
  lemma SendExact(c: Conn, kernel: seq<Send>, maxBytes: nat, maxCalls: nat)
    requires Inv(c) && c.state != Ready && maxBytes != 0 && maxCalls != 0
    ensures var (r, d) := DoSend(c, kernel, maxBytes, maxCalls);
            && r.code in {Ok, Io, Internal} && r.count <= |c.write|
            && d == c.(write := c.write[r.count..], sent := c.sent + c.write[..r.count])
            && (r.code != Internal ==> r.count == TakenBy(kernel, 0, r.calls))
            && (r.stop == Emptied ==> d.write == [] && r.code == Ok)
            && (r.stop == BudgetSpent ==> r.count == maxBytes) && (r.stop == CallLimit ==> r.calls == maxCalls)
            && (r.stop !in {Emptied, BudgetSpent, CallLimit} ==> 0 < r.calls)
  {
    hide Push;
    PushBounds(kernel, |c.write|, maxBytes, maxCalls, 0, 0);
    PushCountsEveryByte(kernel, |c.write|, maxBytes, maxCalls, 0, 0);
  }

  /** A transport that takes all it is offered, call by call. */
  function FullTakes(n: nat): (k: seq<Send>)
    decreases n
  {
    if n == 0 then [] else [Took(Min(n, SCRATCH))] + FullTakes(n - Min(n, SCRATCH))
  }

  lemma {:induction false} PushTakesAll(kernel: seq<Send>, queued: nat, maxBytes: nat, maxCalls: nat, done: nat, calls: nat)
    requires done <= queued <= maxBytes && calls <= |kernel| <= maxCalls && kernel[calls..] == FullTakes(queued - done)
    ensures var r := Push(kernel, queued, maxBytes, maxCalls, done, calls); r.count == queued && r.code == Ok && r.stop == Emptied
    decreases queued - done
  {
    if done < queued {
      var n := Min(queued - done, SCRATCH);
      assert kernel[calls..][0] == kernel[calls] == Took(n);
      assert kernel[calls + 1..] == kernel[calls..][1..] == FullTakes(queued - (done + n));
      PushTakesAll(kernel, queued, maxBytes, maxCalls, done + n, calls + 1);
    }
  }

  /** A drain finishes: once the transport takes what is queued, one send and one refresh make the connection ready with every accepted byte sent. */
  lemma DrainFinishes(c: Conn, maxBytes: nat, maxCalls: nat, mod: Code)
    requires Inv(c) && c.state == Draining && |c.write| <= maxBytes && |FullTakes(|c.write|)| <= maxCalls && maxBytes != 0 && maxCalls != 0
    ensures var (r, d) := DoSend(c, FullTakes(|c.write|), maxBytes, maxCalls);
            var e := DoCloseRefresh(d, mod).conn;
            r.code == Ok && e.state == Ready && e.sent == e.accepted == c.accepted && e.write == []
  {
    hide Push;
    var kernel := FullTakes(|c.write|);
    assert kernel[0..] == kernel;
    PushTakesAll(kernel, |c.write|, maxBytes, maxCalls, 0, 0);
    assert c.sent + c.write[..|c.write|] == c.sent + c.write;
  }

  /** A legal close request always takes effect: mode, first reason and state, whatever the event loop says. */
  lemma CloseExact(c: Conn, mode: CloseMode, reason: nat, mod: Code)
    requires Inv(c)
    ensures var o := DoRequestClose(c, mode, reason, mod);
            && (mode == NoClose || reason < 1 || reason > 6 ==> o == Outcome(InvalidArgument, c))
            && (mode == Drain && 1 <= reason <= 6 && c.mode == Immediate ==> o == Outcome(Busy, c))
            && (mode != NoClose && 1 <= reason <= 6 && !(mode == Drain && c.mode == Immediate) ==>
                  && Closing(c, o.conn, mode, if c.state == Open then reason else c.reason)
                  && (o.code == Ok ==> LoopFollows(o.conn)) && (o.code != Ok ==> o.code == mod && o.conn.loop == c.loop))
  {
    hide CloseSync, LoopFollows;
    SyncExact((if c.state == Open then c.(reason := reason) else c).(mode := mode), mod);
  }

  /** A refresh moves a closing connection on exactly as far as its queue allows. */
  lemma CloseRefreshExact(c: Conn, mod: Code)
    requires Inv(c)
    ensures c.state == Open ==> DoCloseRefresh(c, mod) == Outcome(NotFound, c)
    ensures c.state != Open ==>
              var o := DoCloseRefresh(c, mod);
              Closing(c, o.conn, c.mode, c.reason) && (o.code == Ok ==> LoopFollows(o.conn)) && (o.code != Ok ==> o.code == mod && o.conn.loop == c.loop)
  {
    hide CloseSync, LoopFollows;
    SyncExact(c, mod);
  }

  lemma SyncExact(c: Conn, mod: Code)
    ensures var o := CloseSync(c, mod);
            && o.conn == c.(state := if c.mode == Drain && c.write != [] then Draining else Ready, loop := o.conn.loop)
            && (c.loop.None? ==> o.conn.loop.None?) && (mod == Ok ==> o.code == Ok && LoopFollows(o.conn))
            && (mod != Ok ==> o.conn.loop == c.loop && (o.code == mod || (o.code == Ok && LoopFollows(o.conn))))
  {
  }

  /** Closing in `mode`: draining exactly while something is queued under Drain, and nothing lost. */
  predicate Closing(c: Conn, d: Conn, mode: CloseMode, reason: nat)
  {
    && d == c.(mode := mode, reason := reason, state := if mode == Drain && c.write != [] then Draining else Ready, loop := d.loop)
    && (c.loop.None? ==> d.loop.None?)
  }

  /** A draining connection waits to write, a ready one for nothing. */
  predicate LoopFollows(d: Conn)
  {
    d.loop.Some? ==> d.loop.value == Interests(false, d.state == Draining, false)
  }

  /** Hysteresis: on at the high mark, off at the low mark, unchanged in between. */
  lemma PressureExact(occupied: nat, low: nat, high: nat, was: bool)
    requires low < high
    ensures occupied >= high ==> Pressure(occupied, low, high, was)
    ensures occupied <= low ==> !Pressure(occupied, low, high, was)
    ensures low < occupied < high ==> Pressure(occupied, low, high, was) == was
  {
  }

  /** Flow control publishes both pressures and exactly the interests they leave, or nothing. */
  lemma FlowExact(c: Conn, o: FlowOptions, reset: bool, mod: Code)
    requires c.loop.Some?
    ensures var r := FlowApply(c, o, reset, mod);
            && (mod == Ok ==> r.code == Ok) && (r.code != Ok ==> r.code == mod && r.conn == c)
            && (r.code == Ok ==>
                  && r.conn == c.(flow := r.conn.flow, loop := r.conn.loop) && r.conn.flow.Some? && r.conn.loop.Some?
                  && r.conn.flow.value.options == o
                  && r.conn.flow.value.readPressure == Pressure(|c.read|, o.readLow, o.readHigh, !reset && c.flow.Some? && c.flow.value.readPressure)
                  && r.conn.flow.value.writePressure == Pressure(|c.write|, o.writeLow, o.writeHigh, !reset && c.flow.Some? && c.flow.value.writePressure)
                  && (r.conn.loop.value.read <==> !c.eof && !r.conn.flow.value.readPressure && !r.conn.flow.value.writePressure)
                  && r.conn.loop.value.peerWriteClosed == r.conn.loop.value.read
                  && (r.conn.loop.value.write <==> c.write != []))
  {
  }

  /** Options are accepted exactly when the frame limit and both pairs of marks fit the buffers. */
  lemma ConfigureExact(c: Conn, o: FlowOptions, mod: Code)
    ensures DoFlowConfigure(c, o, Ok).code == Ok <==>
              && c.state == Open && c.loop.Some? && 32 <= o.maxFrame <= c.readCap && o.maxFrame <= 32 + 16_777_216
              && o.maxFrame - 1 <= o.readLow < o.readHigh <= c.readCap && o.writeLow < o.writeHigh <= c.writeCap
    ensures DoFlowRefresh(c, Ok).code == Ok <==> c.state == Open && c.loop.Some? && c.flow.Some?
    ensures DoFlowConfigure(c, o, mod).code == Ok ==> DoFlowConfigure(c, o, mod).conn == FlowApply(c, o, true, mod).conn
    ensures DoFlowRefresh(c, mod).code == Ok ==> DoFlowRefresh(c, mod).conn == FlowApply(c, c.flow.value.options, false, mod).conn
    ensures DoFlowConfigure(c, o, mod).code != Ok ==> DoFlowConfigure(c, o, mod).conn == c
    ensures DoFlowRefresh(c, mod).code != Ok ==> DoFlowRefresh(c, mod).conn == c
  {
    hide FlowPlan;
  }

  /** A peek is refused exactly for limits that do not fit the connection; otherwise it reports what the reference parse finds. */
  lemma PeekExact(codec: Codec, c: Conn, l: Limits)
    ensures var r := DoPeek(codec, c, l);
            && (r.code == Range <==>
                  !(l.views != 0 && l.messages != 0 && l.bytes != 0 && 32 <= l.max <= c.readCap && l.max <= 32 + 16_777_216 && l.max <= l.bytes
                    && (c.flow.Some? ==> l.max <= c.flow.value.options.maxFrame)))
            && (r.code != Range ==> r.code == if r.peeked.stop == Failed then Protocol else Ok)
            && (r.code != Range && r.peeked.stop !in {MessageBudget, OutputFull, ByteBudget} ==> Settled(r.peeked, Parse(codec, l.max, c.read), c.eof))
            && (r.code != Range ==> r.peeked.frames <= Parse(codec, l.max, c.read).frames)
            && (r.peeked.stop == MessageBudget && r.code != Range ==> |r.peeked.frames| == l.messages)
            && (r.peeked.stop == OutputFull && r.code != Range ==> |r.peeked.frames| == l.views)
  {
    hide Peek, Parse, Settled;
    if LimitsLegal(c, l) {
      PeekAgreesWithParse(codec, l, c.eof, c.read, 0, 0);
      PeekStopsAtBudget(codec, l, c.eof, c.read, 0, 0);
    }
  }

  /** Registering, changing and dropping interests succeed exactly when they may and the loop agrees. */
  lemma BindingExact(c: Conn, i: Interests, answer: Code)
    ensures DoAttach(c, i, answer).code == Ok <==> c.state == Open && c.loop.None? && answer == Ok
    ensures DoAttach(c, i, answer).conn == if DoAttach(c, i, answer).code == Ok then c.(loop := Some(i)) else c
    ensures DoSetInterests(c, i, answer).code == Ok <==> c.state == Open && c.loop.Some? && c.flow.None? && answer == Ok
    ensures DoSetInterests(c, i, answer).conn == if DoSetInterests(c, i, answer).code == Ok then c.(loop := Some(i)) else c
    ensures DoDetach(c, answer).code == Ok <==> c.loop.None? || answer == Ok
    ensures DoDetach(c, answer).conn == if c.loop.Some? && answer == Ok then c.(loop := None, flow := None) else c
  {
  }
}
