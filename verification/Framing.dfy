/**
  Byte-stream framing. `Parse` is the reference: it cuts a whole stream into frames in one go.
  `Peek` is what a connection computes from whatever happens to be buffered, under a message, an
  output and a byte budget. The header codec and the checksum are parameters.
 */
module Framing {
  import opened Base

  const HEADER: nat := 32
  const PROTOCOL_MAX: nat := 32 + 16_777_216

  datatype Header = Declares(body: nat) | Malformed(detail: nat)

  /** Validity of 32 header bytes, and the checksum fault of a complete frame if it has one. */
  datatype Codec = Codec(header: seq<byte> -> Header, checksum: seq<byte> -> Option<nat>)

  datatype Issue = CodecFault(detail: nat) | TooLarge | Truncated

  datatype Verdict = More | Fault(issue: Issue) | Frame(size: nat)

  /** What the first bytes of `s` amount to when no frame may be longer than `max`. */
  function First(codec: Codec, max: nat, s: seq<byte>): (v: Verdict)
    ensures v.Frame? ==> HEADER <= v.size <= |s| && v.size <= max
    ensures v.Fault? ==> v.issue != Truncated && HEADER <= |s|
  {
    if |s| < HEADER then More
    else match codec.header(s[..HEADER])
      case Malformed(d) => Fault(CodecFault(d))
      case Declares(body) =>
        if HEADER + body > max then Fault(TooLarge)
        else if HEADER + body > |s| then More
        else match codec.checksum(s[..HEADER + body])
          case Some(d) => Fault(CodecFault(d))
          case None => Frame(HEADER + body)
  }

  function Flatten(frames: seq<seq<byte>>): (s: seq<byte>)
    ensures |s| == Total(frames)
  {
    if frames == [] then [] else frames[0] + Flatten(frames[1..])
  }

  /** The number of bytes in a list of frames. */
  function Total(frames: seq<seq<byte>>): (n: nat)
  {
    if frames == [] then 0 else |frames[0]| + Total(frames[1..])
  }

  /** The frames of `s`, the bytes after the last of them, and the fault those bytes start with. */
  datatype Parsed = Parsed(frames: seq<seq<byte>>, rest: seq<byte>, issue: Option<Issue>)

  function Parse(codec: Codec, max: nat, s: seq<byte>): (p: Parsed)
    decreases |s|
  {
    match First(codec, max, s)
    case More => Parsed([], s, None)
    case Fault(i) => Parsed([], s, Some(i))
    case Frame(n) => var p := Parse(codec, max, s[n..]); p.(frames := [s[..n]] + p.frames)
  }

  // ---- Sequences of frames -------------------------------------------------------------------

  lemma {:induction false} TotalConcat(a: seq<seq<byte>>, b: seq<seq<byte>>)
    ensures Total(a + b) == Total(a) + Total(b)
  {
    if a == [] {
      assert a + b == b;
    } else {
      TotalConcat(a[1..], b);
      assert (a + b)[1..] == a[1..] + b;
    }
  }

  lemma TotalCons(f: seq<byte>, rest: seq<seq<byte>>)
    ensures Total([f] + rest) == |f| + Total(rest)
  {
    assert ([f] + rest)[1..] == rest;
  }

  lemma TotalSnoc(frames: seq<seq<byte>>, f: seq<byte>)
    ensures Total(frames + [f]) == Total(frames) + |f|
  {
    TotalConcat(frames, [f]);
    TotalCons(f, []);
    assert [f] + [] == [f];
  }

  // ---- The reference parse -------------------------------------------------------------------

  /** Nothing is lost or invented: the frames followed by the rest are the stream. */
  lemma {:induction false} ParseReassembles(codec: Codec, max: nat, s: seq<byte>)
    ensures Flatten(Parse(codec, max, s).frames) + Parse(codec, max, s).rest == s
    decreases |s|
  {
    hide First;
    var v := First(codec, max, s);
    if v.Frame? {
      ParseReassembles(codec, max, s[v.size..]);
      var p := Parse(codec, max, s[v.size..]);
      assert ([s[..v.size]] + p.frames)[1..] == p.frames;
      assert s == s[..v.size] + s[v.size..];
    }
  }

  /** A frame by itself: its header declares exactly its size, it respects the limit, its checksum holds. */
  predicate GoodFrame(codec: Codec, max: nat, f: seq<byte>)
  {
    HEADER <= |f| <= max && codec.header(f[..HEADER]) == Declares(|f| - HEADER) && codec.checksum(f) == None
  }

  /** Why nothing more can be cut off `rest`: too few bytes, a bad header or checksum, or a frame beyond the limit. */
  predicate NothingMore(codec: Codec, max: nat, rest: seq<byte>, issue: Option<Issue>)
  {
    if |rest| < HEADER then issue == None
    else match codec.header(rest[..HEADER])
      case Malformed(d) => issue == Some(CodecFault(d))
      case Declares(body) =>
        if HEADER + body > max then issue == Some(TooLarge)
        else if HEADER + body > |rest| then issue == None
        else codec.checksum(rest[..HEADER + body]).Some? && issue == Some(CodecFault(codec.checksum(rest[..HEADER + body]).value))
  }

  lemma FirstExact(codec: Codec, max: nat, s: seq<byte>)
    ensures var v := First(codec, max, s);
            && (v.Frame? <==> exists n :: HEADER <= n <= |s| && GoodFrame(codec, max, s[..n]))
            && (v.Frame? ==> v.size <= |s| && GoodFrame(codec, max, s[..v.size]))
            && (!v.Frame? ==> NothingMore(codec, max, s, if v.Fault? then Some(v.issue) else None))
  {
    forall n | HEADER <= n <= |s| && GoodFrame(codec, max, s[..n]) ensures First(codec, max, s) == Frame(n) {
      GoodFrameFirst(codec, max, s[..n], s[n..]);
      assert s[..n] + s[n..] == s;
    }
    var v := First(codec, max, s);
    if v.Frame? { assert s[..v.size][..HEADER] == s[..HEADER]; }
  }

  lemma GoodFrameFirst(codec: Codec, max: nat, f: seq<byte>, t: seq<byte>)
    requires GoodFrame(codec, max, f)
    ensures First(codec, max, f + t) == Frame(|f|)
  {
    assert (f + t)[..HEADER] == f[..HEADER] && (f + t)[..|f|] == f;
  }

  /** Every frame found is good, and nothing more could have been found. */
  lemma {:induction false} ParseSound(codec: Codec, max: nat, s: seq<byte>)
    ensures var p := Parse(codec, max, s);
            (forall i :: 0 <= i < |p.frames| ==> GoodFrame(codec, max, p.frames[i])) && NothingMore(codec, max, p.rest, p.issue)
    decreases |s|
  {
    hide First, GoodFrame, NothingMore;
    var v := First(codec, max, s);
    FirstExact(codec, max, s);
    if v.Frame? { ParseSound(codec, max, s[v.size..]); }
  }

  /** The parse is the only way to cut a stream: good frames followed by bytes that yield nothing more are found as they are. */
  lemma {:induction false} ParseUnique(codec: Codec, max: nat, frames: seq<seq<byte>>, rest: seq<byte>, issue: Option<Issue>)
    requires (forall i :: 0 <= i < |frames| ==> GoodFrame(codec, max, frames[i])) && NothingMore(codec, max, rest, issue)
    ensures Parse(codec, max, Flatten(frames) + rest) == Parsed(frames, rest, issue)
    decreases |frames|
  {
    if frames == [] {
      assert Flatten(frames) + rest == rest;
    } else {
      hide GoodFrame, NothingMore, First;
      var f, tail := frames[0], Flatten(frames[1..]) + rest;
      assert Flatten(frames) + rest == f + tail;
      GoodFrameFirst(codec, max, f, tail);
      ParseUnique(codec, max, frames[1..], rest, issue);
      assert (f + tail)[..|f|] == f && (f + tail)[|f|..] == tail;
      assert frames == [f] + frames[1..];
    }
  }

  /** More bytes never change the first verdict once it is not `More`. */
  lemma FirstExtends(codec: Codec, max: nat, s: seq<byte>, t: seq<byte>)
    ensures !First(codec, max, s).More? ==> First(codec, max, s + t) == First(codec, max, s)
  {
    if |s| >= HEADER {
      assert (s + t)[..HEADER] == s[..HEADER];
      match codec.header(s[..HEADER])
      case Malformed(_) =>
      case Declares(body) =>
        if HEADER + body <= |s| {
          assert (s + t)[..HEADER + body] == s[..HEADER + body];
        }
    }
  }

  /** Cutting one frame off the front of both streams. */
  lemma ParseStep(codec: Codec, max: nat, s: seq<byte>, t: seq<byte>)
    requires First(codec, max, s).Frame?
    ensures var n := First(codec, max, s).size;
            && Parse(codec, max, s) == Parsed([s[..n]] + Parse(codec, max, s[n..]).frames, Parse(codec, max, s[n..]).rest, Parse(codec, max, s[n..]).issue)
            && Parse(codec, max, s + t) == Parsed([s[..n]] + Parse(codec, max, s[n..] + t).frames, Parse(codec, max, s[n..] + t).rest, Parse(codec, max, s[n..] + t).issue)
  {
    hide First;
    var n := First(codec, max, s).size;
    FirstExtends(codec, max, s, t);
    assert (s + t)[n..] == s[n..] + t;
    assert (s + t)[..n] == s[..n];
  }

  lemma ConsConcat(f: seq<byte>, a: seq<seq<byte>>, b: seq<seq<byte>>)
    ensures [f] + (a + b) == ([f] + a) + b
  {
  }

  lemma {:induction false} ParseResumes(codec: Codec, max: nat, s: seq<byte>, t: seq<byte>)
    ensures var p, q := Parse(codec, max, s), Parse(codec, max, s + t);
            && (p.issue.Some? ==> q == Parsed(p.frames, p.rest + t, p.issue))
            && (p.issue.None? ==>
                  var r := Parse(codec, max, p.rest + t);
                  q == Parsed(p.frames + r.frames, r.rest, r.issue))
    decreases |s|
  {
    hide First;
    var v := First(codec, max, s);
    if v.Frame? {
      ParseStep(codec, max, s, t);
      hide Parse;
      ParseResumes(codec, max, s[v.size..], t);
      var p := Parse(codec, max, s[v.size..]);
      ConsConcat(s[..v.size], p.frames, Parse(codec, max, p.rest + t).frames);
    } else {
      FirstExtends(codec, max, s, t);
      if v.More? { assert [] + Parse(codec, max, s + t).frames == Parse(codec, max, s + t).frames; }
    }
  }

  /**
    Parsing a longer stream resumes where the shorter one stopped, and a fault, once present, stays
    at its position with its diagnosis whatever follows it.
   */
  lemma ParseExtends(codec: Codec, max: nat, s: seq<byte>, t: seq<byte>)
    ensures var p, q := Parse(codec, max, s), Parse(codec, max, s + t);
            && p.frames <= q.frames
            && (p.issue.Some? ==> q == Parsed(p.frames, p.rest + t, p.issue))
            && (p.issue.None? ==>
                  var r := Parse(codec, max, p.rest + t);
                  q == Parsed(p.frames + r.frames, r.rest, r.issue))
  {
    hide Parse;
    ParseResumes(codec, max, s, t);
  }

  lemma Slices(s: seq<byte>, n: nat, d: nat)
    requires n + d <= |s|
    ensures s[n..][d..] == s[n + d..]
  {
  }

  lemma ConsSlices(f: seq<byte>, tail: seq<seq<byte>>, k: nat)
    requires 0 < k <= 1 + |tail|
    ensures ([f] + tail)[..k] == [f] + tail[..k - 1] && ([f] + tail)[k..] == tail[k - 1..]
  {
  }

  /** Dropping the first `k` frames of a stream leaves a stream whose parse is the remaining frames. */
  lemma {:induction false} ParseAfter(codec: Codec, max: nat, s: seq<byte>, k: nat)
    requires k <= |Parse(codec, max, s).frames|
    ensures var p := Parse(codec, max, s);
            var d := Total(p.frames[..k]);
            d <= |s| && Parse(codec, max, s[d..]) == Parsed(p.frames[k..], p.rest, p.issue)
    decreases k
  {
    hide First;
    var p := Parse(codec, max, s);
    if k == 0 {
      assert p.frames[..0] == [] && p.frames[0..] == p.frames && s[0..] == s;
    } else {
      var n := First(codec, max, s).size;
      ParseAfter(codec, max, s[n..], k - 1);
      var q := Parse(codec, max, s[n..]);
      ConsSlices(s[..n], q.frames, k);
      TotalCons(s[..n], q.frames[..k - 1]);
      Slices(s, n, Total(q.frames[..k - 1]));
    }
  }

  /** Past the first `k` frames the stream goes on with the next one. */
  lemma FrontFrame(codec: Codec, max: nat, s: seq<byte>, k: nat)
    requires k < |Parse(codec, max, s).frames|
    ensures var frames := Parse(codec, max, s).frames;
            var at := Total(frames[..k]);
            at + |frames[k]| <= |s| && s[at..][..|frames[k]|] == frames[k]
  {
    hide First;
    ParseAfter(codec, max, s, k);
    var frames := Parse(codec, max, s).frames;
    assert Parse(codec, max, s[Total(frames[..k])..]).frames == frames[k..];
  }

  lemma SliceSnoc(frames: seq<seq<byte>>, k: nat)
    requires k < |frames|
    ensures frames[..k + 1] == frames[..k] + [frames[k]] && Total(frames[..k + 1]) == Total(frames[..k]) + |frames[k]|
  {
    assert frames[..k + 1] == frames[..k] + [frames[k]];
    TotalSnoc(frames[..k], frames[k]);
  }

  /** A complete header at the front of `rest` declares a frame longer than `max`. */
  ghost predicate HeaderOver(codec: Codec, rest: seq<byte>, max: nat)
  {
    HEADER <= |rest| && codec.header(rest[..HEADER]).Declares? && HEADER + codec.header(rest[..HEADER]).body > max
  }

  /** A tighter frame limit finds a prefix of the same frames and the same faults, or stops at an oversize header. */
  lemma {:induction false} ParseLimit(codec: Codec, max: nat, limit: nat, s: seq<byte>)
    requires max <= limit
    ensures var p, q := Parse(codec, max, s), Parse(codec, limit, s);
            && p.frames <= q.frames
            && (p.issue != Some(TooLarge) ==> p == q)
            && (p.issue == Some(TooLarge) ==> HeaderOver(codec, p.rest, max))
    decreases |s|
  {
    var v := First(codec, max, s);
    if v.Frame? {
      ParseLimit(codec, max, limit, s[v.size..]);
    }
  }

  /** Frames that respect a tighter limit are found under it too. */
  lemma {:induction false} WithinLimit(codec: Codec, max: nat, limit: nat, s: seq<byte>, k: nat)
    requires max <= limit && k <= |Parse(codec, limit, s).frames|
    requires forall i :: 0 <= i < k ==> |Parse(codec, limit, s).frames[i]| <= max
    ensures k <= |Parse(codec, max, s).frames| && Parse(codec, max, s).frames[..k] == Parse(codec, limit, s).frames[..k]
    decreases |s|
  {
    if k > 0 {
      var n := First(codec, limit, s).size;
      var tail := Parse(codec, limit, s[n..]).frames;
      assert |Parse(codec, limit, s).frames[0]| == n;
      assert forall i :: 0 <= i < k - 1 ==> tail[i] == Parse(codec, limit, s).frames[i + 1];
      WithinLimit(codec, max, limit, s[n..], k - 1);
      ConsSlices(s[..n], tail, k);
      ConsSlices(s[..n], Parse(codec, max, s[n..]).frames, k);
    }
  }

  // ---- The bounded peek ----------------------------------------------------------------------

  datatype Stop = MessageBudget | OutputFull | ByteBudget | NeedMore | EndOfInput | Failed

  /** `max` is the caller's frame limit; the other three bound how much one peek may report. */
  datatype Limits = Limits(max: nat, messages: nat, bytes: nat, views: nat)

  datatype Peeked = Peeked(frames: seq<seq<byte>>, stop: Stop, issue: Option<Issue>)

  datatype Decision = Halt(stop: Stop, issue: Option<Issue>) | Take(size: nat)

  /** The checks a peek makes, in order, with `count` frames and `used` bytes already reported and `s` still ahead. */
  function Decide(codec: Codec, l: Limits, eof: bool, s: seq<byte>, count: nat, used: nat): (d: Decision)
    requires used <= l.bytes
    ensures d.Take? ==> HEADER <= d.size <= |s| && d.size <= l.bytes - used && count != l.messages && count != l.views
  {
    if count == l.messages then Halt(MessageBudget, None)
    else if count == l.views then Halt(OutputFull, None)
    else if s == [] then Halt(if eof then EndOfInput else NeedMore, None)
    else if l.bytes - used < HEADER then Halt(ByteBudget, None)
    else if |s| < HEADER then
      if eof then Halt(Failed, Some(Truncated)) else Halt(NeedMore, None)
    else match codec.header(s[..HEADER])
      case Malformed(d) => Halt(Failed, Some(CodecFault(d)))
      case Declares(body) =>
        if HEADER + body > l.max then Halt(Failed, Some(TooLarge))
        else if HEADER + body > l.bytes - used then Halt(ByteBudget, None)
        else if HEADER + body > |s| then
          if eof then Halt(Failed, Some(Truncated)) else Halt(NeedMore, None)
        else match codec.checksum(s[..HEADER + body])
          case Some(d) => Halt(Failed, Some(CodecFault(d)))
          case None => Take(HEADER + body)
  }

  /** One pass over the buffered bytes. */
  function Peek(codec: Codec, l: Limits, eof: bool, s: seq<byte>, count: nat, used: nat): (r: Peeked)
    requires used <= l.bytes
    decreases |s|
  {
    match Decide(codec, l, eof, s, count, used)
    case Halt(stop, issue) => Peeked([], stop, issue)
    case Take(n) =>
      var r := Peek(codec, l, eof, s[n..], count + 1, used + n);
      r.(frames := [s[..n]] + r.frames)
  }

  /** A peek that stops for want of bytes or at a fault has seen exactly what the reference parse sees. */
  ghost predicate Settled(r: Peeked, p: Parsed, eof: bool)
  {
    && r.frames == p.frames
    && match r.issue
       case Some(Truncated) => r.stop == Failed && eof && p.issue.None? && p.rest != []
       case Some(_) => r.stop == Failed && p.issue == r.issue
       case None => p.issue.None? && r.stop == if eof then EndOfInput else NeedMore
  }

  /**
    A peek reports the leading frames of the reference parse, all of them unless a budget cut it
    short, and faults exactly where and how the reference does. Truncation is a fault only once the
    peer has finished sending.
   */
  lemma {:induction false} PeekAgreesWithParse(codec: Codec, l: Limits, eof: bool, s: seq<byte>, count: nat, used: nat)
    requires count <= l.messages && count <= l.views && used <= l.bytes
    ensures var r, p := Peek(codec, l, eof, s, count, used), Parse(codec, l.max, s);
            && r.frames <= p.frames
            && (r.stop !in {MessageBudget, OutputFull, ByteBudget} ==> Settled(r, p, eof))
            && (r.stop in {MessageBudget, OutputFull, ByteBudget} ==> r.issue.None?)
    decreases |s|
  {
    hide First, Decide;
    var d := Decide(codec, l, eof, s, count, used);
    DecideAgreesWithFirst(codec, l, eof, s, count, used);
    if d.Take? {
      PeekAgreesWithParse(codec, l, eof, s[d.size..], count + 1, used + d.size);
    }
  }

  lemma DecideAgreesWithFirst(codec: Codec, l: Limits, eof: bool, s: seq<byte>, count: nat, used: nat)
    requires used <= l.bytes
    ensures match Decide(codec, l, eof, s, count, used)
            case Take(n) => First(codec, l.max, s) == Frame(n)
            case Halt(stop, issue) =>
              if stop in {MessageBudget, OutputFull, ByteBudget} then issue.None?
              else match issue
                case Some(Truncated) => stop == Failed && eof && s != [] && First(codec, l.max, s).More?
                case Some(i) => stop == Failed && First(codec, l.max, s) == Fault(i)
                case None => First(codec, l.max, s).More? && stop == if eof then EndOfInput else NeedMore
  {
  }

  /** The budgets are never exceeded. */
  lemma {:induction false} PeekRespectsBudgets(codec: Codec, l: Limits, eof: bool, s: seq<byte>, count: nat, used: nat)
    requires count <= l.messages && count <= l.views && used <= l.bytes
    ensures var r := Peek(codec, l, eof, s, count, used);
            && count + |r.frames| <= l.messages && count + |r.frames| <= l.views
            && used + Total(r.frames) <= l.bytes && Total(r.frames) <= |s|
    decreases |s|
  {
    hide Decide;
    var d := Decide(codec, l, eof, s, count, used);
    if d.Take? {
      PeekRespectsBudgets(codec, l, eof, s[d.size..], count + 1, used + d.size);
      TotalCons(s[..d.size], Peek(codec, l, eof, s[d.size..], count + 1, used + d.size).frames);
    }
  }

  /** A budget is the reason to stop exactly when it is used up: the next header, or the frame it declares, would not fit. */
  lemma {:induction false} PeekStopsAtBudget(codec: Codec, l: Limits, eof: bool, s: seq<byte>, count: nat, used: nat)
    requires count <= l.messages && count <= l.views && used <= l.bytes
    ensures var r := Peek(codec, l, eof, s, count, used);
            && Total(r.frames) <= |s| && used + Total(r.frames) <= l.bytes
            && AtBudget(codec, l, s[Total(r.frames)..], count + |r.frames|, used + Total(r.frames), r.stop)
    decreases |s|
  {
    hide Decide, AtBudget, Total;
    PeekRespectsBudgets(codec, l, eof, s, count, used);
    var d := Decide(codec, l, eof, s, count, used);
    if d.Take? {
      var r := Peek(codec, l, eof, s[d.size..], count + 1, used + d.size);
      PeekStopsAtBudget(codec, l, eof, s[d.size..], count + 1, used + d.size);
      TotalCons(s[..d.size], r.frames);
      Slices(s, d.size, Total(r.frames));
      assert Peek(codec, l, eof, s, count, used) == r.(frames := [s[..d.size]] + r.frames);
    } else {
      HaltAtBudget(codec, l, eof, s, count, used);
      NoFrames();
      assert s[0..] == s;
    }
  }

  lemma NoFrames()
    ensures Total([]) == 0
  {
  }

  lemma HaltAtBudget(codec: Codec, l: Limits, eof: bool, s: seq<byte>, count: nat, used: nat)
    requires used <= l.bytes && Decide(codec, l, eof, s, count, used).Halt?
    ensures AtBudget(codec, l, s, count, used, Decide(codec, l, eof, s, count, used).stop)
  {
  }

  /** Stopping for `stop` with `rest` ahead: a budget is named only when it cannot take what comes next. */
  ghost predicate AtBudget(codec: Codec, l: Limits, rest: seq<byte>, count: nat, used: nat, stop: Stop)
    requires used <= l.bytes
  {
    && (stop == MessageBudget <==> count == l.messages)
    && (stop == OutputFull ==> count == l.views)
    && (stop == ByteBudget ==> rest != [] && (l.bytes - used < HEADER || (HeaderOver(codec, rest, l.bytes - used) && !HeaderOver(codec, rest, l.max))))
  }

  /** A buffer holding at least one maximal frame never leaves a peek empty-handed. */
  lemma PeekProgress(codec: Codec, l: Limits, eof: bool, s: seq<byte>)
    requires HEADER <= l.max <= |s| && l.max <= l.bytes && 0 < l.messages && 0 < l.views
    ensures var r := Peek(codec, l, eof, s, 0, 0);
            r.frames != [] || (r.stop == Failed && r.issue.Some? && r.issue.value != Truncated)
  {
  }

  /** A peek for one frame says exactly what the stream starts with. */
  lemma PeekOne(codec: Codec, max: nat, eof: bool, s: seq<byte>)
    requires HEADER <= max
    ensures var r := Peek(codec, Limits(max, 1, max, 1), eof, s, 0, 0);
            match First(codec, max, s)
            case Frame(n) => r == Peeked([s[..n]], MessageBudget, None)
            case Fault(i) => r == Peeked([], Failed, Some(i))
            case More => r == if eof && s != [] then Peeked([], Failed, Some(Truncated)) else Peeked([], if eof then EndOfInput else NeedMore, None)
  {
    var v := First(codec, max, s);
    if v.Frame? {
      assert Decide(codec, Limits(max, 1, max, 1), eof, s, 0, 0) == Take(v.size);
      assert Peek(codec, Limits(max, 1, max, 1), eof, s[v.size..], 1, v.size) == Peeked([], MessageBudget, None);
      assert [s[..v.size]] + [] == [s[..v.size]];
    }
  }

  // ---- The loop ------------------------------------------------------------------------------

  /** The checks of one iteration; `wire` is everything from the current frame on. */
  method NextFrame(codec: Codec, l: Limits, eof: bool, wire: seq<byte>, count: nat, total: nat) returns (d: Decision)
    requires total <= l.bytes
    ensures d == Decide(codec, l, eof, wire, count, total)
  {
    if count == l.messages { return Halt(MessageBudget, None); }
    if count == l.views { return Halt(OutputFull, None); }
    var remaining := |wire|;
    if remaining == 0 { return Halt(if eof then EndOfInput else NeedMore, None); }
    var budget := l.bytes - total;
    if budget < HEADER { return Halt(ByteBudget, None); }
    if remaining < HEADER {
      if !eof { return Halt(NeedMore, None); }
      return Halt(Failed, Some(Truncated));
    }
    var header := codec.header(wire[..HEADER]);
    if header.Malformed? { return Halt(Failed, Some(CodecFault(header.detail))); }
    var size := HEADER + header.body;
    if size > l.max { return Halt(Failed, Some(TooLarge)); }
    if size > budget { return Halt(ByteBudget, None); }
    if size > remaining {
      if !eof { return Halt(NeedMore, None); }
      return Halt(Failed, Some(Truncated));
    }
    var fault := codec.checksum(wire[..size]);
    if fault.Some? { return Halt(Failed, Some(CodecFault(fault.value))); }
    return Take(size);
  }

  /** What a peek returns once `frames` have been reported and `r` covers the bytes after them. */
  function Glue(frames: seq<seq<byte>>, r: Peeked): Peeked
  {
    Peeked(frames + r.frames, r.stop, r.issue)
  }

  lemma GlueTake(codec: Codec, l: Limits, eof: bool, s: seq<byte>, count: nat, used: nat, n: nat, frames: seq<seq<byte>>)
    requires used <= l.bytes && Decide(codec, l, eof, s, count, used) == Take(n)
    ensures Glue(frames, Peek(codec, l, eof, s, count, used)) ==
            Glue(frames + [s[..n]], Peek(codec, l, eof, s[n..], count + 1, used + n))
  {
    hide Decide;
    var r := Peek(codec, l, eof, s[n..], count + 1, used + n);
    assert frames + ([s[..n]] + r.frames) == (frames + [s[..n]]) + r.frames;
  }

  lemma GlueHalt(codec: Codec, l: Limits, eof: bool, s: seq<byte>, count: nat, used: nat, frames: seq<seq<byte>>)
    requires used <= l.bytes && Decide(codec, l, eof, s, count, used).Halt?
    ensures var d := Decide(codec, l, eof, s, count, used);
            Glue(frames, Peek(codec, l, eof, s, count, used)) == Peeked(frames, d.stop, d.issue)
  {
    hide Decide;
    assert frames + [] == frames;
  }

  /** The frame loop of a peek over the readable bytes; nothing is consumed. */
  method ScanFrames(codec: Codec, l: Limits, eof: bool, bytes: seq<byte>) returns (r: Peeked, total: nat)
    ensures r == Peek(codec, l, eof, bytes, 0, 0)
    ensures total == Total(r.frames)
  {
    hide Decide;
    var frames, wire := [], bytes;
    total := 0;
    ghost var whole := Peek(codec, l, eof, bytes, 0, 0);
    assert [] + whole.frames == whole.frames;
    while true
      invariant total <= l.bytes && total == Total(frames)
      invariant whole == Glue(frames, Peek(codec, l, eof, wire, |frames|, total))
      decreases |wire|
    {
      var d := NextFrame(codec, l, eof, wire, |frames|, total);
      if d.Halt? {
        GlueHalt(codec, l, eof, wire, |frames|, total, frames);
        return Peeked(frames, d.stop, d.issue), total;
      }
      GlueTake(codec, l, eof, wire, |frames|, total, d.size, frames);
      TotalSnoc(frames, wire[..d.size]);
      frames, total, wire := frames + [wire[..d.size]], total + d.size, wire[d.size..];
    }
  }
}
