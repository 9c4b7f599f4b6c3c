/**
  Log lines as text: fixed fields in a fixed order, numbers in decimal, caller-supplied bytes quoted
  and escaped. A line is a list of tokens shown one after the other, and it can be read back in one
  way only.
 */
module LogFormat {
  import opened Base

  const MODULE_MAX: nat := 64
  const ID_MAX: nat := 128
  const MESSAGE_MAX: nat := 4096
  const LINE_MAX: nat := 32768

  datatype Record = Record(
    level: int, module_: seq<byte>, connection: size, generation: size, sequence: nat,
    request: seq<byte>, task: seq<byte>, message: seq<byte>)
  datatype Timestamp = Timestamp(year: nat, month: nat, day: nat, hour: nat, minute: nat, second: nat, nanosecond: nat)

  predicate LevelValid(level: int)
  {
    0 <= level <= 3
  }

  function LevelName(level: int): string
  {
    if level == 0 then "DEBUG" else if level == 1 then "INFO" else if level == 2 then "WARN" else if level == 3 then "ERROR" else "unknown"
  }

  predicate Leap(year: nat)
  {
    year % 4 == 0 && (year % 100 != 0 || year % 400 == 0)
  }

  function DaysIn(year: nat, month: nat): nat
  {
    if month == 2 then (if Leap(year) then 29 else 28)
    else if month in {4, 6, 9, 11} then 30 else 31
  }

  predicate TimestampValid(t: Timestamp)
  {
    && 1970 <= t.year <= 9999 && 1 <= t.month <= 12 && t.hour <= 23 && t.minute <= 59 && t.second <= 59 && t.nanosecond <= 999_999_999
    && 1 <= t.day <= DaysIn(t.year, t.month)
  }

  predicate SpansValid(r: Record)
  {
    |r.module_| <= MODULE_MAX && |r.request| <= ID_MAX && |r.task| <= ID_MAX && |r.message| <= MESSAGE_MAX
  }

  // ---- Numbers -------------------------------------------------------------------------------

  function DigitChar(d: nat): char
    requires d < 10
  {
    '0' + d as char
  }

  predicate IsDigit(c: char)
  {
    '0' <= c <= '9'
  }

  predicate AllDigits(s: string)
  {
    forall i :: 0 <= i < |s| ==> IsDigit(s[i])
  }

  /** How many digits `s` starts with. */
  function DigitRun(s: string): (n: nat)
    ensures n <= |s| && AllDigits(s[..n]) && (n < |s| ==> !IsDigit(s[n]))
    decreases |s|
  {
    if s == "" || !IsDigit(s[0]) then 0
    else
      var n := 1 + DigitRun(s[1..]);
      assert s[..n] == [s[0]] + s[1..][..n - 1];
      n
  }

  lemma {:induction false} RunOf(a: string, rest: string)
    requires AllDigits(a) && (rest != "" ==> !IsDigit(rest[0]))
    ensures DigitRun(a + rest) == |a|
    decreases |a|
  {
    if a != "" {
      RunOf(a[1..], rest);
      assert (a + rest)[1..] == a[1..] + rest;
    } else {
      assert a + rest == rest;
    }
  }

  function Digits(n: nat): (s: string)
    ensures s != "" && forall i :: 0 <= i < |s| ==> IsDigit(s[i])
  {
    if n < 10 then [DigitChar(n)] else Digits(n / 10) + [DigitChar(n % 10)]
  }

  function Value(s: string): (n: int)
  {
    if s == "" then 0 else 10 * Value(s[..|s| - 1]) + (s[|s| - 1] as int - '0' as int)
  }

  function Zeros(n: nat): (s: string)
    ensures |s| == n && forall i :: 0 <= i < n ==> s[i] == '0'
  {
    if n == 0 then "" else ['0'] + Zeros(n - 1)
  }

  function Padded(n: nat, width: nat): (s: string)
    ensures forall i :: 0 <= i < |s| ==> IsDigit(s[i])
  {
    if |Digits(n)| >= width then Digits(n) else Zeros(width - |Digits(n)|) + Digits(n)
  }

  function Pow10(k: nat): nat
  {
    if k == 0 then 1 else 10 * Pow10(k - 1)
  }

  lemma {:induction false} DigitsValue(n: nat)
    ensures Value(Digits(n)) == n
  {
    if n >= 10 {
      DigitsValue(n / 10);
      assert Digits(n)[..|Digits(n)| - 1] == Digits(n / 10);
    } else {
      assert Digits(n)[..0] == "";
    }
  }

  lemma {:induction false} ZerosValue(k: nat, s: string)
    ensures Value(Zeros(k) + s) == Value(s)
    decreases |s|, k
  {
    if s != "" {
      var n := |s| - 1;
      assert (Zeros(k) + s)[..k + n] == Zeros(k) + s[..n];
      ZerosValue(k, s[..n]);
    } else if k > 0 {
      ZerosShift(k);
      ZerosValue(k - 1, "");
      assert Zeros(k - 1) + "" == Zeros(k - 1);
      assert Zeros(k) + "" == Zeros(k);
    } else {
      assert Zeros(0) + s == s;
    }
  }

  lemma {:induction false} ZerosShift(k: nat)
    requires k > 0
    ensures Zeros(k)[..k - 1] == Zeros(k - 1) && Zeros(k)[k - 1] == '0'
  {
    assert forall i :: 0 <= i < k - 1 ==> Zeros(k)[i] == Zeros(k - 1)[i];
  }

  lemma PaddedValue(n: nat, width: nat)
    ensures Value(Padded(n, width)) == n
  {
    DigitsValue(n);
    if |Digits(n)| < width { ZerosValue(width - |Digits(n)|, Digits(n)); }
  }

  lemma {:induction false} DigitsLength(n: nat, k: nat)
    requires 0 < k && n < Pow10(k)
    ensures |Digits(n)| <= k
  {
    if n >= 10 { DigitsLength(n / 10, k - 1); }
  }

  lemma PaddedLength(n: nat, width: nat)
    requires 0 < width && n < Pow10(width)
    ensures |Padded(n, width)| == width
  {
    DigitsLength(n, width);
  }

  // ---- Escaping ------------------------------------------------------------------------------

  function HexChar(h: nat): char
    requires h < 16
  {
    if h < 10 then '0' + h as char else 'A' + (h - 10) as char
  }

  function EscapeByte(b: byte): (s: string)
  {
    var n := b as int;
    if n == 10 then "\\n"
    else if n == 13 then "\\r"
    else if n == 9 then "\\t"
    else if n == 34 || n == 92 then ['\\', n as char]
    else if 32 <= n <= 126 then [n as char]
    else ['\\', 'x', HexChar(n / 16), HexChar(n % 16)]
  }

  function Escape(span: seq<byte>): (s: string)
  {
    if span == [] then "" else EscapeByte(span[0]) + Escape(span[1..])
  }

  function Quote(span: seq<byte>): string
  {
    "\"" + Escape(span) + "\""
  }

  predicate Printable(s: string)
  {
    forall i :: 0 <= i < |s| ==> ' ' <= s[i] <= '~'
  }

  lemma EscapeByteShape(b: byte)
    ensures var s := EscapeByte(b); 1 <= |s| <= 4 && Printable(s) && s[0] != '"'
  {
  }

  lemma {:induction false} EscapeShape(span: seq<byte>)
    ensures Printable(Escape(span)) && |Escape(span)| <= 4 * |span|
  {
    hide EscapeByte;
    if span != [] {
      EscapeByteShape(span[0]);
      EscapeShape(span[1..]);
    }
  }

  lemma Cancel(a: string, s: string, t: string)
    requires a + s == a + t
    ensures s == t
  {
    assert s == (a + s)[|a|..] && t == (a + t)[|a|..];
  }

  lemma CancelEqual(a: string, b: string, s: string, t: string)
    requires |a| == |b| && a + s == b + t
    ensures a == b && s == t
  {
    assert a == (a + s)[..|a|] && b == (b + t)[..|b|];
    assert s == (a + s)[|a|..] && t == (b + t)[|b|..];
  }

  /** One escaped byte can be told apart from what follows it. */
  lemma EscapeByteCancel(x: byte, y: byte, s: string, t: string)
    requires EscapeByte(x) + s == EscapeByte(y) + t
    ensures x == y && s == t
  {
    var a, b := EscapeByte(x), EscapeByte(y);
    assert a[0] == (a + s)[0] && b[0] == (b + t)[0];
    if |a| > 1 && |b| > 1 { assert a[1] == (a + s)[1] && b[1] == (b + t)[1]; }
    if |a| > 2 && |b| > 2 { assert a[2] == (a + s)[2] && b[2] == (b + t)[2] && a[3] == (a + s)[3] && b[3] == (b + t)[3]; }
    assert x == y;
    Cancel(a, s, t);
  }

  /** Only an empty span is followed at once by the closing quote. */
  lemma EscapeStarts(x: seq<byte>, s: string)
    ensures var u := Escape(x) + ("\"" + s); u != "" && (u[0] == '"' <==> x == [])
  {
    hide EscapeByte;
    if x != [] { EscapeByteShape(x[0]); }
  }

  lemma {:induction false} EscapeCancel(x: seq<byte>, y: seq<byte>, s: string, t: string)
    requires Escape(x) + ("\"" + s) == Escape(y) + ("\"" + t)
    ensures x == y && s == t
    decreases |x| + |y|
  {
    hide EscapeByte;
    var u, v := Escape(x) + ("\"" + s), Escape(y) + ("\"" + t);
    EscapeStarts(x, s);
    EscapeStarts(y, t);
    if x == [] {
      assert u == "\"" + s && v == "\"" + t;
      Cancel("\"", s, t);
    } else {
      assert u == EscapeByte(x[0]) + (Escape(x[1..]) + ("\"" + s));
      assert v == EscapeByte(y[0]) + (Escape(y[1..]) + ("\"" + t));
      EscapeByteCancel(x[0], y[0], Escape(x[1..]) + ("\"" + s), Escape(y[1..]) + ("\"" + t));
      EscapeCancel(x[1..], y[1..], s, t);
    }
  }

  // ---- Tokens --------------------------------------------------------------------------------

  datatype Token = Text(text: string) | Number(n: nat, width: nat) | Word(level: int) | Quoted(span: seq<byte>)

  function Show(t: Token): string
  {
    match t
    case Text(s) => s
    case Number(n, width) => Padded(n, width)
    case Word(level) => LevelName(level)
    case Quoted(span) => Quote(span)
  }

  function Emit(ts: seq<Token>): (s: string)
  {
    if ts == [] then "" else Show(ts[0]) + Emit(ts[1..])
  }

  predicate Alike(a: Token, b: Token)
  {
    match a
    case Text(s) => b == a
    case Number(_, width) => b.Number? && b.width == width
    case Word(_) => b.Word?
    case Quoted(_) => b.Quoted?
  }

  predicate TokenOk(t: Token)
  {
    match t
    case Text(s) => s != "" && !IsDigit(s[0])
    case Number(n, width) => width == 0 || n < Pow10(width)
    case Word(level) => LevelValid(level)
    case Quoted(_) => true
  }

  /** A number of no fixed width is followed by text, which never starts with a digit. */
  predicate Readable(ts: seq<Token>)
  {
    && (forall i :: 0 <= i < |ts| ==> TokenOk(ts[i]))
    && (forall i :: 0 <= i < |ts| && ts[i].Number? && ts[i].width == 0 ==> i + 1 < |ts| && ts[i + 1].Text?)
  }

  predicate StopsDigits(s: string)
  {
    s != "" && !IsDigit(s[0])
  }

  lemma DigitsCancel(n: nat, m: nat, s: string, t: string)
    requires Digits(n) + s == Digits(m) + t && StopsDigits(s) && StopsDigits(t)
    ensures n == m && s == t
  {
    var a, b := Digits(n), Digits(m);
    hide DigitRun;
    RunOf(a, s);
    RunOf(b, t);
    CancelEqual(a, b, s, t);
    DigitsValue(n);
    DigitsValue(m);
  }

  lemma WordCancel(x: int, y: int, s: string, t: string)
    requires LevelValid(x) && LevelValid(y) && LevelName(x) + s == LevelName(y) + t
    ensures x == y && s == t
  {
    assert (LevelName(x) + s)[0] == LevelName(x)[0] && (LevelName(y) + t)[0] == LevelName(y)[0];
    Cancel(LevelName(x), s, t);
  }

  lemma QuoteThen(x: seq<byte>, s: string)
    ensures Quote(x) + s == "\"" + (Escape(x) + ("\"" + s))
  {
    hide Escape;
  }

  lemma QuoteCancel(x: seq<byte>, y: seq<byte>, s: string, t: string)
    requires Quote(x) + s == Quote(y) + t
    ensures x == y && s == t
  {
    hide Escape;
    QuoteThen(x, s);
    QuoteThen(y, t);
    Cancel("\"", Escape(x) + ("\"" + s), Escape(y) + ("\"" + t));
    EscapeCancel(x, y, s, t);
  }

  /** Tokens of the same kind can be told apart from what follows them. */
  lemma ShowCancel(a: Token, b: Token, s: string, t: string)
    requires Alike(a, b) && TokenOk(a) && TokenOk(b) && Show(a) + s == Show(b) + t
    requires a.Number? && a.width == 0 ==> StopsDigits(s) && StopsDigits(t)
    ensures a == b && s == t
  {
    hide Quote, LevelName, Padded, Digits;
    match a
    case Text(_) => Cancel(a.text, s, t);
    case Number(n, width) =>
      if width == 0 {
        UnpaddedIsDigits(a.n);
        UnpaddedIsDigits(b.n);
        DigitsCancel(a.n, b.n, s, t);
      } else {
        PaddedLength(a.n, width);
        PaddedLength(b.n, width);
        CancelEqual(Padded(a.n, width), Padded(b.n, width), s, t);
        PaddedValue(a.n, width);
        PaddedValue(b.n, width);
      }
    case Word(_) => WordCancel(a.level, b.level, s, t);
    case Quoted(_) => QuoteCancel(a.span, b.span, s, t);
  }

  lemma UnpaddedIsDigits(n: nat)
    ensures Padded(n, 0) == Digits(n)
  {
  }

  /** A list of tokens of known kinds can be read back in only one way. */
  lemma {:induction false} UniquelyReadable(a: seq<Token>, b: seq<Token>)
    requires |a| == |b| && (forall i :: 0 <= i < |a| ==> Alike(a[i], b[i])) && Readable(a) && Readable(b) && Emit(a) == Emit(b)
    ensures a == b
  {
    hide Show, TokenOk;
    if a != [] {
      NextStops(a);
      NextStops(b);
      ShowCancel(a[0], b[0], Emit(a[1..]), Emit(b[1..]));
      UniquelyReadable(a[1..], b[1..]);
      assert a == [a[0]] + a[1..] && b == [b[0]] + b[1..];
    }
  }

  lemma NextStops(a: seq<Token>)
    requires Readable(a) && a != []
    ensures a[0].Number? && a[0].width == 0 ==> StopsDigits(Emit(a[1..]))
    ensures Readable(a[1..])
  {
    var rest := a[1..];
    assert forall i :: 0 <= i < |rest| ==> rest[i] == a[i + 1];
    if a[0].Number? && a[0].width == 0 {
      assert rest[0].Text? && TokenOk(rest[0]);
      assert Emit(rest)[0] == rest[0].text[0];
    }
  }

  // ---- The line ------------------------------------------------------------------------------

  function StampTokens(t: Timestamp): seq<Token>
  {
    [Number(t.year, 4), Text("-"), Number(t.month, 2), Text("-"), Number(t.day, 2), Text("T"), Number(t.hour, 2), Text(":"),
     Number(t.minute, 2), Text(":"), Number(t.second, 2), Text("."), Number(t.nanosecond, 9)]
  }

  function BodyTokens(r: Record, tid: nat): seq<Token>
  {
    [Text("Z level="), Word(r.level), Text(" tid="), Number(tid, 0), Text(" module="), Quoted(r.module_),
     Text(" connection_id="), Number(r.connection, 0), Text(" generation="), Number(r.generation, 0),
     Text(" sequence="), Number(r.sequence, 0), Text(" request_id="), Quoted(r.request), Text(" task_id="), Quoted(r.task),
     Text(" message="), Quoted(r.message)]
  }

  function LineTokens(r: Record, t: Timestamp, tid: nat): seq<Token>
  {
    StampTokens(t) + BodyTokens(r, tid) + [Text("\n")]
  }

  function Render(r: Record, t: Timestamp, tid: nat): string
  {
    Emit(LineTokens(r, t, tid))
  }

  lemma StampFits(t: Timestamp)
    requires TimestampValid(t)
    ensures t.year < Pow10(4) && t.month < Pow10(2) && t.day < Pow10(2) && t.hour < Pow10(2) && t.minute < Pow10(2) && t.second < Pow10(2) && t.nanosecond < Pow10(9)
  {
    Powers();
  }

  lemma Powers()
    ensures Pow10(2) == 100 && Pow10(4) == 10_000 && Pow10(9) == 1_000_000_000 && Pow10(20) == 100_000_000_000_000_000_000
  {
    assert Pow10(4) == 100 * Pow10(2);
    assert Pow10(9) == 100_000 * Pow10(4) by { assert Pow10(7) == 1000 * Pow10(4); }
    assert Pow10(20) == 1_000_000_000 * 100 * Pow10(9) by {
      assert Pow10(12) == 1000 * Pow10(9);
      assert Pow10(15) == 1000 * Pow10(12);
      assert Pow10(18) == 1000 * Pow10(15);
    }
  }

  lemma LineReadable(r: Record, t: Timestamp, tid: nat)
    requires TimestampValid(t) && LevelValid(r.level)
    ensures Readable(LineTokens(r, t, tid))
  {
    hide Pow10;
    StampFits(t);
  }

  /** Distinct valid inputs give distinct lines. */
  lemma LinesAreUnambiguous(r: Record, t: Timestamp, tid: nat, r': Record, t': Timestamp, tid': nat)
    requires TimestampValid(t) && LevelValid(r.level) && TimestampValid(t') && LevelValid(r'.level)
    requires Render(r, t, tid) == Render(r', t', tid')
    ensures r == r' && t == t' && tid == tid'
  {
    hide Readable, Emit, Show, TimestampValid;
    hide StampTokens, BodyTokens, Alike;
    var a, b := LineTokens(r, t, tid), LineTokens(r', t', tid');
    LineReadable(r, t, tid);
    LineReadable(r', t', tid');
    StampAlike(t, t');
    BodyAlike(r, tid, r', tid');
    LineAlike(a, b, StampTokens(t), BodyTokens(r, tid), StampTokens(t'), BodyTokens(r', tid'));
    UniquelyReadable(a, b);
    assert StampTokens(t) == a[..13] && StampTokens(t') == b[..13];
    assert BodyTokens(r, tid) == a[13..31] && BodyTokens(r', tid') == b[13..31];
    StampDetermines(t, t');
    BodyDetermines(r, tid, r', tid');
  }

  lemma StampAlike(t: Timestamp, t': Timestamp)
    ensures |StampTokens(t)| == |StampTokens(t')| == 13
    ensures forall i :: 0 <= i < 13 ==> Alike(StampTokens(t)[i], StampTokens(t')[i])
  {
  }

  lemma BodyAlike(r: Record, tid: nat, r': Record, tid': nat)
    ensures |BodyTokens(r, tid)| == |BodyTokens(r', tid')| == 18
    ensures forall i :: 0 <= i < 18 ==> Alike(BodyTokens(r, tid)[i], BodyTokens(r', tid')[i])
  {
  }

  lemma LineAlike(a: seq<Token>, b: seq<Token>, s: seq<Token>, c: seq<Token>, s': seq<Token>, c': seq<Token>)
    requires |s| == |s'| && |c| == |c'| && a == s + c + [Text("\n")] && b == s' + c' + [Text("\n")]
    requires forall i :: 0 <= i < |s| ==> Alike(s[i], s'[i])
    requires forall i :: 0 <= i < |c| ==> Alike(c[i], c'[i])
    ensures |a| == |b| && forall i :: 0 <= i < |a| ==> Alike(a[i], b[i])
  {
  }

  lemma StampDetermines(t: Timestamp, t': Timestamp)
    requires StampTokens(t) == StampTokens(t')
    ensures t == t'
  {
    var a, b := StampTokens(t), StampTokens(t');
    assert a[0] == b[0] && a[2] == b[2] && a[4] == b[4] && a[6] == b[6] && a[8] == b[8] && a[10] == b[10] && a[12] == b[12];
  }

  lemma BodyDetermines(r: Record, tid: nat, r': Record, tid': nat)
    requires BodyTokens(r, tid) == BodyTokens(r', tid')
    ensures r == r' && tid == tid'
  {
    var a, b := BodyTokens(r, tid), BodyTokens(r', tid');
    assert a[1] == b[1] && a[3] == b[3] && a[5] == b[5] && a[7] == b[7] && a[9] == b[9] && a[11] == b[11] && a[13] == b[13] && a[15] == b[15] && a[17] == b[17];
  }

  // ---- Shape ---------------------------------------------------------------------------------

  lemma ShowShape(t: Token)
    requires TokenOk(t) && (t.Text? ==> Printable(t.text))
    ensures Printable(Show(t))
  {
    hide Quote, Padded;
    match t
    case Text(_) =>
    case Number(n, width) =>
    case Word(_) =>
    case Quoted(span) =>
      EscapeShape(span);
      assert Quote(span) == "\"" + Escape(span) + "\"" by { QuoteIs(span); }
  }

  lemma QuoteIs(span: seq<byte>)
    ensures Quote(span) == "\"" + Escape(span) + "\"" && |Quote(span)| <= 2 + 4 * |span|
  {
    EscapeShape(span);
  }

  lemma {:induction false} EmitShape(ts: seq<Token>)
    requires forall i :: 0 <= i < |ts| ==> TokenOk(ts[i]) && (ts[i].Text? ==> Printable(ts[i].text))
    ensures Printable(Emit(ts))
  {
    hide Show, TokenOk, Printable;
    if ts != [] {
      ShowShape(ts[0]);
      EmitShape(ts[1..]);
      PrintableConcat(Show(ts[0]), Emit(ts[1..]));
    } else {
      PrintableConcat("", "");
    }
  }

  lemma PrintableConcat(a: string, b: string)
    ensures Printable(a) && Printable(b) ==> Printable(a + b)
    ensures Printable("")
  {
  }

  lemma {:induction false} EmitConcat(a: seq<Token>, b: seq<Token>)
    ensures Emit(a + b) == Emit(a) + Emit(b)
  {
    hide Show;
    if a == [] {
      assert a + b == b;
      assert "" + Emit(b) == Emit(b);
    } else {
      EmitConcat(a[1..], b);
      assert (a + b)[1..] == a[1..] + b;
      assert Show(a[0]) + (Emit(a[1..]) + Emit(b)) == (Show(a[0]) + Emit(a[1..])) + Emit(b);
    }
  }

  /** Exactly one line feed, at the very end; every other byte is printable ASCII. */
  lemma OneLineFeed(r: Record, t: Timestamp, tid: nat)
    requires TimestampValid(t) && LevelValid(r.level)
    ensures var line := Render(r, t, tid);
            && line != "" && line[|line| - 1] == '\n'
            && Printable(line[..|line| - 1]) && (forall i :: 0 <= i < |line| - 1 ==> line[i] != '\n')
  {
    hide Emit, TokenOk, TimestampValid;
    var body := StampTokens(t) + BodyTokens(r, tid);
    EmitConcat(body, [Text("\n")]);
    EmitOne(Text("\n"));
    TextsPrintable(r, t, tid);
    EmitShape(body);
    var line := Render(r, t, tid);
    assert line == Emit(body) + "\n";
    assert line[..|line| - 1] == Emit(body);
  }

  lemma TextsPrintable(r: Record, t: Timestamp, tid: nat)
    requires TimestampValid(t) && LevelValid(r.level)
    ensures var body := StampTokens(t) + BodyTokens(r, tid);
            forall i :: 0 <= i < |body| ==> TokenOk(body[i]) && (body[i].Text? ==> Printable(body[i].text))
  {
    hide StampTokens, BodyTokens, TokenOk, Printable;
    StampPrintable(t);
    BodyPrintable(r, tid);
    var body := StampTokens(t) + BodyTokens(r, tid);
    forall i | 0 <= i < |body| ensures TokenOk(body[i]) && (body[i].Text? ==> Printable(body[i].text)) {
      if i < |StampTokens(t)| { assert body[i] == StampTokens(t)[i]; } else { assert body[i] == BodyTokens(r, tid)[i - |StampTokens(t)|]; }
    }
  }

  lemma StampPrintable(t: Timestamp)
    requires TimestampValid(t)
    ensures var s := StampTokens(t); forall i :: 0 <= i < |s| ==> TokenOk(s[i]) && (s[i].Text? ==> Printable(s[i].text))
  {
    hide Pow10;
    StampFits(t);
  }

  lemma BodyPrintable(r: Record, tid: nat)
    requires LevelValid(r.level)
    ensures var s := BodyTokens(r, tid); forall i :: 0 <= i < |s| ==> TokenOk(s[i]) && (s[i].Text? ==> Printable(s[i].text))
  {
    hide Pow10;
  }

  lemma EmitOne(t: Token)
    ensures Emit([t]) == Show(t)
  {
    assert [t][1..] == [] && Emit([]) == "";
    assert Show(t) + "" == Show(t);
  }

  // ---- Size ----------------------------------------------------------------------------------

  /** The most characters a token can take. */
  function Longest(t: Token): nat
  {
    match t
    case Text(s) => |s|
    case Number(_, width) => if width == 0 then 20 else width
    case Word(_) => 7
    case Quoted(span) => 2 + 4 * |span|
  }

  function LongestSum(ts: seq<Token>): nat
  {
    if ts == [] then 0 else Longest(ts[0]) + LongestSum(ts[1..])
  }

  lemma {:induction false} EmitBound(ts: seq<Token>)
    requires forall i :: 0 <= i < |ts| ==> TokenOk(ts[i]) && (ts[i].Number? ==> ts[i].n <= U64_MAX)
    ensures |Emit(ts)| <= LongestSum(ts)
  {
    hide Show, TokenOk;
    if ts != [] {
      ShowBound(ts[0]);
      EmitBound(ts[1..]);
    }
  }

  lemma ShowBound(t: Token)
    requires TokenOk(t) && (t.Number? ==> t.n <= U64_MAX)
    ensures |Show(t)| <= Longest(t)
  {
    hide Quote, Padded, Pow10;
    match t
    case Text(_) =>
    case Number(n, width) =>
      if width == 0 {
        UnpaddedIsDigits(n);
        Powers();
        DigitsLength(n, 20);
      } else {
        PaddedLength(n, width);
      }
    case Word(_) =>
    case Quoted(span) => QuoteIs(span);
  }

  lemma {:induction false} LongestConcat(a: seq<Token>, b: seq<Token>)
    ensures LongestSum(a + b) == LongestSum(a) + LongestSum(b)
  {
    if a == [] {
      assert a + b == b;
    } else {
      LongestConcat(a[1..], b);
      assert (a + b)[1..] == a[1..] + b;
    }
  }

  lemma LongestStep(t: Token, rest: seq<Token>)
    ensures LongestSum([t] + rest) == Longest(t) + LongestSum(rest)
  {
    assert ([t] + rest)[1..] == rest;
  }

  lemma LongestOne(t: Token)
    ensures LongestSum([t]) == Longest(t)
  {
    LongestStep(t, []);
    assert [t] + [] == [t];
  }

  /** No valid record can overrun the line limit, so the limit never refuses one. */
  lemma LineAlwaysFits(r: Record, t: Timestamp, tid: nat)
    requires TimestampValid(t) && LevelValid(r.level) && SpansValid(r) && r.sequence <= U32_MAX && tid <= U64_MAX
    ensures |Render(r, t, tid)| < LINE_MAX
  {
    hide Emit, Pow10, LongestSum;
    var ts := LineTokens(r, t, tid);
    NumbersFit(r, t, tid);
    EmitBound(ts);
    StampSize(t);
    BodySize(r, tid);
    LongestConcat(StampTokens(t), BodyTokens(r, tid));
    LongestConcat(StampTokens(t) + BodyTokens(r, tid), [Text("\n")]);
    LongestOne(Text("\n"));
  }

  lemma NumbersFit(r: Record, t: Timestamp, tid: nat)
    requires TimestampValid(t) && LevelValid(r.level) && r.sequence <= U32_MAX && tid <= U64_MAX
    ensures var ts := LineTokens(r, t, tid); forall i :: 0 <= i < |ts| ==> TokenOk(ts[i]) && (ts[i].Number? ==> ts[i].n <= U64_MAX)
  {
    hide Pow10;
    StampFits(t);
  }

  lemma StampSize(t: Timestamp)
    ensures LongestSum(StampTokens(t)) == 29
  {
    var a := [Number(t.year, 4), Text("-"), Number(t.month, 2), Text("-"), Number(t.day, 2), Text("T")];
    var b := [Number(t.hour, 2), Text(":"), Number(t.minute, 2), Text(":"), Number(t.second, 2), Text("."), Number(t.nanosecond, 9)];
    assert StampTokens(t) == a + b;
    LongestConcat(a, b);
    SumSix(a);
    SumSix(b[..6]);
    LongestConcat(b[..6], b[6..]);
    assert b == b[..6] + b[6..];
    LongestOne(b[6]);
    assert b[6..] == [b[6]];
  }

  lemma SumSix(ts: seq<Token>)
    requires |ts| == 6
    ensures LongestSum(ts) == Longest(ts[0]) + Longest(ts[1]) + Longest(ts[2]) + Longest(ts[3]) + Longest(ts[4]) + Longest(ts[5])
  {
    hide Longest;
    SumThree(ts[..3]);
    SumThree(ts[3..]);
    LongestConcat(ts[..3], ts[3..]);
    assert ts == ts[..3] + ts[3..];
  }

  lemma SumThree(ts: seq<Token>)
    requires |ts| == 3
    ensures LongestSum(ts) == Longest(ts[0]) + Longest(ts[1]) + Longest(ts[2])
  {
    hide Longest;
    assert ts[1..][1..] == [ts[2]];
    LongestOne(ts[2]);
  }

  lemma BodySize(r: Record, tid: nat)
    ensures LongestSum(BodyTokens(r, tid)) == 8 + 7 + 5 + 20 + 8 + Longest(Quoted(r.module_)) + 15 + 20 + 12 + 20 + 10 + 20 + 12 + Longest(Quoted(r.request)) + 9 + Longest(Quoted(r.task)) + 9 + Longest(Quoted(r.message))
  {
    var ts := BodyTokens(r, tid);
    var a, b, c := ts[..6], ts[6..12], ts[12..];
    assert ts == a + b + c;
    LongestConcat(a, b);
    LongestConcat(a + b, c);
    SumSix(a);
    SumSix(b);
    SumSix(c);
  }

  // ---- RFC 3339 ------------------------------------------------------------------------------

  /** A UTC date-time as section 5.6 of RFC 3339 writes it, with nine fraction digits and only dates that exist. */
  predicate IsDateTime(s: string)
  {
    && |s| == 30
    && AllDigits(s[0..4]) && s[4] == '-' && AllDigits(s[5..7]) && s[7] == '-' && AllDigits(s[8..10]) && s[10] == 'T'
    && AllDigits(s[11..13]) && s[13] == ':' && AllDigits(s[14..16]) && s[16] == ':' && AllDigits(s[17..19]) && s[19] == '.' && AllDigits(s[20..29]) && s[29] == 'Z'
    && 1 <= Value(s[5..7]) <= 12 && 0 <= Value(s[0..4]) && 1 <= Value(s[8..10]) <= DaysIn(Value(s[0..4]), Value(s[5..7]))
    && Value(s[11..13]) <= 23 && Value(s[14..16]) <= 59 && Value(s[17..19]) <= 59
  }

  function DateTime(t: Timestamp): string
  {
    Padded(t.year, 4) + "-" + Padded(t.month, 2) + "-" + Padded(t.day, 2) + "T" + Padded(t.hour, 2) + ":" + Padded(t.minute, 2) + ":" + Padded(t.second, 2) + "." + Padded(t.nanosecond, 9)
  }

  lemma EmitStamp(t: Timestamp)
    ensures Emit(StampTokens(t)) == DateTime(t)
  {
    hide Padded, Emit;
    var a := [Number(t.year, 4), Text("-"), Number(t.month, 2), Text("-"), Number(t.day, 2), Text("T")];
    var b := [Number(t.hour, 2), Text(":"), Number(t.minute, 2), Text(":"), Number(t.second, 2), Text(".")];
    var c := [Number(t.nanosecond, 9)];
    assert StampTokens(t) == a + b + c;
    EmitConcat(a, b);
    EmitConcat(a + b, c);
    EmitSix(a);
    EmitSix(b);
    EmitOne(c[0]);
    Regroup(Padded(t.year, 4) + "-" + Padded(t.month, 2) + "-" + Padded(t.day, 2) + "T",
            Padded(t.hour, 2), Padded(t.minute, 2), Padded(t.second, 2), Padded(t.nanosecond, 9));
  }

  lemma Regroup(date: string, h: string, m: string, s: string, n: string)
    ensures date + (h + ":" + m + ":" + s + ".") + n == date + h + ":" + m + ":" + s + "." + n
  {
  }

  lemma EmitSix(ts: seq<Token>)
    requires |ts| == 6
    ensures Emit(ts) == Show(ts[0]) + Show(ts[1]) + Show(ts[2]) + Show(ts[3]) + Show(ts[4]) + Show(ts[5])
  {
    hide Show;
    EmitThree(ts[..3]);
    EmitThree(ts[3..]);
    EmitConcat(ts[..3], ts[3..]);
    assert ts == ts[..3] + ts[3..];
  }

  lemma EmitThree(ts: seq<Token>)
    requires |ts| == 3
    ensures Emit(ts) == Show(ts[0]) + Show(ts[1]) + Show(ts[2])
  {
    hide Show;
    EmitOne(ts[2]);
    assert ts[1..][1..] == [ts[2]];
  }

  /** Every line starts with such a date-time, and its digits are the fields of the timestamp. */
  lemma StartsWithDateTime(r: Record, t: Timestamp, tid: nat)
    requires TimestampValid(t) && LevelValid(r.level)
    ensures |Render(r, t, tid)| >= 30
    ensures var s := Render(r, t, tid)[..30];
            && IsDateTime(s)
            && Value(s[0..4]) == t.year && Value(s[5..7]) == t.month && Value(s[8..10]) == t.day
            && Value(s[11..13]) == t.hour && Value(s[14..16]) == t.minute && Value(s[17..19]) == t.second && Value(s[20..29]) == t.nanosecond
  {
    hide Padded, Emit, Pow10, Value, DaysIn;
    StampFits(t);
    EmitConcat(StampTokens(t), BodyTokens(r, tid));
    EmitConcat(StampTokens(t) + BodyTokens(r, tid), [Text("\n")]);
    EmitStamp(t);
    FirstToken(BodyTokens(r, tid));
    PaddedLength(t.year, 4); PaddedValue(t.year, 4);
    PaddedLength(t.month, 2); PaddedValue(t.month, 2);
    PaddedLength(t.day, 2); PaddedValue(t.day, 2);
    PaddedLength(t.hour, 2); PaddedValue(t.hour, 2);
    PaddedLength(t.minute, 2); PaddedValue(t.minute, 2);
    PaddedLength(t.second, 2); PaddedValue(t.second, 2);
    PaddedLength(t.nanosecond, 9); PaddedValue(t.nanosecond, 9);
    var s := Render(r, t, tid)[..30];
    assert |DateTime(t)| == 29;
    assert s == DateTime(t) + "Z";
    DateTimeParts(t, s);
  }

  lemma FirstToken(ts: seq<Token>)
    requires ts != [] && ts[0].Text? && ts[0].text != ""
    ensures Emit(ts) != "" && Emit(ts)[0] == ts[0].text[0]
  {
  }

  lemma DateTimeParts(t: Timestamp, s: string)
    requires |Padded(t.year, 4)| == 4 && |Padded(t.month, 2)| == 2 && |Padded(t.day, 2)| == 2 && |Padded(t.hour, 2)| == 2
    requires |Padded(t.minute, 2)| == 2 && |Padded(t.second, 2)| == 2 && |Padded(t.nanosecond, 9)| == 9
    requires s == DateTime(t) + "Z"
    ensures |s| == 30 && s[4] == '-' && s[7] == '-' && s[10] == 'T' && s[13] == ':' && s[16] == ':' && s[19] == '.' && s[29] == 'Z'
    ensures s[0..4] == Padded(t.year, 4) && s[5..7] == Padded(t.month, 2) && s[8..10] == Padded(t.day, 2) && s[11..13] == Padded(t.hour, 2)
    ensures s[14..16] == Padded(t.minute, 2) && s[17..19] == Padded(t.second, 2) && s[20..29] == Padded(t.nanosecond, 9)
  {
    hide Padded;
    var y, m, d := Padded(t.year, 4), Padded(t.month, 2), Padded(t.day, 2);
    var h, n, c, f := Padded(t.hour, 2), Padded(t.minute, 2), Padded(t.second, 2), Padded(t.nanosecond, 9);
    Triple(y, m, d, "-");
    Triple(h, n, c, ":");
    var date, time := y + "-" + m + "-" + d, h + ":" + n + ":" + c;
    Nested(date, h, n, c, f);
    assert s == date + ("T" + (time + ("." + (f + "Z"))));
    Pieces(date, time, f);
  }

  lemma Triple(a: string, b: string, c: string, sep: string)
    requires |b| == 2 && |c| == 2 && |sep| == 1
    ensures var s := a + sep + b + sep + c; var k := |a|;
            |s| == k + 6 && s[..k] == a && s[k] == sep[0] && s[k + 1..k + 3] == b && s[k + 3] == sep[0] && s[k + 4..k + 6] == c
  {
  }

  lemma Nested(date: string, h: string, n: string, c: string, f: string)
    ensures date + "T" + h + ":" + n + ":" + c + "." + f + "Z" == date + ("T" + ((h + ":" + n + ":" + c) + ("." + (f + "Z"))))
  {
  }

  lemma Pieces(date: string, time: string, f: string)
    requires |date| == 10 && |time| == 8 && |f| == 9
    ensures var s := date + ("T" + (time + ("." + (f + "Z"))));
            && |s| == 30 && s[10] == 'T' && s[19] == '.' && s[29] == 'Z' && s[20..29] == f
            && (forall i :: 0 <= i < 10 ==> s[i] == date[i]) && (forall i :: 0 <= i < 8 ==> s[11 + i] == time[i])
            && (forall i, j :: 0 <= i <= j <= 10 ==> s[i..j] == date[i..j]) && (forall i, j :: 0 <= i <= j <= 8 ==> s[11 + i..11 + j] == time[i..j])
  {
  }

  // ---- The layout and reading it back --------------------------------------------------------

  /** Every field stands behind its own label, in this order. */
  lemma LineLayout(r: Record, t: Timestamp, tid: nat)
    ensures Render(r, t, tid) ==
            DateTime(t)
            + ("Z level=" + LevelName(r.level) + " tid=" + Digits(tid) + " module=" + Quote(r.module_))
            + (" connection_id=" + Digits(r.connection) + " generation=" + Digits(r.generation) + " sequence=" + Digits(r.sequence))
            + (" request_id=" + Quote(r.request) + " task_id=" + Quote(r.task) + " message=" + Quote(r.message))
            + "\n"
    ensures LevelName(0) == "DEBUG" && LevelName(1) == "INFO" && LevelName(2) == "WARN" && LevelName(3) == "ERROR"
  {
    hide Quote, Digits, Padded, Emit, LevelName;
    var b := BodyTokens(r, tid);
    EmitStamp(t);
    EmitConcat(StampTokens(t), b);
    EmitConcat(StampTokens(t) + b, [Text("\n")]);
    EmitOne(Text("\n"));
    assert b == b[..6] + b[6..12] + b[12..];
    EmitConcat(b[..6], b[6..12]);
    EmitConcat(b[..6] + b[6..12], b[12..]);
    EmitSix(b[..6]);
    EmitSix(b[6..12]);
    EmitSix(b[12..]);
    UnpaddedIsDigits(tid);
    UnpaddedIsDigits(r.connection);
    UnpaddedIsDigits(r.generation);
    UnpaddedIsDigits(r.sequence);
    LevelTable();
    Associate(DateTime(t), Emit(b[..6]), Emit(b[6..12]), Emit(b[12..]));
  }

  lemma LevelTable()
    ensures LevelName(0) == "DEBUG" && LevelName(1) == "INFO" && LevelName(2) == "WARN" && LevelName(3) == "ERROR"
  {
  }

  lemma Associate(a: string, b: string, c: string, d: string)
    ensures a + (b + c + d) + "\n" == a + b + c + d + "\n"
  {
  }

  predicate IsHex(c: char)
  {
    '0' <= c <= '9' || 'A' <= c <= 'F'
  }

  function HexValue(c: char): nat
    requires IsHex(c)
  {
    if c <= '9' then c as int - '0' as int else c as int - 'A' as int + 10
  }

  /** One byte read from the front of escaped text, and how many characters it took; none if the text is not escaped text. */
  function ReadByte(s: string): Option<(byte, nat)>
  {
    if s == "" then None
    else if s[0] != '\\' then (if ' ' <= s[0] <= '~' && s[0] != '"' then Some((s[0] as int as byte, 1)) else None)
    else if |s| < 2 then None
    else if s[1] == 'n' then Some((10, 2))
    else if s[1] == 'r' then Some((13, 2))
    else if s[1] == 't' then Some((9, 2))
    else if s[1] == '"' || s[1] == '\\' then Some((s[1] as int as byte, 2))
    else if s[1] == 'x' && |s| >= 4 && IsHex(s[2]) && IsHex(s[3]) then Some(((16 * HexValue(s[2]) + HexValue(s[3])) as byte, 4))
    else None
  }

  /** A reader written without regard to the writer. */
  function Unescape(s: string): Option<seq<byte>>
    decreases |s|
  {
    if s == "" then Some([])
    else match ReadByte(s)
      case None => None
      case Some(p) =>
        if p.1 == 0 || p.1 > |s| then None
        else match Unescape(s[p.1..])
          case None => None
          case Some(rest) => Some([p.0] + rest)
  }

  lemma ReadsOneByte(b: byte, rest: string)
    ensures ReadByte(EscapeByte(b) + rest) == Some((b, |EscapeByte(b)|))
  {
    var e := EscapeByte(b);
    var s := e + rest;
    assert s[0] == e[0];
    if |e| > 1 { assert s[1] == e[1]; }
    if |e| > 2 { assert s[2] == e[2] && s[3] == e[3]; }
  }

  /** Whatever bytes are logged, reading the escaped text gives back exactly those bytes. */
  lemma {:induction false} EscapeRoundTrip(span: seq<byte>)
    ensures Unescape(Escape(span)) == Some(span)
  {
    hide EscapeByte, ReadByte;
    if span != [] {
      var e, rest := EscapeByte(span[0]), Escape(span[1..]);
      EscapeByteShape(span[0]);
      ReadsOneByte(span[0], rest);
      assert (e + rest)[|e|..] == rest;
      EscapeRoundTrip(span[1..]);
      assert span == [span[0]] + span[1..];
    }
  }

  function DaysUpTo(year: nat, month: nat): nat
  {
    if month == 0 then 0 else DaysUpTo(year, month - 1) + DaysIn(year, month)
  }

  /** The calendar: a year has 365 days, or 366 in a leap year. */
  lemma YearLength(year: nat)
    ensures DaysUpTo(year, 12) == if year % 400 == 0 || (year % 4 == 0 && year % 100 != 0) then 366 else 365
  {
    assert DaysUpTo(year, 0) == 0 && DaysUpTo(year, 1) == 31 && DaysUpTo(year, 2) == 31 + DaysIn(year, 2);
    assert DaysUpTo(year, 4) == DaysUpTo(year, 3) + 30 && DaysUpTo(year, 3) == DaysUpTo(year, 2) + 31;
    assert DaysUpTo(year, 8) == DaysUpTo(year, 4) + 31 + 30 + 31 + 31 by { assert DaysUpTo(year, 6) == DaysUpTo(year, 4) + 61; }
    assert DaysUpTo(year, 12) == DaysUpTo(year, 8) + 30 + 31 + 30 + 31 by { assert DaysUpTo(year, 10) == DaysUpTo(year, 8) + 61; }
  }
}
