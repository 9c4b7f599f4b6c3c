/**
  Configuration text as a value: lines are settings, comments or mistakes, and a text is accepted as
  a whole or not at all. What a setting means does not depend on where it stands.
 */
module ConfigModel {
  import opened Base
  import opened LogFormat

  const TEXT_MAX: nat := 65536
  const CONFIG_LINE_MAX: nat := 2048
  const VALUE_MAX: nat := 1023
  const PATH_CAPACITY: nat := 1024
  const ADDRESS_CAPACITY: nat := 16
  const ENVIRONMENT_MAX: nat := 9

  datatype Config = Config(
    address: string, port: nat, connections: nat, workers: nat, idle: nat, stderr: bool, logSize: nat, dataDir: string, logDir: string)
  const DEFAULTS := Config("127.0.0.1", 9000, 1024, 4, 60000, true, 67108864, "/var/lib/vireo", "/var/log/vireo")

  datatype Field = FAddress | FPort | FConnections | FWorkers | FIdle | FStderr | FLogSize | FDataDir | FLogDir

  datatype Issue =
    | EmptyValue | ValueTooLong | InvalidCharacter | InvalidAddress | InvalidPath | InvalidBoolean | InvalidInteger | InvalidUnit
    | NumericOverflow | OutOfRange | LineTooLong | MissingSeparator | EmptyKey | UnknownKey | Duplicate | TextTooLarge | TooManyItems | InvalidBase

  // ---- Characters and trimming ---------------------------------------------------------------

  predicate IsSpace(c: char)
  {
    c == ' ' || c == '\t'
  }

  predicate IsControl(c: char)
  {
    c as int <= 0x1F || c as int == 0x7F
  }

  predicate HasControl(s: string)
  {
    exists i :: 0 <= i < |s| && IsControl(s[i])
  }

  predicate BadInLine(s: string)
  {
    exists i :: 0 <= i < |s| && IsControl(s[i]) && s[i] != '\t'
  }

  function TrimLeft(s: string): (t: string)
    decreases |s|
  {
    if s != "" && IsSpace(s[0]) then TrimLeft(s[1..]) else s
  }

  function TrimRight(s: string): (t: string)
    decreases |s|
  {
    if s != "" && IsSpace(s[|s| - 1]) then TrimRight(s[..|s| - 1]) else s
  }

  function Trim(s: string): (t: string)
  {
    TrimRight(TrimLeft(s))
  }

  // ---- Numbers -------------------------------------------------------------------------------

  function DigitOf(c: char): nat
    requires IsDigit(c)
  {
    c as int - '0' as int
  }

  /** One digit after another, each multiplication and addition checked; `value` is what has been read. */
  function DecimalFrom(s: string, value: size): (r: Checked)
    decreases |s|
  {
    if s == "" then Good(value)
    else if !IsDigit(s[0]) then Bad(InvalidArgument)
    else match CheckedMul(value, 10)
      case Bad(code) => Bad(code)
      case Good(tens) =>
        match CheckedAdd(tens, DigitOf(s[0]))
        case Bad(code) => Bad(code)
        case Good(next) => DecimalFrom(s[1..], next)
  }

  function Decimal(s: string): (r: Checked)
  {
    if s == "" then Bad(InvalidArgument) else DecimalFrom(s, 0)
  }

  lemma {:induction false} ValueBound(s: string)
    requires AllDigits(s)
    ensures 0 <= Value(s)
    decreases |s|
  {
    if s != "" { ValueBound(s[..|s| - 1]); }
  }

  /** What a string of digits is worth. */
  function Worth(s: string): (n: nat)
    requires AllDigits(s)
    ensures n == Value(s)
  {
    ValueBound(s);
    Value(s)
  }

  lemma {:induction false} ValueConcat(a: string, b: string)
    ensures Value(a + b) == Value(a) * Pow10(|b|) + Value(b)
    decreases |b|
  {
    if b == "" {
      assert a + b == a;
    } else {
      var n := |b| - 1;
      ValueConcat(a, b[..n]);
      assert (a + b)[..|a| + n] == a + b[..n];
      assert (a + b)[|a + b| - 1] == b[n];
      var d := b[n] as int - '0' as int;
      assert Value(b) == 10 * Value(b[..n]) + d && Value(a + b) == 10 * Value(a + b[..n]) + d && Pow10(|b|) == 10 * Pow10(n);
      Shift(Value(a), Pow10(n), Value(b[..n]), d);
    }
  }

  lemma Shift(v: int, p: int, w: int, d: int)
    ensures 10 * (v * p + w) + d == v * (10 * p) + (10 * w + d)
  {
  }

  lemma Grows(v: int, p: int)
    requires 0 <= v && 1 <= p
    ensures v <= v * p
  {
  }

  lemma PowPositive(n: nat)
    ensures 1 <= Pow10(n)
  {
  }

  /** A longer run of digits is not worth less. */
  lemma ValueGrows(a: string, b: string)
    requires AllDigits(a) && AllDigits(b)
    ensures Value(a) <= Value(a + b)
  {
    ValueConcat(a, b);
    ValueBound(a);
    ValueBound(b);
    PowPositive(|b|);
    Grows(Value(a), Pow10(|b|));
  }

  /** What is read after `done`: the true value if it fits, Overflow as soon as it does not, a syntax error at the first non-digit. */
  lemma {:induction false} DecimalFromExact(done: string, s: string)
    requires AllDigits(done) && 0 <= Value(done) <= U64_MAX
    ensures var run := done + s[..DigitRun(s)];
            DecimalFrom(s, Value(done)) ==
              if Value(run) > U64_MAX then Bad(Overflow) else if DigitRun(s) < |s| then Bad(InvalidArgument) else Good(Worth(run))
    decreases |s|
  {
    hide Value, CheckedMul, CheckedAdd;
    if s == "" {
      assert done + s[..0] == done;
    } else if !IsDigit(s[0]) {
      assert done + s[..0] == done;
    } else {
      var more := done + [s[0]];
      ValueSnoc(done, s[0]);
      var rest := s[1..];
      var run := done + s[..DigitRun(s)];
      assert run == more + rest[..DigitRun(rest)];
      if Value(more) <= U64_MAX {
        DecimalFromExact(more, rest);
      } else {
        ValueGrows(more, rest[..DigitRun(rest)]);
      }
    }
  }

  lemma ValueSnoc(done: string, c: char)
    requires IsDigit(c) && AllDigits(done)
    ensures Value(done + [c]) == 10 * Value(done) + DigitOf(c) && AllDigits(done + [c]) && 0 <= Value(done)
  {
    assert (done + [c])[..|done|] == done;
    ValueBound(done);
  }

  /** Overflow exactly when the digits read so far are worth more than 64 bits hold. */
  lemma DecimalExact(s: string)
    ensures var run := s[..DigitRun(s)];
            Decimal(s) ==
              if s == "" then Bad(InvalidArgument)
              else if Value(run) > U64_MAX then Bad(Overflow)
              else if DigitRun(s) < |s| then Bad(InvalidArgument)
              else Good(Worth(run))
  {
    if s != "" {
      DecimalFromExact("", s);
      assert "" + s[..DigitRun(s)] == s[..DigitRun(s)];
      ValueBound(s[..DigitRun(s)]);
      if DigitRun(s) == |s| { assert s[..|s|] == s; }
    }
  }

  lemma AllDigitsRun(s: string)
    requires AllDigits(s)
    ensures DigitRun(s) == |s|
  {
  }

  /** What the formatter prints, the parser reads back. */
  lemma DecimalRoundTrip(n: size)
    ensures Decimal(Digits(n)) == Good(n)
  {
    DecimalExact(Digits(n));
    AllDigitsRun(Digits(n));
    assert Digits(n)[..|Digits(n)|] == Digits(n);
    DigitsValue(n);
  }

  /** The factor a unit stands for; zero for an unknown one. */
  function SizeUnit(s: string): nat
  {
    if s == "" || s == "B" then 1 else if s == "KiB" then 1024 else if s == "MiB" then 1048576 else if s == "GiB" then 1073741824 else 0
  }

  function TimeUnit(s: string): nat
  {
    if s == "" || s == "ms" then 1 else if s == "s" then 1000 else if s == "m" then 60000 else 0
  }

  function Scaled(s: string, unit: nat): (r: Checked)
    requires unit <= SIZE_MAX
  {
    var n := DigitRun(s);
    if n == 0 || unit == 0 then Bad(InvalidArgument)
    else match Decimal(s[..n])
      case Bad(code) => Bad(code)
      case Good(value) => if value <= SIZE_MAX then CheckedMul(value, unit) else Bad(Overflow)
  }

  function SizeBytes(s: string): (r: Checked)
  {
    Scaled(s, SizeUnit(s[DigitRun(s)..]))
  }

  function DurationMs(s: string): (r: Checked)
  {
    Scaled(s, TimeUnit(s[DigitRun(s)..]))
  }

  /** Digits and a known unit: the product if it fits in 64 bits, Overflow exactly if not. */
  lemma ScaledExact(s: string, unit: nat)
    requires unit <= SIZE_MAX
    ensures var n := DigitRun(s);
            Scaled(s, unit) ==
              if n == 0 || unit == 0 then Bad(InvalidArgument)
              else if Value(s[..n]) * unit > U64_MAX then Bad(Overflow)
              else Good(Worth(s[..n]) * unit)
  {
    var n := DigitRun(s);
    var run := s[..n];
    DecimalExact(run);
    AllDigitsRun(run);
    assert run[..|run|] == run;
    ValueBound(run);
    if unit != 0 { Grows(Value(run), unit); }
  }

  /** Sizes and durations: digits times the unit that follows them, exact up to 64 bits. */
  lemma UnitsExact(s: string)
    ensures var n := DigitRun(s);
            var size, time := Worth(s[..n]) * SizeUnit(s[n..]), Worth(s[..n]) * TimeUnit(s[n..]);
            && (n == 0 || SizeUnit(s[n..]) == 0 ==> SizeBytes(s) == Bad(InvalidArgument))
            && (n != 0 && SizeUnit(s[n..]) != 0 ==> SizeBytes(s) == if size > U64_MAX then Bad(Overflow) else Good(size))
            && (n == 0 || TimeUnit(s[n..]) == 0 ==> DurationMs(s) == Bad(InvalidArgument))
            && (n != 0 && TimeUnit(s[n..]) != 0 ==> DurationMs(s) == if time > U64_MAX then Bad(Overflow) else Good(time))
  {
    hide Scaled, DigitRun;
    ScaledExact(s, SizeUnit(s[DigitRun(s)..]));
    ScaledExact(s, TimeUnit(s[DigitRun(s)..]));
  }

  // ---- Addresses -----------------------------------------------------------------------------

  predicate OctetOk(p: string)
  {
    1 <= |p| <= 3 && AllDigits(p) && (|p| > 1 ==> p[0] != '0') && Value(p) <= 255
  }

  /** `parts` numbers separated by dots, and nothing after them. */
  predicate AddressFrom(s: string, parts: nat)
    decreases parts
  {
    var n := DigitRun(s);
    && OctetOk(s[..n])
    && if parts <= 1 then n == |s| else n < |s| && s[n] == '.' && AddressFrom(s[n + 1..], parts - 1)
  }

  predicate Ipv4Valid(s: string)
  {
    AddressFrom(s, 4)
  }

  /** dec-octet of section 3.2.2 of RFC 3986, alternative by alternative. */
  predicate DecOctet(p: string)
  {
    || (|p| == 1 && IsDigit(p[0]))
    || (|p| == 2 && '1' <= p[0] <= '9' && IsDigit(p[1]))
    || (|p| == 3 && p[0] == '1' && IsDigit(p[1]) && IsDigit(p[2]))
    || (|p| == 3 && p[0] == '2' && '0' <= p[1] <= '4' && IsDigit(p[2]))
    || (|p| == 3 && p[0] == '2' && p[1] == '5' && '0' <= p[2] <= '5')
  }

  ghost predicate Dotted(s: string, a: string, b: string, c: string, d: string)
  {
    DecOctet(a) && DecOctet(b) && DecOctet(c) && DecOctet(d) && s == a + ("." + (b + ("." + (c + ("." + d)))))
  }

  /** IPv4address of the same section. */
  ghost predicate Ipv4Address(s: string)
  {
    exists a, b, c, d :: Dotted(s, a, b, c, d)
  }

  lemma OctetIsDecOctet(p: string)
    ensures OctetOk(p) <==> DecOctet(p)
  {
    if |p| == 1 {
      ShortValue(p);
    } else if |p| == 2 {
      ShortValue(p[..1]);
    } else if |p| == 3 {
      var q := p[..2];
      ShortValue(q[..1]);
      assert Value(p) == 10 * Value(q) + (p[2] as int - '0' as int) && Value(q) == 10 * Value(q[..1]) + (p[1] as int - '0' as int);
    }
  }

  lemma ShortValue(p: string)
    requires |p| == 1
    ensures Value(p) == p[0] as int - '0' as int
  {
    assert p[..0] == "";
  }

  /** A number followed by a dot is cut at the dot. */
  lemma RunAtDot(a: string, rest: string)
    requires DecOctet(a)
    ensures DigitRun(a) == |a| && DigitRun(a + ("." + rest)) == |a|
    ensures (a + ("." + rest))[..|a|] == a && (a + ("." + rest))[|a| + 1..] == rest
  {
    hide DigitRun;
    DecOctetDigits(a);
    hide DecOctet;
    RunOf(a, "");
    assert a + "" == a;
    RunOf(a, "." + rest);
  }

  lemma DecOctetDigits(a: string)
    ensures DecOctet(a) ==> AllDigits(a)
  {
  }

  lemma AddressStep(a: string, rest: string, parts: nat)
    requires DecOctet(a) && parts > 1
    ensures AddressFrom(a + ("." + rest), parts) <==> AddressFrom(rest, parts - 1)
  {
    RunAtDot(a, rest);
    OctetIsDecOctet(a);
  }

  lemma AddressCut(s: string, parts: nat) returns (a: string, rest: string)
    requires AddressFrom(s, parts) && parts > 1
    ensures DecOctet(a) && s == a + ("." + rest) && AddressFrom(rest, parts - 1)
  {
    var n := DigitRun(s);
    a, rest := s[..n], s[n + 1..];
    OctetIsDecOctet(a);
    assert s == s[..n] + ([s[n]] + s[n + 1..]);
  }

  /** The accepted addresses are exactly the IPv4address strings of RFC 3986. */
  lemma AddressesAreRfc3986(s: string)
    ensures Ipv4Valid(s) <==> Ipv4Address(s)
  {
    hide AddressFrom, DecOctet;
    if Ipv4Valid(s) {
      var a, r1 := AddressCut(s, 4);
      var b, r2 := AddressCut(r1, 3);
      var c, d := AddressCut(r2, 2);
      LastOctet(d);
      assert Dotted(s, a, b, c, d);
    }
    if Ipv4Address(s) {
      var a, b, c, d :| Dotted(s, a, b, c, d);
      AddressStep(a, b + ("." + (c + ("." + d))), 4);
      AddressStep(b, c + ("." + d), 3);
      AddressStep(c, d, 2);
      LastOctet(d);
    }
  }

  lemma LastOctet(d: string)
    ensures AddressFrom(d, 1) <==> DecOctet(d)
  {
    OctetIsDecOctet(d);
    if DecOctet(d) { RunAtDot(d, ""); assert d[..|d|] == d; }
    if AddressFrom(d, 1) { assert d[..|d|] == d; }
  }

  lemma DecOctetShort(p: string)
    ensures DecOctet(p) ==> 1 <= |p| <= 3
  {
  }

  /** So an address always fits its field. */
  lemma AddressFits(s: string)
    ensures Ipv4Valid(s) ==> |s| < ADDRESS_CAPACITY
  {
    hide DecOctet, AddressFrom;
    AddressesAreRfc3986(s);
    if Ipv4Valid(s) {
      var a, b, c, d :| Dotted(s, a, b, c, d);
      DecOctetShort(a);
      DecOctetShort(b);
      DecOctetShort(c);
      DecOctetShort(d);
    }
  }

  predicate PathValid(s: string)
  {
    s != "" && s[0] == '/' && !HasControl(s)
  }

  // ---- Settings ------------------------------------------------------------------------------

  datatype Setting = Words(field: Field, text: string) | Figure(field: Field, n: nat) | Flag(on: bool)
  datatype Interpreted = Means(setting: Setting) | Refused(code: Code, issue: Issue)

  function Lowest(f: Field): nat
  {
    if f == FLogSize then 1048576 else 1
  }

  function Highest(f: Field): nat
  {
    match f
    case FPort => 65535
    case FConnections => 65536
    case FWorkers => 256
    case FIdle => 86400000
    case FLogSize => 1073741824
    case _ => 0
  }

  function Numeric(f: Field, s: string): (r: Interpreted)
  {
    var value := if f == FIdle then DurationMs(s) else if f == FLogSize then SizeBytes(s) else Decimal(s);
    match value
    case Bad(code) => Refused(code, if code == Overflow then NumericOverflow else if f in {FIdle, FLogSize} then InvalidUnit else InvalidInteger)
    case Good(n) => if n < Lowest(f) || n > Highest(f) then Refused(Range, OutOfRange) else Means(Figure(f, n))
  }

  /** What a value means for a field; the configuration it is meant for does not matter. */
  function Interpret(f: Field, s: string): (r: Interpreted)
  {
    if s == "" then Refused(InvalidArgument, EmptyValue)
    else if |s| > VALUE_MAX then Refused(Range, ValueTooLong)
    else if HasControl(s) then Refused(InvalidArgument, InvalidCharacter)
    else match f
      case FAddress =>
        if !Ipv4Valid(s) then Refused(InvalidArgument, InvalidAddress)
        else if |s| >= ADDRESS_CAPACITY then Refused(Range, ValueTooLong) else Means(Words(f, s))
      case FDataDir => if !PathValid(s) then Refused(InvalidArgument, InvalidPath) else if |s| >= PATH_CAPACITY then Refused(Range, ValueTooLong) else Means(Words(f, s))
      case FLogDir => if !PathValid(s) then Refused(InvalidArgument, InvalidPath) else if |s| >= PATH_CAPACITY then Refused(Range, ValueTooLong) else Means(Words(f, s))
      case FStderr => if s == "true" then Means(Flag(true)) else if s == "false" then Means(Flag(false)) else Refused(InvalidArgument, InvalidBoolean)
      case _ => Numeric(f, s)
  }

  function FieldOf(s: Setting): Field
  {
    match s
    case Words(f, _) => f
    case Figure(f, _) => f
    case Flag(_) => FStderr
  }

  function Put(c: Config, s: Setting): Config
  {
    match s
    case Words(f, t) => if f == FAddress then c.(address := t) else if f == FDataDir then c.(dataDir := t) else if f == FLogDir then c.(logDir := t) else c
    case Figure(f, n) =>
      if f == FPort then c.(port := n) else if f == FConnections then c.(connections := n) else if f == FWorkers then c.(workers := n)
      else if f == FIdle then c.(idle := n) else if f == FLogSize then c.(logSize := n) else c
    case Flag(on) => c.(stderr := on)
  }

  /** The value a configuration has for a field. */
  function Read(c: Config, f: Field): Setting
  {
    match f
    case FAddress => Words(f, c.address)
    case FPort => Figure(f, c.port)
    case FConnections => Figure(f, c.connections)
    case FWorkers => Figure(f, c.workers)
    case FIdle => Figure(f, c.idle)
    case FStderr => Flag(c.stderr)
    case FLogSize => Figure(f, c.logSize)
    case FDataDir => Words(f, c.dataDir)
    case FLogDir => Words(f, c.logDir)
  }

  lemma ReadsDetermine(c: Config, d: Config)
    requires forall f :: Read(c, f) == Read(d, f)
    ensures c == d
  {
    assert Read(c, FAddress) == Read(d, FAddress) && Read(c, FPort) == Read(d, FPort) && Read(c, FConnections) == Read(d, FConnections);
    assert Read(c, FWorkers) == Read(d, FWorkers) && Read(c, FIdle) == Read(d, FIdle) && Read(c, FStderr) == Read(d, FStderr);
    assert Read(c, FLogSize) == Read(d, FLogSize) && Read(c, FDataDir) == Read(d, FDataDir) && Read(c, FLogDir) == Read(d, FLogDir);
  }

  lemma InterpretField(f: Field, s: string)
    ensures Interpret(f, s).Means? ==> FieldOf(Interpret(f, s).setting) == f
    ensures forall c, g :: Interpret(f, s).Means? ==> Read(Put(c, Interpret(f, s).setting), g) == if g == f then Interpret(f, s).setting else Read(c, g)
  {
    hide Ipv4Valid, PathValid, HasControl, Decimal, DurationMs, SizeBytes;
  }

  /** Ranges, address and paths, as the final check sees them. */
  function Validate(c: Config): (code: Code)
  {
    if |c.address| >= ADDRESS_CAPACITY then Range
    else if !Ipv4Valid(c.address) then InvalidArgument
    else if c.port < 1 || c.port > 65535 then Range
    else if c.connections < 1 || c.connections > 65536 then Range
    else if c.workers < 1 || c.workers > 256 then Range
    else if c.idle < 1 || c.idle > 86400000 then Range
    else if c.logSize < 1048576 || c.logSize > 1073741824 then Range
    else if |c.dataDir| >= PATH_CAPACITY then Range
    else if !PathValid(c.dataDir) then InvalidArgument
    else if |c.logDir| >= PATH_CAPACITY then Range
    else if !PathValid(c.logDir) then InvalidArgument
    else Ok
  }

  /** Every accepted setting keeps a valid configuration valid. */
  lemma AssignKeepsValid(c: Config, f: Field, s: string)
    requires Validate(c) == Ok && Interpret(f, s).Means?
    ensures Validate(Put(c, Interpret(f, s).setting)) == Ok
  {
    hide Ipv4Valid, PathValid, HasControl, Decimal, DurationMs, SizeBytes;
    AddressFits(s);
  }

  lemma DefaultsValid()
    ensures Validate(DEFAULTS) == Ok
  {
    hide Ipv4Valid, Ipv4Address;
    AddressesAreRfc3986(DEFAULTS.address);
    DefaultAddress();
    assert PathValid(DEFAULTS.dataDir) && PathValid(DEFAULTS.logDir);
  }

  lemma DefaultAddress()
    ensures Ipv4Address(DEFAULTS.address)
  {
    var rest := "0" + ("." + ("0" + ("." + "1")));
    assert DEFAULTS.address == "127" + ("." + rest);
    assert Dotted(DEFAULTS.address, "127", "0", "0", "1");
  }

  // ---- Lines ---------------------------------------------------------------------------------

  /** What a line or an environment entry asks for. */
  datatype Meaning = Skip | Assign(field: Field, value: string) | Reject(code: Code, issue: Issue)

  function FieldFromKey(key: string): Option<Field>
  {
    if key == "listen_address" then Some(FAddress) else if key == "listen_port" then Some(FPort)
    else if key == "max_connections" then Some(FConnections) else if key == "worker_count" then Some(FWorkers)
    else if key == "idle_timeout" then Some(FIdle) else if key == "log_to_stderr" then Some(FStderr)
    else if key == "log_max_file_size" then Some(FLogSize) else if key == "data_dir" then Some(FDataDir)
    else if key == "log_dir" then Some(FLogDir) else None
  }

  function FieldFromEnvironment(name: string): Option<Field>
  {
    if name == "VIREO_LISTEN_ADDRESS" then Some(FAddress) else if name == "VIREO_LISTEN_PORT" then Some(FPort)
    else if name == "VIREO_MAX_CONNECTIONS" then Some(FConnections) else if name == "VIREO_WORKER_COUNT" then Some(FWorkers)
    else if name == "VIREO_IDLE_TIMEOUT" then Some(FIdle) else if name == "VIREO_LOG_TO_STDERR" then Some(FStderr)
    else if name == "VIREO_LOG_MAX_FILE_SIZE" then Some(FLogSize) else if name == "VIREO_DATA_DIR" then Some(FDataDir)
    else if name == "VIREO_LOG_DIR" then Some(FLogDir) else None
  }

  /** Where the first `=` is, or the length. */
  function Separator(s: string): (n: nat)
    ensures n <= |s| && (n < |s| ==> s[n] == '=') && forall i :: 0 <= i < n ==> s[i] != '='
    decreases |s|
  {
    if s == "" || s[0] == '=' then 0 else 1 + Separator(s[1..])
  }

  function LineMeaning(line: string): (m: Meaning)
  {
    if |line| > CONFIG_LINE_MAX then Reject(Range, LineTooLong)
    else if BadInLine(line) then Reject(InvalidArgument, InvalidCharacter)
    else
      var s := Trim(line);
      if s == "" || s[0] == '#' then Skip
      else
        var n := Separator(s);
        if n == |s| then Reject(InvalidArgument, MissingSeparator)
        else
          var key := Trim(s[..n]);
          if key == "" then Reject(InvalidArgument, EmptyKey)
          else match FieldFromKey(key)
            case None => Reject(InvalidArgument, UnknownKey)
            case Some(f) => Assign(f, Trim(s[n + 1..]))
  }

  function EntryMeaning(name: string, value: string): (m: Meaning)
  {
    match FieldFromEnvironment(name)
    case None => Reject(InvalidArgument, UnknownKey)
    case Some(f) => Assign(f, Trim(value))
  }

  datatype Outcome = Accepted(config: Config) | Rejected(code: Code, issue: Issue, at: nat)

  datatype Turned = Next(config: Config, seen: set<Field>) | Stop(code: Code, issue: Issue)

  /** One line applied to the configuration so far; a field may be set only once. */
  function ApplyOne(m: Meaning, c: Config, seen: set<Field>): (t: Turned)
  {
    match m
    case Skip => Next(c, seen)
    case Reject(code, issue) => Stop(code, issue)
    case Assign(f, value) =>
      if f in seen then Stop(InvalidArgument, Duplicate)
      else match Interpret(f, value)
        case Refused(code, issue) => Stop(code, issue)
        case Means(setting) => Next(Put(c, setting), seen + {f})
  }

  function ApplyAll(ms: seq<Meaning>, c: Config, seen: set<Field>, at: nat): (o: Outcome)
    decreases |ms|
  {
    if ms == [] then Accepted(c)
    else match ApplyOne(ms[0], c, seen)
      case Stop(code, issue) => Rejected(code, issue, at)
      case Next(d, more) => ApplyAll(ms[1..], d, more, at + 1)
  }

  // ---- Order does not matter -----------------------------------------------------------------

  predicate Sound(m: Meaning)
  {
    m.Skip? || (m.Assign? && Interpret(m.field, m.value).Means?)
  }

  ghost predicate Once(ms: seq<Meaning>)
  {
    forall i, j :: 0 <= i < j < |ms| && ms[i].Assign? && ms[j].Assign? ==> ms[i].field != ms[j].field
  }

  /** What all the lines together say about a field. */
  ghost predicate Says(ms: seq<Meaning>, f: Field, s: Setting)
  {
    exists i :: 0 <= i < |ms| && ms[i].Assign? && ms[i].field == f && Interpret(f, ms[i].value) == Means(s)
  }

  ghost predicate Mentions(ms: seq<Meaning>, f: Field)
  {
    exists i :: 0 <= i < |ms| && ms[i].Assign? && ms[i].field == f
  }

  ghost predicate AllSound(ms: seq<Meaning>)
  {
    forall i :: 0 <= i < |ms| ==> Sound(ms[i])
  }

  lemma MentionsCons(ms: seq<Meaning>, f: Field)
    requires ms != []
    ensures Mentions(ms, f) <==> (ms[0].Assign? && ms[0].field == f) || Mentions(ms[1..], f)
    ensures Once(ms) <==> Once(ms[1..]) && (ms[0].Assign? ==> !Mentions(ms[1..], ms[0].field))
    ensures AllSound(ms) <==> Sound(ms[0]) && AllSound(ms[1..])
  {
    hide Sound;
    var rest := ms[1..];
    if Mentions(rest, f) {
      var i :| 0 <= i < |rest| && rest[i].Assign? && rest[i].field == f;
      assert ms[i + 1] == rest[i];
    }
    if Mentions(ms, f) && !(ms[0].Assign? && ms[0].field == f) {
      var i :| 0 <= i < |ms| && ms[i].Assign? && ms[i].field == f;
      assert rest[i - 1] == ms[i];
    }
    OnceCons(ms);
    SoundCons(ms);
  }

  lemma OnceCons(ms: seq<Meaning>)
    requires ms != []
    ensures Once(ms) <==> Once(ms[1..]) && (ms[0].Assign? ==> !Mentions(ms[1..], ms[0].field))
  {
    var rest := ms[1..];
    if Once(ms) {
      forall i, j | 0 <= i < j < |rest| && rest[i].Assign? && rest[j].Assign? ensures rest[i].field != rest[j].field {
        assert rest[i] == ms[i + 1] && rest[j] == ms[j + 1];
      }
      if ms[0].Assign? {
        forall i | 0 <= i < |rest| && rest[i].Assign? ensures rest[i].field != ms[0].field {
          assert ms[i + 1] == rest[i];
        }
      }
    }
    if Once(rest) && (ms[0].Assign? ==> !Mentions(rest, ms[0].field)) {
      forall i, j | 0 <= i < j < |ms| && ms[i].Assign? && ms[j].Assign? ensures ms[i].field != ms[j].field {
        assert ms[j] == rest[j - 1];
        if i > 0 { assert ms[i] == rest[i - 1]; }
      }
    }
  }

  lemma SoundCons(ms: seq<Meaning>)
    requires ms != []
    ensures AllSound(ms) <==> Sound(ms[0]) && AllSound(ms[1..])
  {
    hide Sound;
    var rest := ms[1..];
    if Sound(ms[0]) && AllSound(rest) {
      forall i | 0 <= i < |ms| ensures Sound(ms[i]) { if i > 0 { assert ms[i] == rest[i - 1]; } }
    }
    if AllSound(ms) {
      forall i | 0 <= i < |rest| ensures Sound(rest[i]) { assert rest[i] == ms[i + 1]; }
    }
  }

  ghost predicate Unseen(ms: seq<Meaning>, seen: set<Field>)
  {
    forall f :: f in seen ==> !Mentions(ms, f)
  }

  /** Lines are accepted exactly when each is sound by itself and no field is set twice. */
  lemma {:induction false} AcceptedIff(ms: seq<Meaning>, c: Config, seen: set<Field>, at: nat)
    ensures ApplyAll(ms, c, seen, at).Accepted? <==> AllSound(ms) && Once(ms) && Unseen(ms, seen)
    decreases |ms|
  {
    hide Interpret, Put, AllSound, Once, Mentions;
    if ms == [] {
      NothingSaid(seen);
    } else {
      var t := ApplyOne(ms[0], c, seen);
      forall f ensures Mentions(ms, f) <==> (ms[0].Assign? && ms[0].field == f) || Mentions(ms[1..], f) { MentionsCons(ms, f); }
      MentionsCons(ms, FPort);
      if t.Next? { AcceptedIff(ms[1..], t.config, t.seen, at + 1); }
      if t.Stop? && ms[0].Assign? && ms[0].field in seen { assert Mentions(ms, ms[0].field); }
    }
  }

  lemma NothingSaid(seen: set<Field>)
    ensures AllSound([]) && Once([]) && Unseen([], seen)
  {
  }

  /** The configuration has, for each field, what the lines say about it, or what was there before. */
  lemma {:induction false} AcceptedReads(ms: seq<Meaning>, c: Config, seen: set<Field>, at: nat, f: Field)
    requires ApplyAll(ms, c, seen, at).Accepted?
    ensures var d := ApplyAll(ms, c, seen, at).config;
            if Mentions(ms, f) then Says(ms, f, Read(d, f)) else Read(d, f) == Read(c, f)
    decreases |ms|
  {
    hide Interpret, Put, Read, AllSound, Once;
    if ms != [] {
      var t := ApplyOne(ms[0], c, seen);
      var rest := ms[1..];
      MentionsCons(ms, f);
      AcceptedReads(rest, t.config, t.seen, at + 1, f);
      AcceptedIff(rest, t.config, t.seen, at + 1);
      var d := ApplyAll(ms, c, seen, at).config;
      if ms[0].Assign? { InterpretField(ms[0].field, ms[0].value); }
      if Mentions(rest, f) {
        var i :| 0 <= i < |rest| && rest[i].Assign? && rest[i].field == f && Interpret(f, rest[i].value) == Means(Read(d, f));
        assert ms[i + 1] == rest[i];
      } else if ms[0].Assign? && ms[0].field == f {
        assert Interpret(f, ms[0].value) == Means(Read(d, f));
      }
    }
  }

  lemma SaysOne(ms: seq<Meaning>, f: Field, s: Setting, t: Setting)
    requires Once(ms) && Says(ms, f, s) && Says(ms, f, t)
    ensures s == t
  {
    hide Interpret;
    var i :| 0 <= i < |ms| && ms[i].Assign? && ms[i].field == f && Interpret(f, ms[i].value) == Means(s);
    var j :| 0 <= j < |ms| && ms[j].Assign? && ms[j].field == f && Interpret(f, ms[j].value) == Means(t);
    assert i == j;
  }

  // Same lines in another order

  lemma {:induction false} TwoPlaces<T>(s: seq<T>, x: T) returns (i: nat, j: nat)
    requires multiset(s)[x] >= 2
    ensures i < j < |s| && s[i] == x && s[j] == x
    decreases |s|
  {
    var rest := s[1..];
    assert s == [s[0]] + rest;
    if s[0] == x {
      assert multiset(rest)[x] >= 1;
      var k :| 0 <= k < |rest| && rest[k] == x;
      i, j := 0, k + 1;
    } else {
      assert multiset(rest)[x] >= 2;
      i, j := TwoPlaces(rest, x);
      i, j := i + 1, j + 1;
    }
  }

  lemma {:induction false} TwoCounted<T>(s: seq<T>, i: nat, j: nat)
    requires i < j < |s| && s[i] == s[j]
    ensures multiset(s)[s[i]] >= 2
  {
    var a, b := s[..j], s[j..];
    assert s == a + b;
    assert s[i] in a && s[j] in b by { assert a[i] == s[i] && b[0] == s[j]; }
    assert multiset(a)[s[i]] >= 1 && multiset(b)[s[i]] >= 1;
    assert multiset(s) == multiset(a) + multiset(b);
  }

  lemma MemberOf<T>(a: seq<T>, b: seq<T>, x: T)
    requires multiset(a) == multiset(b) && x in a
    ensures x in b
  {
    assert x in multiset(a);
  }

  lemma OnceShuffled(a: seq<Meaning>, b: seq<Meaning>)
    requires multiset(a) == multiset(b) && Once(a)
    ensures Once(b)
  {
    forall i: nat, j: nat | i < j < |b| && b[i].Assign? && b[j].Assign? ensures b[i].field != b[j].field {
      if b[i] == b[j] {
        TwoCounted(b, i, j);
        var k, m := TwoPlaces(a, b[i]);
      } else {
        MemberOf(b, a, b[i]);
        MemberOf(b, a, b[j]);
        var k :| 0 <= k < |a| && a[k] == b[i];
        var m :| 0 <= m < |a| && a[m] == b[j];
        assert if k < m then a[k].field != a[m].field else a[m].field != a[k].field;
      }
    }
  }

  lemma SoundShuffled(a: seq<Meaning>, b: seq<Meaning>)
    requires multiset(a) == multiset(b) && AllSound(a)
    ensures AllSound(b)
  {
    hide Sound;
    forall i | 0 <= i < |b| ensures Sound(b[i]) {
      MemberOf(b, a, b[i]);
    }
  }

  lemma SaysShuffled(a: seq<Meaning>, b: seq<Meaning>, f: Field, s: Setting)
    requires multiset(a) == multiset(b)
    ensures Says(a, f, s) ==> Says(b, f, s)
    ensures Mentions(a, f) ==> Mentions(b, f)
  {
    hide Interpret;
    if Says(a, f, s) {
      var i :| 0 <= i < |a| && a[i].Assign? && a[i].field == f && Interpret(f, a[i].value) == Means(s);
      MemberOf(a, b, a[i]);
      var j :| 0 <= j < |b| && b[j] == a[i];
    }
    if Mentions(a, f) {
      var i :| 0 <= i < |a| && a[i].Assign? && a[i].field == f;
      MemberOf(a, b, a[i]);
      var j :| 0 <= j < |b| && b[j] == a[i];
    }
  }

  /** The same settings in any order are accepted alike and give the same configuration. */
  lemma OrderDoesNotMatter(a: seq<Meaning>, b: seq<Meaning>, c: Config)
    requires multiset(a) == multiset(b) && ApplyAll(a, c, {}, 1).Accepted?
    ensures ApplyAll(b, c, {}, 1) == ApplyAll(a, c, {}, 1)
  {
    hide Interpret, Put, Read, AllSound, Once, Mentions, Says, ApplyAll;
    AcceptedIff(a, c, {}, 1);
    AcceptedIff(b, c, {}, 1);
    OnceShuffled(a, b);
    SoundShuffled(a, b);
    var d, e := ApplyAll(a, c, {}, 1).config, ApplyAll(b, c, {}, 1).config;
    forall f ensures Read(d, f) == Read(e, f) {
      AcceptedReads(a, c, {}, 1, f);
      AcceptedReads(b, c, {}, 1, f);
      SaysShuffled(a, b, f, Read(d, f));
      SaysShuffled(b, a, f, Read(d, f));
      if Mentions(a, f) { SaysOne(b, f, Read(d, f), Read(e, f)); }
    }
    ReadsDetermine(d, e);
  }

  lemma {:induction false} KeepsValid(ms: seq<Meaning>, c: Config, seen: set<Field>, at: nat)
    requires Validate(c) == Ok && ApplyAll(ms, c, seen, at).Accepted?
    ensures Validate(ApplyAll(ms, c, seen, at).config) == Ok
    decreases |ms|
  {
    hide Interpret, Put, Validate;
    if ms != [] {
      if ms[0].Assign? { AssignKeepsValid(c, ms[0].field, ms[0].value); }
      var t := ApplyOne(ms[0], c, seen);
      KeepsValid(ms[1..], t.config, t.seen, at + 1);
    }
  }

  // ---- Texts ---------------------------------------------------------------------------------

  /** Up to the next line feed, or all of it. */
  function LineLength(s: string): (n: nat)
    ensures n <= |s| && (n < |s| ==> s[n] == '\n') && forall i :: 0 <= i < n ==> s[i] != '\n'
    decreases |s|
  {
    if s == "" || s[0] == '\n' then 0 else 1 + LineLength(s[1..])
  }

  /** A carriage return right before a line feed is not part of the line. */
  function Stripped(s: string, n: nat): string
    requires n <= |s|
  {
    if n < |s| && 0 < n && s[n - 1] == '\r' then s[..n - 1] else s[..n]
  }

  function Lines(s: string): (ls: seq<string>)
    decreases |s|
  {
    if s == "" then []
    else
      var n := LineLength(s);
      [Stripped(s, n)] + if n < |s| then Lines(s[n + 1..]) else []
  }

  function Meanings(ls: seq<string>): (ms: seq<Meaning>)
    ensures |ms| == |ls| && forall i :: 0 <= i < |ls| ==> ms[i] == LineMeaning(ls[i])
  {
    if ls == [] then [] else [LineMeaning(ls[0])] + Meanings(ls[1..])
  }

  /** Line by line on a copy of the base, with a final check of the whole. */
  function ParseText(base: Config, text: string): (o: Outcome)
  {
    if Validate(base) != Ok then Rejected(Validate(base), InvalidBase, 0)
    else if |text| > TEXT_MAX then Rejected(Range, TextTooLarge, 0)
    else
      var o := ApplyAll(Meanings(Lines(text)), base, {}, 1);
      if o.Accepted? && Validate(o.config) != Ok then Rejected(Validate(o.config), InvalidBase, 0) else o
  }

  /** The final check never refuses, and what is accepted is valid. */
  lemma FinalCheckNeverRefuses(base: Config, text: string)
    requires Validate(base) == Ok && |text| <= TEXT_MAX
    ensures ParseText(base, text) == ApplyAll(Meanings(Lines(text)), base, {}, 1)
    ensures ParseText(base, text).Accepted? ==> Validate(ParseText(base, text).config) == Ok
  {
    hide ApplyAll, Validate;
    var ms := Meanings(Lines(text));
    if ApplyAll(ms, base, {}, 1).Accepted? { KeepsValid(ms, base, {}, 1); }
  }

  lemma {:induction false} MeaningsShuffled(a: seq<string>, b: seq<string>)
    requires multiset(a) == multiset(b)
    ensures multiset(Meanings(a)) == multiset(Meanings(b))
    decreases |a|
  {
    hide LineMeaning;
    if a == [] {
      assert |multiset(a)| == |a| && |multiset(b)| == |b|;
    } else {
      var x := a[0];
      assert a == [x] + a[1..];
      MemberOf(a, b, x);
      var k :| 0 <= k < |b| && b[k] == x;
      var others := b[..k] + b[k + 1..];
      RemoveAt(b, k);
      Uncons(multiset(others), multiset(a[1..]), x);
      MeaningsShuffled(a[1..], others);
      MeaningsSplit(b, k);
    }
  }

  lemma Uncons<T>(a: multiset<T>, b: multiset<T>, x: T)
    requires multiset{x} + a == multiset{x} + b
    ensures a == b
  {
    assert a == multiset{x} + a - multiset{x} && b == multiset{x} + b - multiset{x};
  }

  lemma MeaningsSplit(b: seq<string>, k: nat)
    requires k < |b|
    ensures multiset(Meanings(b)) == multiset{LineMeaning(b[k])} + multiset(Meanings(b[..k] + b[k + 1..]))
  {
    hide LineMeaning, Meanings;
    var m := Meanings(b);
    RemoveAt(m, k);
    assert Meanings(b[..k] + b[k + 1..]) == m[..k] + m[k + 1..];
  }

  lemma RemoveAt<T>(s: seq<T>, k: nat)
    requires k < |s|
    ensures multiset(s) == multiset{s[k]} + multiset(s[..k] + s[k + 1..])
  {
    assert s == s[..k] + ([s[k]] + s[k + 1..]);
  }

  /** Two texts made of the same lines, in whatever order, are accepted alike and give the same configuration. */
  lemma PermutedTextsAgree(base: Config, a: string, b: string)
    requires multiset(Lines(a)) == multiset(Lines(b)) && |b| <= TEXT_MAX && ParseText(base, a).Accepted?
    ensures ParseText(base, b) == ParseText(base, a)
  {
    hide ApplyAll, Validate, Lines;
    MeaningsShuffled(Lines(a), Lines(b));
    FinalCheckNeverRefuses(base, a);
    FinalCheckNeverRefuses(base, b);
    OrderDoesNotMatter(Meanings(Lines(a)), Meanings(Lines(b)), base);
  }

  function Join(ls: seq<string>): string
  {
    if ls == [] then "" else ls[0] + "\n" + Join(ls[1..])
  }

  predicate PlainLine(l: string)
  {
    '\n' !in l && (l != "" ==> l[|l| - 1] != '\r')
  }

  /** Lines written out one after the other are read back as the same lines. */
  lemma {:induction false} LinesRoundTrip(ls: seq<string>)
    requires forall i :: 0 <= i < |ls| ==> PlainLine(ls[i])
    ensures Lines(Join(ls)) == ls
  {
    if ls != [] {
      var l, rest := ls[0], Join(ls[1..]);
      var s := Join(ls);
      assert s == l + "\n" + rest;
      LengthIs(l, rest);
      assert s[..|l|] == l && s[|l| + 1..] == rest && Stripped(s, |l|) == l;
      LinesRoundTrip(ls[1..]);
    }
  }

  lemma LengthIs(l: string, rest: string)
    requires '\n' !in l
    ensures LineLength(l + "\n" + rest) == |l|
  {
    var s := l + "\n" + rest;
    assert forall i :: 0 <= i < |l| ==> s[i] == l[i];
    LineLengthIs(s, |l|);
  }

  lemma {:induction false} LineLengthIs(s: string, n: nat)
    requires n <= |s| && (n < |s| ==> s[n] == '\n') && forall i :: 0 <= i < n ==> s[i] != '\n'
    ensures LineLength(s) == n
    decreases |s|
  {
    if n > 0 { LineLengthIs(s[1..], n - 1); }
  }

  lemma {:induction false} SeparatorIs(s: string, n: nat)
    requires n <= |s| && (n < |s| ==> s[n] == '=') && forall i :: 0 <= i < n ==> s[i] != '='
    ensures Separator(s) == n
    decreases |s|
  {
    if n > 0 { SeparatorIs(s[1..], n - 1); }
  }

  // ---- Environment ---------------------------------------------------------------------------

  datatype Entry = Entry(name: string, value: string)

  function EntryMeanings(es: seq<Entry>): (ms: seq<Meaning>)
    ensures |ms| == |es| && forall i :: 0 <= i < |es| ==> ms[i] == EntryMeaning(es[i].name, es[i].value)
  {
    if es == [] then [] else [EntryMeaning(es[0].name, es[0].value)] + EntryMeanings(es[1..])
  }

  function ApplyEnvironment(base: Config, es: seq<Entry>): (o: Outcome)
  {
    if Validate(base) != Ok then Rejected(Validate(base), InvalidBase, 0)
    else if |es| > ENVIRONMENT_MAX then Rejected(Range, TooManyItems, 0)
    else
      var o := ApplyAll(EntryMeanings(es), base, {}, 1);
      if o.Accepted? && Validate(o.config) != Ok then Rejected(Validate(o.config), InvalidBase, 0) else o
  }

  /** The environment overrides exactly the fields it names, whatever the order of its entries. */
  lemma EnvironmentOverrides(base: Config, es: seq<Entry>, f: Field)
    requires ApplyEnvironment(base, es).Accepted?
    ensures var c := ApplyEnvironment(base, es).config;
            && Validate(c) == Ok
            && (if Mentions(EntryMeanings(es), f) then Says(EntryMeanings(es), f, Read(c, f)) else Read(c, f) == Read(base, f))
  {
    hide ApplyAll, Validate, Read, Says, Mentions;
    AcceptedReads(EntryMeanings(es), base, {}, 1, f);
  }

  // ---- What is refused -----------------------------------------------------------------------

  /** A line says nothing, sets a field, or is refused, for exactly these reasons. */
  lemma LineExact(line: string)
    ensures var s := Trim(line);
            var clean := |line| <= 2048 && !(exists i :: 0 <= i < |line| && (line[i] as int < 32 || line[i] as int == 127) && line[i] != '\t');
            && (LineMeaning(line).Skip? <==> clean && (s == "" || s[0] == '#'))
            && (LineMeaning(line).Assign? <==>
                  && clean && s != "" && s[0] != '#' && Separator(s) < |s| && FieldFromKey(Trim(s[..Separator(s)])).Some?)
            && (LineMeaning(line).Assign? ==>
                  LineMeaning(line).value == Trim(s[Separator(s) + 1..]) && Some(LineMeaning(line).field) == FieldFromKey(Trim(s[..Separator(s)])))
            && (|line| > 2048 ==> LineMeaning(line) == Reject(Range, LineTooLong))
  {
    hide Trim, Separator;
    assert FieldFromKey("") == None;
    assert BadInLine(line) <==> exists i :: 0 <= i < |line| && (line[i] as int < 32 || line[i] as int == 127) && line[i] != '\t';
  }

  /** Each kind of field takes exactly these texts. */
  lemma InterpretExact(s: string)
    ensures var plain := 1 <= |s| <= 1023 && !(exists i :: 0 <= i < |s| && (s[i] as int < 32 || s[i] as int == 127));
            && (Interpret(FAddress, s).Means? <==> plain && Ipv4Address(s))
            && (Interpret(FDataDir, s).Means? <==> plain && s[0] == '/') && (Interpret(FLogDir, s).Means? <==> plain && s[0] == '/')
            && (Interpret(FStderr, s).Means? <==> s == "true" || s == "false")
            && (Interpret(FStderr, s).Means? ==> Interpret(FStderr, s).setting == Flag(s == "true"))
            && (Interpret(FAddress, s).Means? ==> Interpret(FAddress, s).setting == Words(FAddress, s))
            && (Interpret(FDataDir, s).Means? ==> Interpret(FDataDir, s).setting == Words(FDataDir, s))
            && (Interpret(FLogDir, s).Means? ==> Interpret(FLogDir, s).setting == Words(FLogDir, s))
  {
    hide Ipv4Valid, Ipv4Address, Decimal, DurationMs, SizeBytes;
    AddressesAreRfc3986(s);
    AddressFits(s);
    assert HasControl(s) <==> exists i :: 0 <= i < |s| && (s[i] as int < 32 || s[i] as int == 127);
  }

  /** A text is looked at only over a valid base and up to its size limit; the environment up to nine entries. */
  lemma TextRefused(base: Config, text: string, es: seq<Entry>)
    ensures Validate(base) != Ok ==> ParseText(base, text) == Rejected(Validate(base), InvalidBase, 0) && ApplyEnvironment(base, es) == Rejected(Validate(base), InvalidBase, 0)
    ensures Validate(base) == Ok && |text| > 65536 ==> ParseText(base, text) == Rejected(Range, TextTooLarge, 0)
    ensures Validate(base) == Ok && |es| > 9 ==> ApplyEnvironment(base, es) == Rejected(Range, TooManyItems, 0)
    ensures Validate(base) == Ok && |es| <= 9 ==> (ApplyEnvironment(base, es).Accepted? <==> AllSound(EntryMeanings(es)) && Once(EntryMeanings(es)))
  {
    hide Validate, ApplyAll, AllSound, Once;
    if Validate(base) == Ok && |es| <= 9 {
      AcceptedIff(EntryMeanings(es), base, {}, 1);
      assert Unseen(EntryMeanings(es), {});
      if ApplyAll(EntryMeanings(es), base, {}, 1).Accepted? { KeepsValid(EntryMeanings(es), base, {}, 1); }
    }
  }

  function JoinCrlf(ls: seq<string>): string
  {
    if ls == [] then "" else ls[0] + "\r\n" + JoinCrlf(ls[1..])
  }

  /** Lines ended by carriage return and line feed are the same lines. */
  lemma {:induction false} CrlfRoundTrip(ls: seq<string>)
    requires forall i :: 0 <= i < |ls| ==> '\n' !in ls[i]
    ensures Lines(JoinCrlf(ls)) == ls
  {
    if ls != [] {
      var l, rest := ls[0] + "\r", JoinCrlf(ls[1..]);
      var s := JoinCrlf(ls);
      assert s == l + "\n" + rest;
      LengthIs(l, rest);
      assert s[|l| - 1] == '\r' && s[..|l| - 1] == ls[0] && s[|l| + 1..] == rest;
      CrlfRoundTrip(ls[1..]);
    }
  }

  /** A rejection names the first line that is wrong, counting from one, and why it is. */
  lemma {:induction false} RejectionNamesFirst(ms: seq<Meaning>, c: Config, seen: set<Field>, at: nat)
    requires ApplyAll(ms, c, seen, at).Rejected?
    ensures var o := ApplyAll(ms, c, seen, at);
            && at <= o.at < at + |ms|
            && ApplyAll(ms[..o.at - at], c, seen, at).Accepted?
            && (match ms[o.at - at]
                case Skip => false
                case Reject(code, issue) => o.code == code && o.issue == issue
                case Assign(f, value) =>
                  if f in seen || Mentions(ms[..o.at - at], f) then o.code == InvalidArgument && o.issue == Duplicate
                  else Interpret(f, value) == Refused(o.code, o.issue))
    decreases |ms|
  {
    hide Interpret, Put, Mentions;
    var t := ApplyOne(ms[0], c, seen);
    if t.Next? {
      var rest := ms[1..];
      RejectionNamesFirst(rest, t.config, t.seen, at + 1);
      var o := ApplyAll(ms, c, seen, at);
      var n := o.at - at;
      assert ms[..n][1..] == rest[..n - 1] && ms[..n][0] == ms[0];
      if ms[n].Assign? { MentionsCons(ms[..n], ms[n].field); }
    } else {
      NothingMentioned(ms[..0]);
    }
  }

  lemma NothingMentioned(ms: seq<Meaning>)
    requires ms == []
    ensures forall f :: !Mentions(ms, f)
  {
  }

  /** Empty, overlong and unprintable values are refused for every field alike. */
  lemma ValueRefused(f: Field, s: string)
    ensures s == "" ==> Interpret(f, s) == Refused(InvalidArgument, EmptyValue)
    ensures |s| > 1023 ==> Interpret(f, s) == Refused(Range, ValueTooLong)
    ensures 1 <= |s| <= 1023 && (exists i :: 0 <= i < |s| && (s[i] as int < 32 || s[i] as int == 127)) ==> Interpret(f, s) == Refused(InvalidArgument, InvalidCharacter)
  {
    hide Ipv4Valid, PathValid, Numeric;
    if exists i :: 0 <= i < |s| && (s[i] as int < 32 || s[i] as int == 127) {
      var i :| 0 <= i < |s| && (s[i] as int < 32 || s[i] as int == 127);
      assert IsControl(s[i]);
    }
  }
}
