/**
  Writing a configuration out and reading it back, as text and as environment entries. This fixes what
  every key, unit, range and blank means, independently of the parser.
 */
module ConfigRoundTrip {
  import opened Base
  import opened LogFormat
  import opened ConfigModel

  // ---- Blanks --------------------------------------------------------------------------------

  predicate Blank(s: string)
  {
    forall i :: 0 <= i < |s| ==> s[i] == ' ' || s[i] == '\t'
  }

  /** Text with no blank at either end. */
  predicate Tight(s: string)
  {
    s != "" && !IsSpace(s[0]) && !IsSpace(s[|s| - 1])
  }

  lemma {:induction false} TrimLeftBlank(p: string, x: string)
    requires Blank(p) && (x != "" ==> !IsSpace(x[0]))
    ensures TrimLeft(p + x) == x
    decreases |p|
  {
    if p == "" {
      assert p + x == x;
    } else {
      assert (p + x)[1..] == p[1..] + x;
      TrimLeftBlank(p[1..], x);
    }
  }

  lemma {:induction false} TrimRightBlank(x: string, t: string)
    requires Blank(t) && (x != "" ==> !IsSpace(x[|x| - 1]))
    ensures TrimRight(x + t) == x
    decreases |t|
  {
    if t == "" {
      assert x + t == x;
    } else {
      var n := |t| - 1;
      assert (x + t)[..|x| + n] == x + t[..n];
      TrimRightBlank(x, t[..n]);
    }
  }

  /** Trimming removes exactly the blanks around tight text. */
  lemma TrimExact(p: string, x: string, t: string)
    requires Blank(p) && Tight(x) && Blank(t)
    ensures Trim(p + x + t) == x
  {
    assert p + x + t == p + (x + t);
    TrimLeftBlank(p, x + t);
    TrimRightBlank(x, t);
  }

  /** Any text that does not start with a blank is tight text followed by blanks, or nothing. */
  lemma {:induction false} SplitTail(v: string) returns (t: string)
    requires v != "" && !IsSpace(v[0])
    ensures Tight(TrimRight(v)) && Blank(t) && v == TrimRight(v) + t && TrimRight(v)[0] == v[0]
    decreases |v|
  {
    var n := |v| - 1;
    if IsSpace(v[n]) {
      var u := SplitTail(v[..n]);
      t := u + [v[n]];
      assert v == v[..n] + [v[n]];
    } else {
      t := "";
      assert v + "" == v;
    }
  }

  // ---- One line ------------------------------------------------------------------------------

  /** A key is tight, has no separator in it, and is not a comment. */
  predicate KeyLike(key: string)
  {
    Tight(key) && (forall i :: 0 <= i < |key| ==> key[i] != '=' && !IsControl(key[i])) && key[0] != '#'
  }

  lemma SeparatorAfter(a: string, b: string)
    requires forall i :: 0 <= i < |a| ==> a[i] != '='
    ensures Separator(a + "=" + b) == |a|
  {
    var s := a + "=" + b;
    assert forall i :: 0 <= i < |a| ==> s[i] == a[i];
    SeparatorIs(s, |a|);
  }

  lemma CleanLine(p: string, key: string, q: string, r: string, v: string, t: string)
    requires Blank(p) && KeyLike(key) && Blank(q) && Blank(r) && Blank(t) && !HasControl(v)
    ensures !BadInLine(p + (key + q + "=" + (r + v)) + t)
  {
    assert !BadInLine(p) && !BadInLine(key) && !BadInLine(q) && !BadInLine("=") && !BadInLine(r) && !BadInLine(v) && !BadInLine(t);
    CleanConcat(r, v);
    CleanConcat(key, q);
    CleanConcat(key + q, "=");
    CleanConcat(key + q + "=", r + v);
    CleanConcat(p, key + q + "=" + (r + v));
    CleanConcat(p + (key + q + "=" + (r + v)), t);
  }

  lemma CleanConcat(a: string, b: string)
    requires !BadInLine(a) && !BadInLine(b)
    ensures !BadInLine(a + b)
  {
  }

  /** A setting reads the same however many blanks surround its parts. */
  lemma BlanksDoNotMatter(p: string, key: string, q: string, r: string, v: string, t: string, f: Field)
    requires Blank(p) && KeyLike(key) && Blank(q) && Blank(r) && Tight(v) && Blank(t) && !HasControl(v) && FieldFromKey(key) == Some(f)
    requires |p| + |key| + |q| + 1 + |r| + |v| + |t| <= 2048
    ensures LineMeaning(p + (key + q + "=" + (r + v)) + t) == Assign(f, v)
  {
    hide FieldFromKey, Separator, Trim, BadInLine, HasControl;
    var s := key + q + "=" + (r + v);
    CleanLine(p, key, q, r, v, t);
    assert s[0] == key[0] && s[|s| - 1] == v[|v| - 1];
    TrimExact(p, s, t);
    assert forall i :: 0 <= i < |key + q| ==> (key + q)[i] != '=';
    SeparatorAfter(key + q, r + v);
    assert s[..|key + q|] == key + q && s[|key + q| + 1..] == r + v;
    TrimExact("", key, q);
    assert "" + key + q == key + q;
    TrimExact(r, v, "");
    assert r + v + "" == r + v;
  }

  /** Comments and blank lines say nothing. */
  lemma CommentsSayNothing(p: string, text: string)
    requires Blank(p) && !BadInLine(text) && |p| + |text| <= 2048 && (text != "" ==> text[0] == '#')
    ensures LineMeaning(p + text) == Skip
  {
    hide BadInLine;
    BlankIsClean(p);
    CleanConcat(p, text);
    if text == "" {
      assert p + text == p + "";
      TrimLeftBlank(p, "");
    } else {
      TrimLeftBlank(p, text);
      var t := SplitTail(text);
    }
  }

  lemma BlankIsClean(p: string)
    requires Blank(p)
    ensures !BadInLine(p)
  {
  }

  // ---- Values --------------------------------------------------------------------------------

  const FIELDS: seq<Field> := [FAddress, FPort, FConnections, FWorkers, FIdle, FStderr, FLogSize, FDataDir, FLogDir]

  function KeyOf(f: Field): string
  {
    match f
    case FAddress => "listen_address"
    case FPort => "listen_port"
    case FConnections => "max_connections"
    case FWorkers => "worker_count"
    case FIdle => "idle_timeout"
    case FStderr => "log_to_stderr"
    case FLogSize => "log_max_file_size"
    case FDataDir => "data_dir"
    case FLogDir => "log_dir"
  }

  function EnvironmentOf(f: Field): string
  {
    match f
    case FAddress => "VIREO_LISTEN_ADDRESS"
    case FPort => "VIREO_LISTEN_PORT"
    case FConnections => "VIREO_MAX_CONNECTIONS"
    case FWorkers => "VIREO_WORKER_COUNT"
    case FIdle => "VIREO_IDLE_TIMEOUT"
    case FStderr => "VIREO_LOG_TO_STDERR"
    case FLogSize => "VIREO_LOG_MAX_FILE_SIZE"
    case FDataDir => "VIREO_DATA_DIR"
    case FLogDir => "VIREO_LOG_DIR"
  }

  function Written(c: Config, f: Field): string
  {
    match f
    case FAddress => c.address
    case FPort => Digits(c.port)
    case FConnections => Digits(c.connections)
    case FWorkers => Digits(c.workers)
    case FIdle => Digits(c.idle)
    case FStderr => if c.stderr then "true" else "false"
    case FLogSize => Digits(c.logSize)
    case FDataDir => c.dataDir
    case FLogDir => c.logDir
  }

  /** What survives of a configuration: blanks at the end of a directory do not. */
  function Trimmed(c: Config): Config
  {
    c.(dataDir := TrimRight(c.dataDir), logDir := TrimRight(c.logDir))
  }

  /** Digits and dots only. */
  lemma AddressClean(s: string)
    requires Ipv4Valid(s)
    ensures s != "" && forall i :: 0 <= i < |s| ==> IsDigit(s[i]) || s[i] == '.'
  {
    hide AddressFrom, DecOctet;
    AddressesAreRfc3986(s);
    var a, b, c, d :| Dotted(s, a, b, c, d);
    DecOctetDigits(a); DecOctetDigits(b); DecOctetDigits(c); DecOctetDigits(d);
    DecOctetShort(a);
  }

  lemma PlainText(s: string)
    requires s != "" && forall i :: 0 <= i < |s| ==> IsDigit(s[i]) || s[i] == '.'
    ensures Tight(s) && !HasControl(s)
  {
  }

  /** A number in range is read as itself, with no unit or with any of these. */
  lemma NumberRead(n: size)
    ensures Decimal(Digits(n)) == Good(n) && DurationMs(Digits(n)) == Good(n) && SizeBytes(Digits(n)) == Good(n)
  {
    hide Digits, DigitRun;
    DecimalRoundTrip(n);
    DigitsWithUnit(n, "");
    assert Digits(n) + "" == Digits(n);
    UnitsExact(Digits(n));
  }

  lemma DigitsWithUnit(n: size, unit: string)
    requires unit != "" ==> !IsDigit(unit[0])
    ensures var s := Digits(n) + unit; DigitRun(s) == |Digits(n)| && s[..DigitRun(s)] == Digits(n) && s[DigitRun(s)..] == unit && Value(Digits(n)) == n
  {
    hide Digits, DigitRun;
    RunOf(Digits(n), unit);
    DigitsValue(n);
  }

  function Product(n: size, factor: nat): Checked
  {
    if n * factor > U64_MAX then Bad(Overflow) else Good(n * factor)
  }

  /** The units, spelled out. */
  lemma UnitsSpelledOut(n: size)
    ensures SizeBytes(Digits(n) + "B") == Good(n) && SizeBytes(Digits(n) + "KiB") == Product(n, 1024)
    ensures SizeBytes(Digits(n) + "MiB") == Product(n, 1_048_576) && SizeBytes(Digits(n) + "GiB") == Product(n, 1_073_741_824)
    ensures DurationMs(Digits(n) + "ms") == Good(n) && DurationMs(Digits(n) + "s") == Product(n, 1000) && DurationMs(Digits(n) + "m") == Product(n, 60_000)
  {
    hide Digits, DigitRun, SizeBytes, DurationMs;
    UnitRead(n, "B"); UnitRead(n, "KiB"); UnitRead(n, "MiB"); UnitRead(n, "GiB");
    UnitRead(n, "ms"); UnitRead(n, "s"); UnitRead(n, "m");
  }

  lemma UnitRead(n: size, unit: string)
    requires unit != "" && !IsDigit(unit[0])
    ensures SizeUnit(unit) != 0 ==> SizeBytes(Digits(n) + unit) == Product(n, SizeUnit(unit))
    ensures TimeUnit(unit) != 0 ==> DurationMs(Digits(n) + unit) == Product(n, TimeUnit(unit))
  {
    hide Digits, DigitRun, SizeBytes, DurationMs, SizeUnit, TimeUnit;
    DigitsWithUnit(n, unit);
    UnitsExact(Digits(n) + unit);
  }

  /** Each numeric field takes exactly these values. */
  lemma RangesSpelledOut(n: size)
    ensures Interpret(FPort, Digits(n)).Means? <==> 1 <= n <= 65535
    ensures Interpret(FConnections, Digits(n)).Means? <==> 1 <= n <= 65536
    ensures Interpret(FWorkers, Digits(n)).Means? <==> 1 <= n <= 256
    ensures Interpret(FIdle, Digits(n)).Means? <==> 1 <= n <= 86_400_000
    ensures Interpret(FLogSize, Digits(n)).Means? <==> 1_048_576 <= n <= 1_073_741_824
    ensures forall f :: f in {FPort, FConnections, FWorkers, FIdle, FLogSize} && Interpret(f, Digits(n)).Means? ==> Interpret(f, Digits(n)) == Means(Figure(f, n))
    ensures forall f :: f in {FPort, FConnections, FWorkers, FIdle, FLogSize} && !Interpret(f, Digits(n)).Means? ==> Interpret(f, Digits(n)) == Refused(Range, OutOfRange)
  {
    hide Digits, Decimal, DurationMs, SizeBytes, HasControl;
    NumberRead(n);
    PlainText(Digits(n));
    DigitsAreShort(n);
  }

  lemma DigitsAreShort(n: size)
    ensures |Digits(n)| <= 20
  {
    Powers();
    DigitsLength(n, 20);
  }

  lemma PathTrimmed(d: string)
    requires PathValid(d) && |d| < PATH_CAPACITY
    ensures var t := TrimRight(d); Tight(t) && PathValid(t) && |t| < PATH_CAPACITY && !HasControl(t)
  {
    var t := SplitTail(d);
    assert forall i :: 0 <= i < |TrimRight(d)| ==> TrimRight(d)[i] == d[i];
  }

  /** Every value written out means itself, but for the blanks at the end of a directory. */
  lemma ValueMeansItself(c: Config, f: Field)
    requires Validate(c) == Ok
    ensures var v := TrimRight(Written(c, f)); Tight(v) && !HasControl(v) && |v| <= VALUE_MAX && Interpret(f, v) == Means(Read(Trimmed(c), f))
    ensures Written(c, f) != "" && !IsSpace(Written(c, f)[0])
  {
    hide Ipv4Valid, Digits, Decimal, DurationMs, SizeBytes, HasControl, TrimRight;
    match f
    case FAddress =>
      AddressClean(c.address);
      PlainText(c.address);
      NoTail(c.address);
    case FDataDir => PathTrimmed(c.dataDir); PathStarts(c.dataDir);
    case FLogDir => PathTrimmed(c.logDir); PathStarts(c.logDir);
    case FStderr => FlagText(c.stderr); NoTail(Written(c, f));
    case FPort => NumberMeansItself(c.port);
    case FConnections => NumberMeansItself(c.connections);
    case FWorkers => NumberMeansItself(c.workers);
    case FIdle => NumberMeansItself(c.idle);
    case FLogSize => NumberMeansItself(c.logSize);
  }

  lemma NumberMeansItself(n: size)
    ensures TrimRight(Digits(n)) == Digits(n) && Tight(Digits(n)) && !HasControl(Digits(n)) && |Digits(n)| <= 20
    ensures 1 <= n <= 65535 ==> Interpret(FPort, Digits(n)) == Means(Figure(FPort, n))
    ensures 1 <= n <= 65536 ==> Interpret(FConnections, Digits(n)) == Means(Figure(FConnections, n))
    ensures 1 <= n <= 256 ==> Interpret(FWorkers, Digits(n)) == Means(Figure(FWorkers, n))
    ensures 1 <= n <= 86_400_000 ==> Interpret(FIdle, Digits(n)) == Means(Figure(FIdle, n))
    ensures 1_048_576 <= n <= 1_073_741_824 ==> Interpret(FLogSize, Digits(n)) == Means(Figure(FLogSize, n))
  {
    hide Digits, Interpret, HasControl, TrimRight;
    PlainText(Digits(n));
    NoTail(Digits(n));
    DigitsAreShort(n);
    RangesSpelledOut(n);
  }

  lemma PathStarts(d: string)
    requires PathValid(d)
    ensures d != "" && !IsSpace(d[0])
  {
  }

  lemma FlagText(on: bool)
    ensures Tight(if on then "true" else "false") && !HasControl(if on then "true" else "false")
  {
  }

  lemma NoTail(v: string)
    requires Tight(v)
    ensures TrimRight(v) == v
  {
  }

  // ---- The whole -----------------------------------------------------------------------------

  /** Nine assignments, one for each field, of what the configuration says. */
  ghost predicate Spells(ms: seq<Meaning>, c: Config)
  {
    |ms| == |FIELDS| && forall i :: 0 <= i < |FIELDS| ==> ms[i] == Assign(FIELDS[i], TrimRight(Written(c, FIELDS[i])))
  }

  lemma FieldAt(f: Field) returns (i: nat)
    ensures i < |FIELDS| && FIELDS[i] == f
  {
    i := match f case FAddress => 0 case FPort => 1 case FConnections => 2 case FWorkers => 3 case FIdle => 4 case FStderr => 5 case FLogSize => 6 case FDataDir => 7 case FLogDir => 8;
  }

  lemma SpelledIsRead(ms: seq<Meaning>, c: Config, base: Config)
    requires Validate(c) == Ok && Spells(ms, c)
    ensures ApplyAll(ms, base, {}, 1) == Accepted(Trimmed(c))
  {
    hide Interpret, Validate, ApplyAll, Read, Written, TrimRight;
    forall i | 0 <= i < |ms| ensures Sound(ms[i]) { ValueMeansItself(c, FIELDS[i]); }
    AcceptedIff(ms, base, {}, 1);
    var d := ApplyAll(ms, base, {}, 1).config;
    forall f ensures Read(d, f) == Read(Trimmed(c), f) {
      var i := FieldAt(f);
      ValueMeansItself(c, f);
      assert ms[i].Assign? && ms[i].field == f;
      assert Says(ms, f, Read(Trimmed(c), f));
      AcceptedReads(ms, base, {}, 1, f);
      SaysOne(ms, f, Read(d, f), Read(Trimmed(c), f));
    }
    ReadsDetermine(d, Trimmed(c));
  }

  function LineOf(c: Config, f: Field): string
  {
    KeyOf(f) + "=" + Written(c, f)
  }

  function LinesFrom(c: Config, i: nat): seq<string>
    requires i <= |FIELDS|
    decreases |FIELDS| - i
  {
    if i == |FIELDS| then [] else [LineOf(c, FIELDS[i])] + LinesFrom(c, i + 1)
  }

  /** A configuration as text. */
  function PrintText(c: Config): string
  {
    Join(LinesFrom(c, 0))
  }

  lemma KeysAreKeys(f: Field)
    ensures KeyLike(KeyOf(f)) && FieldFromKey(KeyOf(f)) == Some(f) && |KeyOf(f)| <= 20 && '\n' !in KeyOf(f)
    ensures FieldFromEnvironment(EnvironmentOf(f)) == Some(f)
  {
    hide FieldFromKey, FieldFromEnvironment, KeyOf, EnvironmentOf, KeyLike;
    KeyShape(f);
    KeyFound(f);
    EnvironmentFound(f);
    assert IsControl('\n');
    KeyHasNoBreak(KeyOf(f));
  }

  lemma KeyHasNoBreak(key: string)
    requires KeyLike(key)
    ensures '\n' !in key
  {
    assert IsControl('\n');
  }

  predicate Identifier(key: string)
  {
    0 < |key| <= 20 && forall i :: 0 <= i < |key| ==> 'a' <= key[i] <= 'z' || key[i] == '_'
  }

  lemma IdentifierIsKey(key: string)
    requires Identifier(key)
    ensures KeyLike(key)
  {
  }

  lemma KeyShape(f: Field)
    ensures KeyLike(KeyOf(f)) && |KeyOf(f)| <= 20
  {
    hide KeyLike;
    if f in {FAddress, FPort, FConnections} { Shape1(f); } else if f in {FWorkers, FIdle, FStderr} { Shape2(f); } else { Shape3(f); }
    hide KeyOf;
    IdentifierIsKey(KeyOf(f));
  }

  lemma Shape1(f: Field)
    requires f in {FAddress, FPort, FConnections}
    ensures Identifier(KeyOf(f))
  {
  }

  lemma Shape2(f: Field)
    requires f in {FWorkers, FIdle, FStderr}
    ensures Identifier(KeyOf(f))
  {
  }

  lemma Shape3(f: Field)
    requires f in {FLogSize, FDataDir, FLogDir}
    ensures Identifier(KeyOf(f))
  {
  }

  lemma KeyFound(f: Field)
    ensures FieldFromKey(KeyOf(f)) == Some(f)
  {
  }

  lemma EnvironmentFound(f: Field)
    ensures FieldFromEnvironment(EnvironmentOf(f)) == Some(f)
  {
  }

  lemma LineMeansItself(c: Config, f: Field)
    requires Validate(c) == Ok
    ensures LineMeaning(LineOf(c, f)) == Assign(f, TrimRight(Written(c, f))) && |LineOf(c, f)| <= 1100 && PlainLine(LineOf(c, f))
  {
    hide Validate, LineMeaning, Written, TrimRight, FieldFromKey, KeyLike;
    KeysAreKeys(f);
    ValueMeansItself(c, f);
    WrittenShort(c, f);
    var v := TrimRight(Written(c, f));
    var t := SplitTail(Written(c, f));
    BlanksDoNotMatter("", KeyOf(f), "", "", v, t, f);
    assert "" + (KeyOf(f) + "" + "=" + ("" + v)) + t == LineOf(c, f) by { Regrouped(KeyOf(f), v, t); }
    assert LineOf(c, f)[|LineOf(c, f)| - 1] == Written(c, f)[|Written(c, f)| - 1];
  }

  lemma Regrouped(key: string, v: string, t: string)
    ensures "" + (key + "" + "=" + ("" + v)) + t == key + "=" + (v + t)
  {
  }

  lemma WrittenShort(c: Config, f: Field)
    requires Validate(c) == Ok
    ensures |Written(c, f)| <= 1023 && '\n' !in Written(c, f) && (Written(c, f) != "" ==> Written(c, f)[|Written(c, f)| - 1] != '\r')
  {
    hide Ipv4Valid, Digits;
    match f
    case FAddress => AddressClean(c.address);
    case FDataDir => NoControlNoBreak(c.dataDir);
    case FLogDir => NoControlNoBreak(c.logDir);
    case FStderr =>
    case FPort => DigitsAreShort(c.port);
    case FConnections => DigitsAreShort(c.connections);
    case FWorkers => DigitsAreShort(c.workers);
    case FIdle => DigitsAreShort(c.idle);
    case FLogSize => DigitsAreShort(c.logSize);
  }

  lemma NoControlNoBreak(s: string)
    requires !HasControl(s)
    ensures '\n' !in s && '\r' !in s
  {
    assert IsControl('\n') && IsControl('\r');
  }

  lemma {:induction false} LinesFromAt(c: Config, i: nat, k: nat)
    requires i + k < |FIELDS|
    ensures |LinesFrom(c, i)| == |FIELDS| - i && LinesFrom(c, i)[k] == LineOf(c, FIELDS[i + k])
    decreases k
  {
    hide LineOf;
    LinesFromLength(c, i);
    if k > 0 { LinesFromAt(c, i + 1, k - 1); }
  }

  lemma {:induction false} LinesFromLength(c: Config, i: nat)
    requires i <= |FIELDS|
    ensures |LinesFrom(c, i)| == |FIELDS| - i
    decreases |FIELDS| - i
  {
    hide LineOf;
    if i < |FIELDS| { LinesFromLength(c, i + 1); }
  }

  lemma {:induction false} JoinLength(ls: seq<string>)
    requires forall i :: 0 <= i < |ls| ==> |ls[i]| <= 1100
    ensures |Join(ls)| <= 1101 * |ls|
  {
    if ls != [] { JoinLength(ls[1..]); }
  }

  /** Printed and read back, over any valid base, a valid configuration is itself but for blanks at the end of its directories. */
  lemma TextReadBack(base: Config, c: Config)
    requires Validate(base) == Ok && Validate(c) == Ok
    ensures ParseText(base, PrintText(c)) == Accepted(Trimmed(c))
  {
    hide Validate, LineMeaning, ApplyAll, Lines, Join, LineOf, Written, TrimRight, LinesFrom;
    var ls := LinesFrom(c, 0);
    LinesFromLength(c, 0);
    forall i | 0 <= i < |ls| ensures ls[i] == LineOf(c, FIELDS[i]) && PlainLine(ls[i]) && |ls[i]| <= 1100 && LineMeaning(ls[i]) == Assign(FIELDS[i], TrimRight(Written(c, FIELDS[i]))) {
      LinesFromAt(c, 0, i);
      LineMeansItself(c, FIELDS[i]);
    }
    LinesRoundTrip(ls);
    JoinLength(ls);
    FinalCheckNeverRefuses(base, PrintText(c));
    SpelledIsRead(Meanings(ls), c, base);
  }

  /** So the round trip is exact if and only if no directory ends in a blank. */
  lemma TextRoundTrip(base: Config, c: Config)
    requires Validate(base) == Ok && Validate(c) == Ok
    ensures ParseText(base, PrintText(c)) == Accepted(c) <==> !IsSpace(c.dataDir[|c.dataDir| - 1]) && !IsSpace(c.logDir[|c.logDir| - 1])
  {
    TextReadBack(base, c);
    hide ParseText, PrintText, Ipv4Valid;
    TailMatters(c.dataDir);
    TailMatters(c.logDir);
  }

  lemma TailMatters(d: string)
    requires PathValid(d)
    ensures d != "" && (TrimRight(d) == d <==> !IsSpace(d[|d| - 1]))
  {
    var t := SplitTail(d);
  }

  function EntriesFor(c: Config): (es: seq<Entry>)
    ensures |es| == |FIELDS| && forall i :: 0 <= i < |FIELDS| ==> es[i] == Entry(EnvironmentOf(FIELDS[i]), Written(c, FIELDS[i]))
  {
    seq(|FIELDS|, i requires 0 <= i < |FIELDS| => Entry(EnvironmentOf(FIELDS[i]), Written(c, FIELDS[i])))
  }

  /** The same through the environment. */
  lemma EnvironmentReadBack(base: Config, c: Config)
    requires Validate(base) == Ok && Validate(c) == Ok
    ensures ApplyEnvironment(base, EntriesFor(c)) == Accepted(Trimmed(c))
  {
    hide Validate, ApplyAll, Written, TrimRight, EntriesFor, FieldFromEnvironment, EnvironmentOf, Trim;
    var ms := EntryMeanings(EntriesFor(c));
    forall i | 0 <= i < |FIELDS| ensures ms[i] == Assign(FIELDS[i], TrimRight(Written(c, FIELDS[i]))) {
      KeysAreKeys(FIELDS[i]);
      ValueMeansItself(c, FIELDS[i]);
      TrimIsTrimRight(Written(c, FIELDS[i]));
    }
    SpelledIsRead(ms, c, base);
    KeepsValid(ms, base, {}, 1);
  }

  lemma TrimIsTrimRight(v: string)
    requires v != "" && !IsSpace(v[0])
    ensures Trim(v) == TrimRight(v)
  {
  }
}
