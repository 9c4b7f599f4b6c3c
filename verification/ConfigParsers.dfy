/** The configuration parsers at work: scanning loops over the text, and a candidate published only at the end. */
module ConfigParsers {
  import opened Base
  import opened LogFormat
  import opened ConfigModel

  lemma TrimLeftStep(s: string, first: nat)
    requires first <= |s|
    ensures first < |s| && IsSpace(s[first]) ==> TrimLeft(s[first..]) == TrimLeft(s[first + 1..])
    ensures !(first < |s| && IsSpace(s[first])) ==> TrimLeft(s[first..]) == s[first..]
  {
    if first < |s| { assert s[first..][1..] == s[first + 1..]; }
  }

  lemma TrimRightStep(s: string, first: nat, last: nat)
    requires first <= last <= |s|
    ensures first < last && IsSpace(s[last - 1]) ==> TrimRight(s[first..last]) == TrimRight(s[first..last - 1])
    ensures !(first < last && IsSpace(s[last - 1])) ==> TrimRight(s[first..last]) == s[first..last]
  {
    if first < last { assert s[first..last][..last - first - 1] == s[first..last - 1]; }
  }

  /** Blanks off the front, then off the back. */
  method TrimSpan(s: string) returns (t: string)
    ensures t == Trim(s)
  {
    hide TrimLeft, TrimRight;
    var first, last := 0, |s|;
    assert s[0..] == s;
    while first < last && IsSpace(s[first])
      invariant first <= last == |s| && TrimLeft(s) == TrimLeft(s[first..])
    {
      TrimLeftStep(s, first);
      first := first + 1;
    }
    TrimLeftStep(s, first);
    assert s[first..last] == s[first..];
    while first < last && IsSpace(s[last - 1])
      invariant first <= last <= |s| && Trim(s) == TrimRight(s[first..last])
    {
      TrimRightStep(s, first, last);
      last := last - 1;
    }
    TrimRightStep(s, first, last);
    return s[first..last];
  }

  method ParseDecimal(s: string) returns (r: Checked)
    ensures r == Decimal(s)
  {
    if s == "" { return Bad(InvalidArgument); }
    var value: size := 0;
    assert s[0..] == s;
    for i := 0 to |s|
      invariant Decimal(s) == DecimalFrom(s[i..], value)
    {
      assert s[i..][1..] == s[i + 1..];
      if !IsDigit(s[i]) { return Bad(InvalidArgument); }
      var tens := CheckedMul(value, 10);
      if tens.Bad? { return tens; }
      var next := CheckedAdd(tens.value, DigitOf(s[i]));
      if next.Bad? { return next; }
      value := next.value;
    }
    return Good(value);
  }

  lemma RunStep(s: string, n: nat)
    requires n < |s|
    ensures DigitRun(s[n..]) == if IsDigit(s[n]) then 1 + DigitRun(s[n + 1..]) else 0
  {
    assert s[n..][1..] == s[n + 1..];
  }

  method CountDigits(s: string) returns (n: nat)
    ensures n == DigitRun(s)
  {
    hide DigitRun;
    n := 0;
    assert s[0..] == s;
    while n < |s| && IsDigit(s[n])
      invariant n <= |s| && DigitRun(s) == n + DigitRun(s[n..])
    {
      RunStep(s, n);
      n := n + 1;
    }
    if n < |s| { RunStep(s, n); }
  }

  method ParseScaled(s: string, duration: bool) returns (r: Checked)
    ensures r == if duration then DurationMs(s) else SizeBytes(s)
  {
    hide DigitRun, Decimal;
    var n := CountDigits(s);
    if n == 0 { return Bad(InvalidArgument); }
    var unit := if duration then TimeUnit(s[n..]) else SizeUnit(s[n..]);
    if unit == 0 { return Bad(InvalidArgument); }
    var value := ParseDecimal(s[..n]);
    if value.Bad? { return value; }
    if value.value > SIZE_MAX { return Bad(Overflow); }
    return CheckedMul(value.value, unit);
  }

  /** One number of an address: at most three digits, read from the front of `s`. */
  method ReadOctet(s: string) returns (ok: bool, n: nat)
    ensures ok <==> OctetOk(s[..DigitRun(s)])
    ensures ok ==> n == DigitRun(s)
  {
    hide DigitRun;
    n := 0;
    var value := 0;
    assert s[0..] == s && s[..0] == "";
    while n < |s| && IsDigit(s[n])
      invariant n <= |s| && n <= 3 && AllDigits(s[..n]) && value == Value(s[..n]) && DigitRun(s) == n + DigitRun(s[n..])
    {
      RunStep(s, n);
      if n == 3 { return false, n; }
      assert s[..n + 1] == s[..n] + [s[n]];
      ValueSnoc(s[..n], s[n]);
      value := value * 10 + DigitOf(s[n]);
      n := n + 1;
    }
    if n < |s| { RunStep(s, n); }
    return n != 0 && !(n > 1 && s[0] == '0') && value <= 255, n;
  }

  method CheckIpv4(s: string) returns (ok: bool)
    ensures ok == Ipv4Valid(s)
  {
    hide DigitRun, OctetOk;
    var rest := s;
    for part := 0 to 4
      invariant part < 4 ==> (Ipv4Valid(s) <==> AddressFrom(rest, 4 - part))
      invariant part == 4 ==> (Ipv4Valid(s) <==> rest == "")
    {
      var fits, n := ReadOctet(rest);
      if !fits { return false; }
      if part < 3 {
        if n == |rest| || rest[n] != '.' { return false; }
        rest := rest[n + 1..];
      } else {
        rest := rest[n..];
      }
    }
    return rest == "";
  }

  method FindControl(s: string, allowTab: bool) returns (found: bool)
    ensures found == if allowTab then BadInLine(s) else HasControl(s)
  {
    for i := 0 to |s|
      invariant forall k :: 0 <= k < i ==> !(IsControl(s[k]) && !(allowTab && s[k] == '\t'))
    {
      if IsControl(s[i]) && !(allowTab && s[i] == '\t') { return true; }
    }
    return false;
  }

  /** The meaning of a value for a field, all checks in order. */
  method InterpretValue(f: Field, s: string) returns (r: Interpreted)
    ensures r == Interpret(f, s)
  {
    hide Ipv4Valid, HasControl, Decimal, DurationMs, SizeBytes;
    if s == "" { return Refused(InvalidArgument, EmptyValue); }
    if |s| > VALUE_MAX { return Refused(Range, ValueTooLong); }
    var control := FindControl(s, false);
    if control { return Refused(InvalidArgument, InvalidCharacter); }
    match f
    case FAddress =>
      var ok := CheckIpv4(s);
      if !ok { return Refused(InvalidArgument, InvalidAddress); }
      if |s| >= ADDRESS_CAPACITY { return Refused(Range, ValueTooLong); }
      return Means(Words(f, s));
    case FDataDir =>
      if s[0] != '/' { return Refused(InvalidArgument, InvalidPath); }
      return if |s| >= PATH_CAPACITY then Refused(Range, ValueTooLong) else Means(Words(f, s));
    case FLogDir =>
      if s[0] != '/' { return Refused(InvalidArgument, InvalidPath); }
      return if |s| >= PATH_CAPACITY then Refused(Range, ValueTooLong) else Means(Words(f, s));
    case FStderr =>
      return if s == "true" then Means(Flag(true)) else if s == "false" then Means(Flag(false)) else Refused(InvalidArgument, InvalidBoolean);
    case _ =>
      var value;
      if f == FIdle || f == FLogSize {
        value := ParseScaled(s, f == FIdle);
      } else {
        value := ParseDecimal(s);
      }
      if value.Bad? {
        return Refused(value.code, if value.code == Overflow then NumericOverflow else if f == FIdle || f == FLogSize then InvalidUnit else InvalidInteger);
      }
      if value.value < Lowest(f) || value.value > Highest(f) { return Refused(Range, OutOfRange); }
      return Means(Figure(f, value.value));
  }

  method FindSeparator(s: string) returns (n: nat)
    ensures n == Separator(s)
  {
    n := 0;
    while n < |s| && s[n] != '='
      invariant n <= |s| && forall i :: 0 <= i < n ==> s[i] != '='
    {
      n := n + 1;
    }
    SeparatorIs(s, n);
  }

  /** One line against the candidate and the fields already set. */
  method ParseLine(line: string, c: Config, seen: set<Field>) returns (t: Turned)
    ensures t == ApplyOne(LineMeaning(line), c, seen)
  {
    hide BadInLine, Trim, Separator, FieldFromKey, Interpret;
    if |line| > CONFIG_LINE_MAX { return Stop(Range, LineTooLong); }
    var bad := FindControl(line, true);
    if bad { return Stop(InvalidArgument, InvalidCharacter); }
    var s := TrimSpan(line);
    if s == "" || s[0] == '#' { return Next(c, seen); }
    var n := FindSeparator(s);
    if n == |s| { return Stop(InvalidArgument, MissingSeparator); }
    var key := TrimSpan(s[..n]);
    if key == "" { return Stop(InvalidArgument, EmptyKey); }
    var field := FieldFromKey(key);
    if field.None? { return Stop(InvalidArgument, UnknownKey); }
    if field.value in seen { return Stop(InvalidArgument, Duplicate); }
    var value := TrimSpan(s[n + 1..]);
    var r := InterpretValue(field.value, value);
    match r
    case Refused(code, issue) => return Stop(code, issue);
    case Means(setting) => return Next(Put(c, setting), seen + {field.value});
  }

  lemma MeaningsCons(l: string, tail: seq<string>)
    ensures Meanings([l] + tail) == [LineMeaning(l)] + Meanings(tail)
  {
    hide LineMeaning;
    assert ([l] + tail)[1..] == tail;
  }

  /** The lines after the first, which ends at `n`. */
  function LaterLines(s: string, n: nat): seq<string>
  {
    if n < |s| then Lines(s[n + 1..]) else []
  }

  lemma LinesStep(s: string, n: nat)
    requires s != "" && n == LineLength(s)
    ensures Meanings(Lines(s)) == [LineMeaning(Stripped(s, n))] + Meanings(LaterLines(s, n))
  {
    hide LineMeaning, Meanings, Stripped, LineLength;
    MeaningsCons(Stripped(s, n), LaterLines(s, n));
  }

  /** The whole text on a copy of the base; `current` is replaced only if everything is accepted. */
  method ParseConfigText(base: Config, text: string, current: Config) returns (code: Code, next: Config)
    ensures var o := ParseText(base, text);
            if o.Accepted? then code == Ok && next == o.config else code == o.code && next == current
  {
    hide Validate, LineMeaning, ApplyOne, LineLength;
    next := current;
    var valid := Validate(base);
    if valid != Ok { return valid, current; }
    if |text| > TEXT_MAX { return Range, current; }
    var candidate, seen, rest, line := base, {}, text, 1;
    while rest != ""
      invariant ApplyAll(Meanings(Lines(text)), base, {}, 1) == ApplyAll(Meanings(Lines(rest)), candidate, seen, line)
      decreases |rest|
    {
      var n := FindLineEnd(rest);
      LinesStep(rest, n);
      var t := ParseLine(Stripped(rest, n), candidate, seen);
      ghost var ms := Meanings(Lines(rest));
      assert ms[1..] == Meanings(LaterLines(rest, n));
      if t.Stop? { return t.code, current; }
      candidate, seen, line := t.config, t.seen, line + 1;
      rest := if n < |rest| then rest[n + 1..] else "";
    }
    var final := Validate(candidate);
    return final, if final == Ok then candidate else current;
  }

  method FindLineEnd(s: string) returns (n: nat)
    ensures n == LineLength(s)
  {
    n := 0;
    while n < |s| && s[n] != '\n'
      invariant n <= |s| && forall i :: 0 <= i < n ==> s[i] != '\n'
    {
      n := n + 1;
    }
    LineLengthIs(s, n);
  }

  /** Environment entries on a copy of the base, published only if all are accepted. */
  method ApplyEntries(base: Config, es: seq<Entry>, current: Config) returns (code: Code, next: Config)
    ensures var o := ApplyEnvironment(base, es);
            if o.Accepted? then code == Ok && next == o.config else code == o.code && next == current
  {
    hide Validate, Interpret, FieldFromEnvironment, Trim, Put;
    next := current;
    var valid := Validate(base);
    if valid != Ok { return valid, current; }
    if |es| > ENVIRONMENT_MAX { return Range, current; }
    var candidate, seen := base, {};
    ghost var ms := EntryMeanings(es);
    assert ms[0..] == ms;
    for i := 0 to |es|
      invariant ApplyAll(ms, base, {}, 1) == ApplyAll(ms[i..], candidate, seen, i + 1)
    {
      assert ms[i..][1..] == ms[i + 1..] && ms[i..][0] == EntryMeaning(es[i].name, es[i].value);
      var field := FieldFromEnvironment(es[i].name);
      if field.None? { return InvalidArgument, current; }
      if field.value in seen { return InvalidArgument, current; }
      var value := TrimSpan(es[i].value);
      var r := InterpretValue(field.value, value);
      if r.Refused? { return r.code, current; }
      candidate, seen := Put(candidate, r.setting), seen + {field.value};
    }
    var final := Validate(candidate);
    return final, if final == Ok then candidate else current;
  }
}
