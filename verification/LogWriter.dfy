/**
  The formatter at work: one writer type that either only counts or copies into a buffer, run twice
  over the same fields, so that nothing is written before everything is known to fit.
 */
module LogWriter {
  import opened Base
  import opened LogFormat

  class Writer {
    const data: array?<char>
    var size: nat
    var result: Code
    ghost var text: string

    ghost predicate Valid()
      reads this, data
    {
      result == Ok ==> size == |text| <= SIZE_MAX && (data != null ==> size <= data.Length && data[..size] == text)
    }

    /** `n` more characters can be taken. */
    ghost predicate Room(n: nat)
      reads this
    {
      data != null ==> size + n <= data.Length
    }

    constructor (buffer: array?<char>)
      ensures data == buffer && size == 0 && result == Ok && text == "" && Valid()
    {
      data, size, result, text := buffer, 0, Ok, "";
    }

    /** Counts, or copies; an overflowing count sticks and stops everything after it. */
    method Append(s: string)
      requires Valid() && Room(|s|)
      modifies this, data
      ensures Valid()
      ensures result == if old(result) != Ok then old(result) else if old(size) + |s| <= SIZE_MAX then Ok else Overflow
      ensures result == Ok ==> text == old(text) + s && size == old(size) + |s|
      ensures data != null ==> forall i :: old(size) + |s| <= i < data.Length ==> data[i] == old(data[i])
    {
      if result != Ok { return; }
      if |s| > SIZE_MAX - size {
        result := Overflow;
        return;
      }
      if data != null && |s| != 0 {
        ghost var before := data[..size];
        forall i | 0 <= i < |s| { data[size + i] := s[i]; }
        assert data[..size] == before;
        assert data[..size + |s|] == before + s;
      } else {
        assert text + s == text || data == null;
      }
      size := size + |s|;
      text := text + s;
    }

    /** Zeros until `count` digits make up `width`. */
    method AppendZeros(width: nat, count: nat)
      requires Valid() && result == Ok && count <= width && Room(width - count) && size + (width - count) <= SIZE_MAX
      modifies this, data
      ensures Valid() && result == Ok && text == old(text) + Zeros(width - count) && size == old(size) + (width - count)
      ensures data != null ==> forall i :: size <= i < data.Length ==> data[i] == old(data[i])
    {
      var w := width;
      assert Zeros(0) == "" && text + "" == text;
      while w > count
        invariant count <= w <= width && Valid() && result == Ok
        invariant text == old(text) + Zeros(width - w) && size == old(size) + (width - w)
        invariant data != null ==> forall i :: size <= i < data.Length ==> data[i] == old(data[i])
        decreases w
      {
        Append("0");
        ZerosSnoc(width - w);
        assert old(text) + Zeros(width - w) + "0" == old(text) + (Zeros(width - w) + "0");
        w := w - 1;
      }
    }

    /** The scratch digits from the last one stored to the first. */
    method AppendDigits(digits: array<char>, count: nat, ghost all: string)
      requires Valid() && result == Ok && Room(count) && size + count <= SIZE_MAX && digits != data
      requires count == |all| <= digits.Length && forall i :: 0 <= i < count ==> digits[i] == all[count - 1 - i]
      modifies this, data
      ensures Valid() && result == Ok && text == old(text) + all && size == old(size) + count
      ensures data != null ==> forall i :: size <= i < data.Length ==> data[i] == old(data[i])
    {
      var left := count;
      assert all[..0] == "" && text + "" == text;
      while left != 0
        invariant 0 <= left <= count && Valid() && result == Ok
        invariant text == old(text) + all[..count - left] && size == old(size) + (count - left)
        invariant data != null ==> forall i :: size <= i < data.Length ==> data[i] == old(data[i])
      {
        left := left - 1;
        assert digits[left] == all[count - 1 - left];
        Append([digits[left]]);
        assert all[..count - left] == all[..count - left - 1] + [all[count - left - 1]];
        assert old(text) + all[..count - left - 1] + [all[count - left - 1]] == old(text) + all[..count - left];
      }
      assert all[..count] == all;
    }

    /** Least significant digit first into a scratch array, then zeros, then the digits in order. */
    method AppendNumber(value: Base.size, width: nat)
      requires Valid() && result == Ok && Room(|Padded(value, width)|) && size + |Padded(value, width)| <= SIZE_MAX
      modifies this, data
      ensures Valid() && result == Ok && text == old(text) + Padded(value, width) && size == old(size) + |Padded(value, width)|
      ensures data != null ==> forall i :: size <= i < data.Length ==> data[i] == old(data[i])
    {
      hide Digits, Zeros;
      var digits, count := SplitDigits(value);
      if width > count {
        AppendZeros(width, count);
        assert old(text) + Zeros(width - count) + Digits(value) == old(text) + (Zeros(width - count) + Digits(value));
      }
      AppendDigits(digits, count, Digits(value));
    }

    method AppendSpan(span: seq<byte>)
      requires Valid() && result == Ok && Room(|Quote(span)|) && size + |Quote(span)| <= SIZE_MAX
      modifies this, data
      ensures Valid() && result == Ok && text == old(text) + Quote(span) && size == old(size) + |Quote(span)|
      ensures data != null ==> forall i :: size <= i < data.Length ==> data[i] == old(data[i])
    {
      hide EscapeByte;
      ghost var start := text;
      Append("\"");
      assert Escape(span[..0]) == "" && text == start + "\"" + "";
      for i := 0 to |span|
        invariant Valid() && result == Ok && |Escape(span[..i])| <= |Escape(span)|
        invariant text == start + "\"" + Escape(span[..i]) && size == old(size) + 1 + |Escape(span[..i])|
        invariant data != null ==> forall k :: old(size) + |Quote(span)| <= k < data.Length ==> data[k] == old(data[k])
      {
        EscapeSnoc(span, i);
        Append(EscapeByte(span[i]));
        assert start + "\"" + Escape(span[..i]) + EscapeByte(span[i]) == start + "\"" + (Escape(span[..i]) + EscapeByte(span[i]));
      }
      assert span[..|span|] == span;
      Append("\"");
      assert start + "\"" + Escape(span) + "\"" == start + ("\"" + Escape(span) + "\"");
    }

    method AppendToken(t: Token)
      requires Valid() && result == Ok && Room(|Show(t)|) && size + |Show(t)| <= SIZE_MAX && (t.Number? ==> t.n <= U64_MAX)
      modifies this, data
      ensures Valid() && result == Ok && text == old(text) + Show(t) && size == old(size) + |Show(t)|
      ensures data != null ==> forall i :: size <= i < data.Length ==> data[i] == old(data[i])
    {
      hide Quote, Padded;
      match t
      case Text(s) => Append(s);
      case Number(n, width) => AppendNumber(n, width);
      case Word(level) => Append(LevelName(level));
      case Quoted(span) => AppendSpan(span);
    }

    /** The fields of a line, one after the other. */
    method RenderAll(ts: seq<Token>)
      requires Valid() && result == Ok && text == "" && Room(|Emit(ts)|) && |Emit(ts)| <= SIZE_MAX
      requires forall i :: 0 <= i < |ts| ==> ts[i].Number? ==> ts[i].n <= U64_MAX
      modifies this, data
      ensures Valid() && result == Ok && text == Emit(ts) && size == |Emit(ts)|
      ensures data != null ==> forall i :: size <= i < data.Length ==> data[i] == old(data[i])
    {
      hide Show;
      for k := 0 to |ts|
        invariant Valid() && result == Ok && text == Emit(ts[..k]) && size == |Emit(ts[..k])| <= |Emit(ts)|
        invariant data != null ==> forall i :: |Emit(ts)| <= i < data.Length ==> data[i] == old(data[i])
      {
        EmitSnoc(ts, k);
        AppendToken(ts[k]);
      }
      assert ts[..|ts|] == ts;
    }
  }

  /** The digits of `value`, last one first. */
  method SplitDigits(value: Base.size) returns (digits: array<char>, count: nat)
    ensures fresh(digits) && digits.Length == 20 && count == |Digits(value)| <= 20
    ensures forall i :: 0 <= i < count ==> digits[i] == Digits(value)[count - 1 - i]
  {
    digits := new char[20](i => '0');
    count := 0;
    var v: nat := value;
    ghost var tail := "";
    Powers();
    hide Pow10;
    while true
      invariant count < 20 && count == |tail| && v < Pow10(20 - count)
      invariant Digits(value) == Digits(v) + tail
      invariant forall i :: 0 <= i < count ==> digits[i] == tail[count - 1 - i]
      decreases v
    {
      digits[count] := DigitChar(v % 10);
      PowStep(20 - count);
      ghost var longer := [DigitChar(v % 10)] + tail;
      count := count + 1;
      if v / 10 == 0 {
        assert Digits(v) == [DigitChar(v)];
        assert Digits(value) == longer;
        break;
      }
      assert Digits(v) + tail == Digits(v / 10) + longer;
      tail := longer;
      assert count < 20 by { if count == 20 { PowZero(); } }
      v := v / 10;
    }
  }

  lemma PowStep(k: nat)
    requires k > 0
    ensures Pow10(k) == 10 * Pow10(k - 1)
  {
  }

  lemma PowZero()
    ensures Pow10(0) == 1
  {
  }

  lemma {:induction false} ZerosSnoc(k: nat)
    ensures Zeros(k + 1) == Zeros(k) + "0"
  {
    assert forall i :: 0 <= i < k + 1 ==> Zeros(k + 1)[i] == (Zeros(k) + "0")[i];
  }

  lemma {:induction false} EscapeConcat(a: seq<byte>, b: seq<byte>)
    ensures Escape(a + b) == Escape(a) + Escape(b)
  {
    hide EscapeByte;
    if a == [] {
      assert a + b == b;
    } else {
      EscapeConcat(a[1..], b);
      assert (a + b)[1..] == a[1..] + b;
    }
  }

  lemma EscapeSnoc(span: seq<byte>, i: nat)
    requires i < |span|
    ensures Escape(span[..i + 1]) == Escape(span[..i]) + EscapeByte(span[i]) && |Escape(span[..i + 1])| <= |Escape(span)|
  {
    hide EscapeByte;
    assert span[..i + 1] == span[..i] + [span[i]] && span == span[..i + 1] + span[i + 1..];
    EscapeConcat(span[..i], [span[i]]);
    EscapeConcat(span[..i + 1], span[i + 1..]);
    assert Escape([span[i]]) == EscapeByte(span[i]) by { assert [span[i]][1..] == [] && EscapeByte(span[i]) + "" == EscapeByte(span[i]); }
  }

  lemma EmitSnoc(ts: seq<Token>, k: nat)
    requires k < |ts|
    ensures Emit(ts[..k + 1]) == Emit(ts[..k]) + Show(ts[k]) && |Emit(ts[..k + 1])| <= |Emit(ts)|
  {
    hide Show;
    assert ts[..k + 1] == ts[..k] + [ts[k]] && ts == ts[..k + 1] + ts[k + 1..];
    EmitConcat(ts[..k], [ts[k]]);
    EmitConcat(ts[..k + 1], ts[k + 1..]);
    EmitOne(ts[k]);
  }

  /** What the arguments alone decide. */
  function Verdict(r: Record, t: Timestamp, tid: nat): (code: Code)
  {
    if tid == 0 || !LevelValid(r.level) then InvalidArgument
    else if !TimestampValid(t) || !SpansValid(r) then Range
    else Ok
  }

  /**
    Succeeds exactly when the arguments are valid and the buffer holds the line and its terminator;
    then the buffer starts with the line, and otherwise it is untouched.
   */
  method Format(r: Record, t: Timestamp, tid: Base.size, buffer: array<char>) returns (code: Code, written: nat)
    requires r.sequence <= U32_MAX && buffer.Length <= SIZE_MAX
    modifies buffer
    ensures code == if Verdict(r, t, tid) != Ok then Verdict(r, t, tid) else if buffer.Length < |Render(r, t, tid)| + 1 then Range else Ok
    ensures code != Ok ==> buffer[..] == old(buffer[..])
    ensures code == Ok ==> written == |Render(r, t, tid)| < buffer.Length && buffer[..written] == Render(r, t, tid) && buffer[written] == '\0'
    ensures code == Ok ==> forall i :: written < i < buffer.Length ==> buffer[i] == old(buffer[i])
  {
    hide TimestampValid, Emit, LineTokens;
    written := 0;
    if tid == 0 || !LevelValid(r.level) { return InvalidArgument, 0; }
    if !TimestampValid(t) { return Range, 0; }
    if |r.module_| > MODULE_MAX || |r.request| > ID_MAX || |r.task| > ID_MAX || |r.message| > MESSAGE_MAX { return Range, 0; }
    var ts := LineTokens(r, t, tid);
    LineAlwaysFits(r, t, tid);
    NumbersFit(r, t, tid);
    var measure := new Writer(null);
    measure.RenderAll(ts);
    if measure.size > LINE_MAX { assert false; }
    if buffer.Length < measure.size + 1 { return Range, 0; }
    var output := new Writer(buffer);
    output.RenderAll(ts);
    buffer[output.size] := '\0';
    return Ok, output.size;
  }

  /** The limits, spelled out: which arguments are refused and how. */
  lemma VerdictExact(r: Record, t: Timestamp, tid: nat)
    ensures Verdict(r, t, tid) == InvalidArgument <==> tid == 0 || r.level < 0 || r.level > 3
    ensures Verdict(r, t, tid) == Ok <==>
              && tid != 0 && 0 <= r.level <= 3 && |r.module_| <= 64 && |r.request| <= 128 && |r.task| <= 128 && |r.message| <= 4096
              && 1970 <= t.year <= 9999 && 1 <= t.month <= 12 && 1 <= t.day <= DaysIn(t.year, t.month)
              && t.hour <= 23 && t.minute <= 59 && t.second <= 59 && t.nanosecond <= 999_999_999
    ensures Verdict(r, t, tid) in {Ok, InvalidArgument, Range}
  {
  }
}
