/** Execution events as JSON records. The octets of a record are modelled as characters. */
module ExecWire {
  import opened Common
  import opened FileNames

  datatype Event =
    | Stdout(data: seq<byte>)
    | Stderr(data: seq<byte>)
    | Exit(code: Option<int>, signal: Option<int>)
    | TimedOut
    | Canceled
    | Error(message: string)

  const NEWLINE := '\n'
  const PIPE_BUFFER := 8192
  const RECORD_LIMIT := 65536

  // ---------------------------------------------------------------- pieces of JSON

  function Numbers(data: seq<byte>): string {
    if data == [] then ""
    else if |data| == 1 then Decimal(data[0])
    else Decimal(data[0]) + "," + Numbers(data[1..])
  }

  function Integer(n: int): string {
    if n < 0 then "-" + Decimal(-n) else Decimal(n)
  }

  function OptionalInteger(n: Option<int>): string {
    if n.None? then "null" else Integer(n.value)
  }

  function HexDigit(d: nat): char
    requires d < 16
  {
    "0123456789abcdef"[d]
  }

  /** How a character of a JSON string is written. */
  function EscapeChar(c: char): string {
    if c == '\"' then "\\\""
    else if c == '\\' then "\\\\"
    else if c as int == 8 then "\\b"
    else if c as int == 9 then "\\t"
    else if c as int == 10 then "\\n"
    else if c as int == 12 then "\\f"
    else if c as int == 13 then "\\r"
    else if (c as int) < 32 then "\\u00" + [HexDigit(c as int / 16), HexDigit(c as int % 16)]
    else [c]
  }

  function Escape(s: string): string {
    if s == "" then "" else EscapeChar(s[0]) + Escape(s[1..])
  }

  function Tag(name: string): string {
    "{\"type\":\"" + name + "\""
  }

  /** One event as compact JSON, the tag first. */
  function Encode(event: Event): string {
    match event
    case Stdout(data) => Tag("stdout") + (",\"data\":[" + Numbers(data) + "]}")
    case Stderr(data) => Tag("stderr") + (",\"data\":[" + Numbers(data) + "]}")
    case Exit(code, signal) =>
      Tag("exit") + (",\"code\":" + (OptionalInteger(code) + [','] + ("\"signal\":" + OptionalInteger(signal) + "}")))
    case TimedOut => Tag("timed_out") + "}"
    case Canceled => Tag("canceled") + "}"
    case Error(message) => Tag("error") + (",\"message\":\"" + Escape(message) + "\"}")
  }

  // ---------------------------------------------------------------- bounds and separators

  lemma {:induction false} NumbersFit(data: seq<byte>)
    ensures |Numbers(data)| <= 4 * |data|
    ensures NEWLINE !in Numbers(data)
  {
    if data != [] {
      ByteDecimal(data[0]);
      NumbersFit(data[1..]);
    }
  }

  lemma ByteDecimal(b: byte)
    ensures |Decimal(b)| <= 3 && NEWLINE !in Decimal(b) && ',' !in Decimal(b)
  {
    if b >= 10 {
      assert Decimal(b) == Decimal(b / 10) + [Digit(b % 10)];
      if b >= 100 {
        assert Decimal(b / 10) == Decimal(b / 100) + [Digit(b / 10 % 10)];
        assert |Decimal(b / 100)| == 1;
      } else {
        assert |Decimal(b / 10)| == 1;
      }
    }
  }

  lemma {:induction false} EscapeHasNoNewline(s: string)
    ensures NEWLINE !in Escape(s)
  {
    if s != "" {
      EscapeHasNoNewline(s[1..]);
    }
  }

  lemma IntegerHas(n: Option<int>)
    ensures NEWLINE !in OptionalInteger(n) && ',' !in OptionalInteger(n)
  {
  }

  lemma RecordHasNoNewline(event: Event)
    ensures NEWLINE !in Encode(event)
  {
    hide Numbers, OptionalInteger, Escape;
    match event
    case Stdout(data) => NumbersFit(data);
    case Stderr(data) => NumbersFit(data);
    case Exit(code, signal) => IntegerHas(code); IntegerHas(signal);
    case Error(message) => EscapeHasNoNewline(message);
    case _ =>
  }

  /** What one pipe read fills stays below the reader's limit, four characters an octet. */
  lemma OutputRecordsFit(event: Event)
    requires (event.Stdout? || event.Stderr?) && |event.data| <= PIPE_BUFFER
    ensures |Encode(event)| < RECORD_LIMIT
  {
    NumbersFit(event.data);
  }

  // ---------------------------------------------------------------- nothing is lost

  lemma {:induction false} NumbersInjective(a: seq<byte>, b: seq<byte>)
    requires Numbers(a) == Numbers(b)
    ensures a == b
  {
    if a != [] && b != [] {
      FirstNumber(a);
      FirstNumber(b);
      DecimalInjective(a[0], b[0]);
      if |a| > 1 {
        assert Numbers(a)[|Decimal(a[0])| + 1..] == Numbers(a[1..]);
        assert Numbers(b)[|Decimal(b[0])| + 1..] == Numbers(b[1..]);
        NumbersInjective(a[1..], b[1..]);
        assert a == [a[0]] + a[1..] && b == [b[0]] + b[1..];
      }
    }
  }

  /** The first number ends at the first comma. */
  lemma FirstNumber(data: seq<byte>)
    requires data != []
    ensures Split(Numbers(data), ',')[0] == Decimal(data[0])
    ensures |Split(Numbers(data), ',')| == 1 <==> |data| == 1
  {
    ByteDecimal(data[0]);
    SplitFree(Decimal(data[0]), ',');
    if |data| > 1 {
      assert Numbers(data) == Decimal(data[0]) + [','] + Numbers(data[1..]);
      SplitAt(Decimal(data[0]), Numbers(data[1..]), ',');
    }
  }

  lemma IntegerFirst(n: int)
    ensures Integer(n) != "" && Integer(n)[0] != 'n'
  {
    var digits := Decimal(if n < 0 then -n else n);
    assert digits[0] in digits;
  }

  lemma OptionalIntegerInjective(a: Option<int>, b: Option<int>)
    requires OptionalInteger(a) == OptionalInteger(b)
    ensures a == b
  {
    if a.Some? && b.Some? {
      var x, y := Integer(a.value), Integer(b.value);
      assert x[0] in x && y[0] in y;
      if a.value < 0 {
        assert x[1..] == Decimal(-a.value) && y[1..] == Decimal(-b.value);
        DecimalInjective(-a.value, -b.value);
      } else {
        DecimalInjective(a.value, b.value);
      }
    } else if a.Some? {
      IntegerFirst(a.value);
    } else if b.Some? {
      IntegerFirst(b.value);
    }
  }

  lemma EscapesDiffer(c: char, d: char)
    requires var e, f := EscapeChar(c), EscapeChar(d);
      && e[0] == f[0] && (|e| > 1 && |f| > 1 ==> e[1] == f[1])
      && (|e| == 6 && |f| == 6 ==> e[4] == f[4] && e[5] == f[5])
    ensures c == d
  {
    var e, f := EscapeChar(c), EscapeChar(d);
    if |e| == 6 && |f| == 6 {
      assert e[4] == HexDigit(c as int / 16) && f[4] == HexDigit(d as int / 16);
      assert e[5] == HexDigit(c as int % 16) && f[5] == HexDigit(d as int % 16);
    }
  }

  lemma EscapeSizes(c: char)
    ensures |EscapeChar(c)| in {1, 2, 6}
  {
  }

  lemma EscapedFirst(c: char, d: char, s: string, t: string)
    requires EscapeChar(c) + s == EscapeChar(d) + t
    ensures c == d && s == t
  {
    var x, y := EscapeChar(c) + s, EscapeChar(d) + t;
    EscapeSizes(c);
    EscapeSizes(d);
    hide EscapeChar;
    assert forall i :: 0 <= i < |EscapeChar(c)| ==> x[i] == EscapeChar(c)[i];
    assert forall i :: 0 <= i < |EscapeChar(d)| ==> y[i] == EscapeChar(d)[i];
    EscapesDiffer(c, d);
    assert x[|EscapeChar(c)|..] == s && y[|EscapeChar(d)|..] == t;
  }

  lemma {:induction false} EscapeInjective(a: string, b: string)
    requires Escape(a) == Escape(b)
    ensures a == b
  {
    if a != "" && b != "" {
      EscapedFirst(a[0], b[0], Escape(a[1..]), Escape(b[1..]));
      EscapeInjective(a[1..], b[1..]);
      assert a == [a[0]] + a[1..] && b == [b[0]] + b[1..];
    }
  }

  function Kind(event: Event): nat {
    match event
    case Stdout(_) => 0
    case Stderr(_) => 1
    case Exit(_, _) => 2
    case TimedOut => 3
    case Canceled => 4
    case Error(_) => 5
  }

  lemma KindShows(event: Event)
    ensures var r := Encode(event);
      |r| > 12 && Kind(event) ==
        if r[9] == 's' then (if r[12] == 'o' then 0 else 1)
        else if r[9] == 't' then 3
        else if r[9] == 'c' then 4
        else if r[10] == 'x' then 2
        else 5
  {
  }

  lemma Middle(front: string, a: string, b: string, back: string)
    requires front + (a + back) == front + (b + back)
    ensures a == b
  {
    var x, y := front + (a + back), front + (b + back);
    assert |a| == |b|;
    assert x[|front|..|front| + |a|] == a && y[|front|..|front| + |b|] == b;
  }

  lemma Behind(front: string, a: string, b: string)
    requires front + a == front + b
    ensures a == b
  {
    assert (front + a)[|front|..] == a && (front + b)[|front|..] == b;
  }

  /** Different events have different records, so a decoder that undoes the encoding exists. */
  lemma EncodeInjective(a: Event, b: Event)
    requires Encode(a) == Encode(b)
    ensures a == b
  {
    KindShows(a);
    KindShows(b);
    match a
    case Stdout(data) => DataInjective("stdout", data, b.data);
    case Stderr(data) => DataInjective("stderr", data, b.data);
    case Exit(code, signal) => ExitInjective(a, b);
    case Error(message) =>
      Behind(Tag("error"), ",\"message\":\"" + Escape(message) + "\"}", ",\"message\":\"" + Escape(b.message) + "\"}");
      ConcatAssoc(",\"message\":\"", Escape(message), "\"}");
      ConcatAssoc(",\"message\":\"", Escape(b.message), "\"}");
      Middle(",\"message\":\"", Escape(message), Escape(b.message), "\"}");
      EscapeInjective(message, b.message);
    case _ =>
  }

  lemma DataInjective(name: string, a: seq<byte>, b: seq<byte>)
    requires Tag(name) + (",\"data\":[" + Numbers(a) + "]}") == Tag(name) + (",\"data\":[" + Numbers(b) + "]}")
    ensures a == b
  {
    Behind(Tag(name), ",\"data\":[" + Numbers(a) + "]}", ",\"data\":[" + Numbers(b) + "]}");
    ConcatAssoc(",\"data\":[", Numbers(a), "]}");
    ConcatAssoc(",\"data\":[", Numbers(b), "]}");
    Middle(",\"data\":[", Numbers(a), Numbers(b), "]}");
    NumbersInjective(a, b);
  }

  lemma ExitInjective(a: Event, b: Event)
    requires a.Exit? && b.Exit? && Encode(a) == Encode(b)
    ensures a == b
  {
    var tailA, tailB := "\"signal\":" + OptionalInteger(a.signal) + "}", "\"signal\":" + OptionalInteger(b.signal) + "}";
    var restA, restB := OptionalInteger(a.code) + [','] + tailA, OptionalInteger(b.code) + [','] + tailB;
    Behind(Tag("exit"), ",\"code\":" + restA, ",\"code\":" + restB);
    Behind(",\"code\":", restA, restB);
    IntegerHas(a.code);
    IntegerHas(b.code);
    SplitFree(OptionalInteger(a.code), ',');
    SplitFree(OptionalInteger(b.code), ',');
    SplitAt(OptionalInteger(a.code), tailA, ',');
    SplitAt(OptionalInteger(b.code), tailB, ',');
    assert Split(restA, ',')[0] == OptionalInteger(a.code) && Split(restB, ',')[0] == OptionalInteger(b.code);
    OptionalIntegerInjective(a.code, b.code);
    Behind(OptionalInteger(a.code) + [','], tailA, tailB);
    ConcatAssoc("\"signal\":", OptionalInteger(a.signal), "}");
    ConcatAssoc("\"signal\":", OptionalInteger(b.signal), "}");
    Middle("\"signal\":", OptionalInteger(a.signal), OptionalInteger(b.signal), "}");
    OptionalIntegerInjective(a.signal, b.signal);
  }
}
