/**
 The JSON line of a command's start, to the byte: its number, its arguments, and its source line where that
 is known. The whole argument vector goes into the one line, however long it is.
 */
module JsonTrace {
  import opened Bytes
  import opened Frames
  import opened Json

  const COMMA: byte := 0x2C
  const CLOSING: byte := 0x5D

  const TYPE: seq<byte> := Ascii("{\"type\":\"trace\",\"trace\":{")
  const EVENT: seq<byte> := Ascii("\"event\":\"cmd_start\",\"seq\":")
  const START: seq<byte> := TYPE + EVENT
  const ARGV: seq<byte> := Ascii(",\"argv\":[")
  const LINE: seq<byte> := Ascii(",\"line\":")

  // ---- Writing ----

  function Decimal(n: nat): (r: seq<byte>)
    ensures r != [] && forall i :: 0 <= i < |r| ==> 0x30 <= r[i] <= 0x39
  {
    if n < 10 then [0x30 + n] else Decimal(n / 10) + [0x30 + n % 10]
  }

  /** The strings of a JSON list, up to its bracket. */
  function Strings(argv: seq<seq<byte>>): seq<byte>
    requires argv != []
  {
    [QUOTE] + (Escaped(argv[0]) + ([QUOTE] + if |argv| == 1 then [] else [COMMA] + Strings(argv[1..])))
  }

  /** A line number that is not known is left out. */
  function LineField(line: nat): seq<byte>
  {
    if line == 0 then [] else LINE + Decimal(line)
  }

  /** The frame's JSON object. A command has a name at least. */
  function StartLine(number: nat, argv: seq<seq<byte>>, line: nat): seq<byte>
    requires argv != []
  {
    START + (Decimal(number) + (ARGV + (Strings(argv) + ([CLOSING] + (LineField(line) + ENDING)))))
  }

  // ---- Reading ----

  /** What is read, and what follows it. */
  datatype Read<T> = Fail | Read(value: T, rest: seq<byte>)

  /** A number ends where its digits do. */
  function ReadNumber(so: nat, s: seq<byte>): Read<nat>
    decreases |s|
  {
    if s == [] then Fail
    else if 0x30 <= s[0] <= 0x39 then ReadNumber(so * 10 + (s[0] - 0x30), s[1..])
    else Read(so, s)
  }

  function ReadStrings(s: seq<byte>): Read<seq<seq<byte>>>
    decreases |s|
  {
    if s == [] || s[0] != QUOTE || ReadString(s[1..]).None? then Fail
    else
      var (text, more) := ReadString(s[1..]).value;
      ReadShortens(s[1..]);
      if more == [] then Fail
      else if more[0] == CLOSING then Read([text], more[1..])
      else if more[0] == COMMA then
        match ReadStrings(more[1..])
        case Fail => Fail
        case Read(texts, rest) => Read([text] + texts, rest)
      else Fail
  }

  lemma {:induction false} ReadShortens(s: seq<byte>)
    requires ReadString(s).Some?
    ensures |ReadString(s).value.1| < |s|
    decreases |s|
  {
    if s[0] == BACKSLASH {
      ReadShortens(s[Unescape(s).value.1..]);
    } else if s[0] != QUOTE {
      ReadShortens(s[1..]);
    }
  }

  function ReadLineField(s: seq<byte>): Read<nat>
  {
    if After(LINE, s).Some? then ReadNumber(0, After(LINE, s).value) else Read(0, s)
  }

  datatype Start = Start(number: nat, argv: seq<seq<byte>>, line: nat)

  /** The object at the front of `s`. */
  function ReadStart(s: seq<byte>): Read<Start>
  {
    if After(START, s).None? then Fail
    else
      match ReadNumber(0, After(START, s).value)
      case Fail => Fail
      case Read(number, s1) =>
        if After(ARGV, s1).None? then Fail
        else
          match ReadStrings(After(ARGV, s1).value)
          case Fail => Fail
          case Read(argv, s2) =>
            match ReadLineField(s2)
            case Fail => Fail
            case Read(line, s3) =>
              if After(ENDING, s3).None? then Fail else Read(Start(number, argv, line), After(ENDING, s3).value)
  }

  function ReadStartLine(line: seq<byte>): Option<Start>
  {
    var r := ReadStart(line);
    if r.Read? && r.rest == [] then Some(r.value) else None
  }

  // ---- Round trip ----

  function CoerceAll(argv: seq<seq<byte>>): seq<seq<byte>>
  {
    seq(|argv|, i requires 0 <= i < |argv| => Coerce(argv[i]))
  }

  lemma {:induction false} ReadsDecimal(n: nat, rest: seq<byte>)
    ensures ReadNumber(0, Decimal(n) + rest) == ReadNumber(n, rest)
  {
    if n < 10 {
      assert (Decimal(n) + rest)[1..] == rest;
    } else {
      var tail := [0x30 + n % 10] + rest;
      assert Decimal(n) + rest == Decimal(n / 10) + tail && tail[1..] == rest;
      ReadsDecimal(n / 10, tail);
    }
  }

  lemma {:induction false} ReadsStrings(argv: seq<seq<byte>>, rest: seq<byte>)
    requires argv != []
    ensures ReadStrings(Strings(argv) + ([CLOSING] + rest)) == Read(CoerceAll(argv), rest)
    decreases |argv|
  {
    hide ReadString, Escaped, Coerce;
    var after := (if |argv| == 1 then [] else [COMMA] + Strings(argv[1..])) + ([CLOSING] + rest);
    var s := Strings(argv) + ([CLOSING] + rest);
    assert s[1..] == Escaped(argv[0]) + ([QUOTE] + after);
    StringRoundTrip(argv[0], after);
    if |argv| == 1 {
      assert after == [CLOSING] + rest && after[1..] == rest;
      assert CoerceAll(argv) == [Coerce(argv[0])];
    } else {
      assert after[1..] == Strings(argv[1..]) + ([CLOSING] + rest);
      ReadsStrings(argv[1..], rest);
      assert CoerceAll(argv) == [Coerce(argv[0])] + CoerceAll(argv[1..]);
    }
  }

  lemma OneLineJoin(a: seq<byte>, b: seq<byte>)
    requires OneLine(a) && OneLine(b)
    ensures OneLine(a + b)
  {
  }

  lemma TypeIs()
    ensures |TYPE| == |"{\"type\":\"trace\",\"trace\":{"| && TYPE[0] == 0x7B && TYPE[9] == 0x74 && OneLine(TYPE)
  {
  }

  lemma EventIs()
    ensures |EVENT| == |"\"event\":\"cmd_start\",\"seq\":"| && OneLine(EVENT)
  {
  }

  lemma StartIs()
    ensures |START| == |TYPE| + |EVENT| > 9 && START[0] == 0x7B && START[9] == 0x74 && OneLine(START)
  {
    TypeIs();
    EventIs();
    hide Ascii;
    OneLineJoin(TYPE, EVENT);
  }

  lemma ArgvIs()
    ensures |ARGV| == |",\"argv\":["| && ARGV[0] == COMMA && OneLine(ARGV)
  {
  }

  lemma LineIs()
    ensures |LINE| == |",\"line\":"| && LINE[0] == COMMA && OneLine(LINE)
  {
  }

  lemma ReadsLineField(line: nat)
    ensures ReadLineField(LineField(line) + ENDING) == Read(line, ENDING)
  {
    LineIs();
    EndingsAre();
    hide Ascii, Decimal;
    if line == 0 {
      assert LineField(line) + ENDING == ENDING;
    } else {
      assert LineField(line) + ENDING == LINE + (Decimal(line) + ENDING);
      AfterJoin(LINE, Decimal(line) + ENDING);
      ReadsDecimal(line, ENDING);
    }
  }

  lemma {:induction false} ReadsStart(number: nat, argv: seq<seq<byte>>, line: nat)
    requires argv != []
    ensures ReadStart(StartLine(number, argv, line)) == Read(Start(number, CoerceAll(argv), line), [])
  {
    ArgvIs();
    hide Ascii, Decimal, Strings, ReadStrings, LineField, ReadLineField, CoerceAll;
    var s2 := LineField(line) + ENDING;
    var s1 := Strings(argv) + ([CLOSING] + s2);
    AfterJoin(START, Decimal(number) + (ARGV + s1));
    ReadsDecimal(number, ARGV + s1);
    AfterJoin(ARGV, s1);
    ReadsStrings(argv, s2);
    ReadsLineField(line);
    AfterJoin(ENDING, []);
    assert ENDING + [] == ENDING;
  }

  // ---- No part of a line is a line ----

  lemma {:induction false} NumberExtends(so: nat, s: seq<byte>, more: seq<byte>)
    requires ReadNumber(so, s).Read?
    ensures ReadNumber(so, s + more) == Read(ReadNumber(so, s).value, ReadNumber(so, s).rest + more)
    ensures ReadNumber(so, s).rest != []
    decreases |s|
  {
    if 0x30 <= s[0] <= 0x39 {
      assert (s + more)[1..] == s[1..] + more;
      NumberExtends(so * 10 + (s[0] - 0x30), s[1..], more);
    }
  }

  lemma {:induction false} StringsExtend(s: seq<byte>, more: seq<byte>)
    requires ReadStrings(s).Read?
    ensures ReadStrings(s + more) == Read(ReadStrings(s).value, ReadStrings(s).rest + more)
    decreases |s|
  {
    hide ReadString;
    var after := ReadString(s[1..]).value.1;
    assert (s + more)[1..] == s[1..] + more;
    ReadExtends(s[1..], more);
    ReadShortens(s[1..]);
    assert (after + more)[1..] == after[1..] + more;
    if after[0] == COMMA {
      StringsExtend(after[1..], more);
    }
  }

  lemma HeadExtends(head: seq<byte>, s: seq<byte>, more: seq<byte>)
    requires After(head, s).Some?
    ensures After(head, s + more) == Some(After(head, s).value + more)
  {
    assert (s + more)[|head|..] == s[|head|..] + more;
  }

  lemma LineFieldExtends(s: seq<byte>, more: seq<byte>)
    requires ReadLineField(s).Read? && After(ENDING, ReadLineField(s).rest).Some?
    ensures ReadLineField(s + more) == Read(ReadLineField(s).value, ReadLineField(s).rest + more)
  {
    LineIs();
    EndingsAre();
    hide Ascii;
    if After(LINE, s).Some? {
      HeadExtends(LINE, s, more);
      NumberExtends(0, After(LINE, s).value, more);
    } else {
      HeadExtends(ENDING, s, more);
      NotBehind(LINE, s + more, 0);
    }
  }

  lemma {:induction false} StartExtends(s: seq<byte>, more: seq<byte>)
    requires ReadStart(s).Read?
    ensures ReadStart(s + more) == Read(ReadStart(s).value, ReadStart(s).rest + more)
  {
    hide Ascii, ReadNumber, ReadStrings, ReadLineField, After;
    var s0 := After(START, s).value;
    HeadExtends(START, s, more);
    NumberExtends(0, s0, more);
    var s1 := ReadNumber(0, s0).rest;
    HeadExtends(ARGV, s1, more);
    StringsExtend(After(ARGV, s1).value, more);
    var s2 := ReadStrings(After(ARGV, s1).value).rest;
    LineFieldExtends(s2, more);
    HeadExtends(ENDING, ReadLineField(s2).rest, more);
  }

  /** What arrives of a line is its command, with malformed bytes of its arguments replaced; no part of it is a line. */
  lemma {:induction false} StartLineRoundTrip(number: nat, argv: seq<seq<byte>>, line: nat)
    requires argv != []
    ensures ReadStartLine(StartLine(number, argv, line)) == Some(Start(number, CoerceAll(argv), line))
    ensures forall n :: 0 <= n < |StartLine(number, argv, line)| ==> ReadStartLine(StartLine(number, argv, line)[..n]) == None
  {
    hide StartLine, ReadStart, CoerceAll;
    ReadsStart(number, argv, line);
    var s := StartLine(number, argv, line);
    forall n | 0 <= n < |s| ensures ReadStartLine(s[..n]) == None {
      if ReadStartLine(s[..n]).Some? {
        assert s == s[..n] + s[n..];
        StartExtends(s[..n], s[n..]);
        assert false;
      }
    }
  }

  // ---- Its length ----

  function ArgvBytes(argv: seq<seq<byte>>): nat
  {
    if argv == [] then 0 else |argv[0]| + ArgvBytes(argv[1..])
  }

  /** An escape never shortens. */
  lemma {:induction false} EscapingNeverShortens(s: seq<byte>)
    ensures |s| <= JsonLen(s)
  {
    if s != [] {
      var n := if RuneLen(s) == 0 then 1 else RuneLen(s);
      assert LineSeparator(s) ==> n == 3;
      EscapingNeverShortens(s[n..]);
    }
  }

  lemma {:induction false} StringsShape(argv: seq<seq<byte>>)
    requires argv != []
    ensures ArgvBytes(argv) + 3 * |argv| - 1 <= |Strings(argv)| <= 6 * ArgvBytes(argv) + 3 * |argv| - 1
    ensures OneLine(Strings(argv))
    decreases |argv|
  {
    hide Escaped, JsonLen;
    EscapedLength(argv[0]);
    EscapingNeverShortens(argv[0]);
    JsonLenBound(argv[0]);
    if |argv| > 1 {
      StringsShape(argv[1..]);
    } else {
      assert argv[1..] == [];
    }
  }

  /** What a line has besides the bytes of its arguments. */
  function Envelope(number: nat, argv: seq<seq<byte>>, line: nat): nat
  {
    |START| + |Decimal(number)| + |ARGV| + 3 * |argv| + |LineField(line)| + 2
  }

  /** Each byte of an argument takes one byte of the line at least, and six at most. */
  lemma {:induction false} StartLineLength(number: nat, argv: seq<seq<byte>>, line: nat)
    requires argv != []
    ensures
      var bytes, more := ArgvBytes(argv), Envelope(number, argv, line);
      bytes + more <= |StartLine(number, argv, line)| <= 6 * bytes + more
  {
    EndingsAre();
    StringsShape(argv);
    hide Ascii, Decimal, Strings, ArgvBytes, OneLine;
  }

  lemma {:induction false} StartLineShape(number: nat, argv: seq<seq<byte>>, line: nat)
    requires argv != []
    ensures |StartLine(number, argv, line)| > 9 && StartLine(number, argv, line)[0] == 0x7B && StartLine(number, argv, line)[9] == 0x74
    ensures OneLine(StartLine(number, argv, line))
  {
    StartIs();
    ArgvIs();
    LineIs();
    EndingsAre();
    StringsShape(argv);
    assert OneLine(Decimal(number)) && OneLine(Decimal(line)) && OneLine([CLOSING]) && OneLine([]);
    hide Ascii, Decimal, Strings, ArgvBytes, OneLine;
    OneLineJoin(LINE, Decimal(line));
    OneLineJoin(LineField(line), ENDING);
    OneLineJoin([CLOSING], LineField(line) + ENDING);
    OneLineJoin(Strings(argv), [CLOSING] + (LineField(line) + ENDING));
    OneLineJoin(ARGV, Strings(argv) + ([CLOSING] + (LineField(line) + ENDING)));
    OneLineJoin(Decimal(number), ARGV + (Strings(argv) + ([CLOSING] + (LineField(line) + ENDING))));
    OneLineJoin(START, Decimal(number) + (ARGV + (Strings(argv) + ([CLOSING] + (LineField(line) + ENDING)))));
  }
}
