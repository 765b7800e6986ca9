/**
 The JSON line of an io frame, to the byte: strings are escaped as section 7 of RFC 8259 allows, with the
 characters that scripts must not see escaped as well, and what is not UTF-8 is written as U+FFFD.
 */
module Json {
  import opened Bytes
  import opened Frames

  // ---- Escapes ----

  const QUOTE: byte := 0x22
  const BACKSLASH: byte := 0x5C

  function HexDigit(d: int): byte
    requires 0 <= d < 16
  {
    if d < 10 then 0x30 + d else 0x61 + (d - 10)
  }

  function HexValue(b: byte): (d: Option<int>)
    ensures d.Some? ==> 0 <= d.value < 16
  {
    if 0x30 <= b <= 0x39 then Some(b - 0x30)
    else if 0x61 <= b <= 0x66 then Some(b - 0x61 + 10)
    else if 0x41 <= b <= 0x46 then Some(b - 0x41 + 10)
    else None
  }

  function HexNumber(a: byte, b: byte, c: byte, d: byte): (n: Option<int>)
    ensures n.Some? ==> 0 <= n.value < 0x10000
  {
    if HexValue(a).None? || HexValue(b).None? || HexValue(c).None? || HexValue(d).None? then None
    else Some(HexValue(a).value * 0x1000 + HexValue(b).value * 0x100 + HexValue(c).value * 16 + HexValue(d).value)
  }

  /** `\uXXXX` */
  function Unicode(n: int): seq<byte>
    requires 0 <= n < 0x10000
  {
    [BACKSLASH, 0x75, HexDigit(n / 16 / 16 / 16), HexDigit(n / 16 / 16 % 16), HexDigit(n / 16 % 16), HexDigit(n % 16)]
  }

  /** The UTF-8 form of a code point below 0x10000. */
  function Utf8(n: int): seq<byte>
    requires 0 <= n < 0x10000
  {
    if n < 0x80 then [n]
    else if n < 0x800 then [0xC0 + n / 64, 0x80 + n % 64]
    else [0xE0 + n / 0x1000, 0x80 + n / 64 % 64, 0x80 + n % 64]
  }

  /** The letter of a two-character escape. */
  function Letter(b: byte): Option<byte>
  {
    if b == QUOTE || b == BACKSLASH then Some(b)
    else if b == 0x08 then Some(0x62)
    else if b == 0x0C then Some(0x66)
    else if b == 0x0A then Some(0x6E)
    else if b == 0x0D then Some(0x72)
    else if b == 0x09 then Some(0x74)
    else None
  }

  function Unletter(b: byte): Option<byte>
  {
    if b == QUOTE || b == BACKSLASH || b == 0x2F then Some(b)
    else if b == 0x62 then Some(0x08)
    else if b == 0x66 then Some(0x0C)
    else if b == 0x6E then Some(0x0A)
    else if b == 0x72 then Some(0x0D)
    else if b == 0x74 then Some(0x09)
    else None
  }

  function EscapedAscii(b: byte): (r: seq<byte>)
    ensures |r| == AsciiJsonLen(b)
    ensures forall i :: 0 <= i < |r| ==> r[i] != 10 && r[i] != 13
  {
    if Letter(b).Some? then [BACKSLASH, Letter(b).value]
    else if b < 0x20 || b in ESCAPED_HTML then Unicode(b)
    else [b]
  }

  /** How many bytes of `s` are written at a time: a character, or a byte that starts none. */
  function Unit(s: seq<byte>): (n: nat)
    requires s != []
    ensures 0 < n <= |s|
  {
    if RuneLen(s) == 0 then 1 else RuneLen(s)
  }

  function EscapedUnit(s: seq<byte>): seq<byte>
    requires s != []
  {
    if RuneLen(s) == 0 then Unicode(0xFFFD)
    else if RuneLen(s) == 1 then EscapedAscii(s[0])
    else if LineSeparator(s) then Unicode(if s[2] == 0xA8 then 0x2028 else 0x2029)
    else s[..RuneLen(s)]
  }

  /** `s` inside a JSON string. */
  function Escaped(s: seq<byte>): seq<byte>
  {
    if s == [] then [] else EscapedUnit(s) + Escaped(s[Unit(s)..])
  }

  /** What one escape stands for, and how long it is. */
  function Unescape(s: seq<byte>): (r: Option<(seq<byte>, nat)>)
    ensures r.Some? ==> 2 <= r.value.1 <= |s|
  {
    if |s| < 2 then None
    else if s[1] == 0x75 then
      if |s| < 6 then None
      else
        var n := HexNumber(s[2], s[3], s[4], s[5]);
        if n.None? then None else Some((Utf8(n.value), 6))
    else if Unletter(s[1]).Some? then Some(([Unletter(s[1]).value], 2))
    else None
  }

  /** A string read up to its closing quote, and what follows it. */
  function ReadString(s: seq<byte>): Option<(seq<byte>, seq<byte>)>
    decreases |s|
  {
    if s == [] then None
    else if s[0] == QUOTE then Some(([], s[1..]))
    else if s[0] == BACKSLASH then
      match Unescape(s)
      case None => None
      case Some((value, n)) => Before(value, ReadString(s[n..]))
    else Before([s[0]], ReadString(s[1..]))
  }

  function Before(value: seq<byte>, r: Option<(seq<byte>, seq<byte>)>): Option<(seq<byte>, seq<byte>)>
  {
    if r.None? then None else Some((value + r.value.0, r.value.1))
  }

  // ---- What a string carries ----

  lemma UnitLength(s: seq<byte>)
    requires s != []
    ensures JsonLen(s) == |EscapedUnit(s)| + JsonLen(s[Unit(s)..])
    ensures forall i :: 0 <= i < |EscapedUnit(s)| ==> EscapedUnit(s)[i] != 10 && EscapedUnit(s)[i] != 13
  {
    if RuneLen(s) > 1 {
      RuneBytes(s);
    }
    hide EscapedAscii, RuneLen, Utf8;
  }

  lemma {:induction false} EscapedLength(s: seq<byte>)
    ensures |Escaped(s)| == JsonLen(s)
    ensures forall i :: 0 <= i < |Escaped(s)| ==> Escaped(s)[i] != 10 && Escaped(s)[i] != 13
  {
    if s != [] {
      UnitLength(s);
      EscapedLength(s[Unit(s)..]);
      hide EscapedUnit, Unit, JsonLen;
    }
  }

  lemma HexRoundTrip(d: int)
    requires 0 <= d < 16
    ensures HexValue(HexDigit(d)) == Some(d)
  {
  }

  lemma HexSplit(n: int)
    requires 0 <= n < 0x10000
    ensures n / 16 / 16 / 16 * 0x1000 + n / 16 / 16 % 16 * 0x100 + n / 16 % 16 * 16 + n % 16 == n
  {
  }

  lemma ReadsUnicode(n: int, rest: seq<byte>)
    requires 0 <= n < 0x10000
    ensures ReadString(Unicode(n) + rest) == Before(Utf8(n), ReadString(rest))
  {
    var s := Unicode(n) + rest;
    HexRoundTrip(n / 16 / 16 / 16);
    HexRoundTrip(n / 16 / 16 % 16);
    HexRoundTrip(n / 16 % 16);
    HexRoundTrip(n % 16);
    HexSplit(n);
    hide HexDigit, HexValue, Utf8;
    assert s[2] == HexDigit(n / 16 / 16 / 16) && s[3] == HexDigit(n / 16 / 16 % 16);
    assert s[4] == HexDigit(n / 16 % 16) && s[5] == HexDigit(n % 16);
    assert s[6..] == rest;
  }

  lemma ReadsAscii(b: byte, rest: seq<byte>)
    requires b <= 0x7F
    ensures ReadString(EscapedAscii(b) + rest) == Before([b], ReadString(rest))
  {
    var s := EscapedAscii(b) + rest;
    if Letter(b).Some? {
      assert s[2..] == rest;
    } else if b < 0x20 || b in ESCAPED_HTML {
      ReadsUnicode(b, rest);
    } else {
      assert s[0] == b && s[1..] == rest && [s[0]] == [b];
      assert ReadString(s) == Before([s[0]], ReadString(s[1..]));
    }
  }

  lemma BeforeNothing(r: Option<(seq<byte>, seq<byte>)>)
    ensures Before([], r) == r
  {
    if r.Some? {
      assert [] + r.value.0 == r.value.0;
    }
  }

  lemma BeforeJoin(a: seq<byte>, b: seq<byte>, r: Option<(seq<byte>, seq<byte>)>)
    ensures Before(a, Before(b, r)) == Before(a + b, r)
  {
    if r.Some? {
      assert a + (b + r.value.0) == (a + b) + r.value.0;
    }
  }

  /** Bytes of a character outside ASCII are read as they are. */
  lemma {:induction false} ReadsRaw(raw: seq<byte>, rest: seq<byte>)
    requires forall i :: 0 <= i < |raw| ==> raw[i] >= 0x80
    ensures ReadString(raw + rest) == Before(raw, ReadString(rest))
  {
    if raw == [] {
      assert raw + rest == rest;
      BeforeNothing(ReadString(rest));
    } else {
      assert (raw + rest)[1..] == raw[1..] + rest;
      ReadsRaw(raw[1..], rest);
      BeforeJoin([raw[0]], raw[1..], ReadString(rest));
      assert [raw[0]] + raw[1..] == raw;
    }
  }

  lemma RuneBytes(s: seq<byte>)
    requires RuneLen(s) > 1
    ensures forall i :: 0 <= i < RuneLen(s) ==> s[i] >= 0x80
    ensures LineSeparator(s) ==> RuneLen(s) == 3 && s[..3] == Utf8(if s[2] == 0xA8 then 0x2028 else 0x2029)
  {
  }

  /** What of the first character, or malformed byte, arrives. */
  function CoercedUnit(s: seq<byte>): seq<byte>
    requires s != []
  {
    if RuneLen(s) == 0 then REPLACEMENT else s[..RuneLen(s)]
  }

  lemma ReadsUnit(s: seq<byte>, rest: seq<byte>)
    requires s != []
    ensures ReadString(EscapedUnit(s) + rest) == Before(CoercedUnit(s), ReadString(rest))
  {
    hide ReadString, Unicode, EscapedAscii;
    if RuneLen(s) == 0 {
      ReadsUnicode(0xFFFD, rest);
      assert Utf8(0xFFFD) == REPLACEMENT;
    } else if RuneLen(s) == 1 {
      ReadsAscii(s[0], rest);
      assert s[..1] == [s[0]];
    } else {
      RuneBytes(s);
      if LineSeparator(s) {
        ReadsUnicode(if s[2] == 0xA8 then 0x2028 else 0x2029, rest);
      } else {
        ReadsRaw(s[..RuneLen(s)], rest);
      }
    }
  }

  lemma CoerceStep(s: seq<byte>)
    requires s != []
    ensures Coerce(s) == CoercedUnit(s) + Coerce(s[Unit(s)..])
  {
  }

  lemma ReadsQuote(rest: seq<byte>)
    ensures ReadString([QUOTE] + rest) == Some(([], rest))
  {
    assert ([QUOTE] + rest)[1..] == rest;
  }

  /** A string gives back its text with every malformed byte replaced. */
  lemma {:induction false} StringRoundTrip(s: seq<byte>, rest: seq<byte>)
    ensures ReadString(Escaped(s) + ([QUOTE] + rest)) == Some((Coerce(s), rest))
  {
    hide ReadString, EscapedUnit, CoercedUnit, RuneLen;
    var after := [QUOTE] + rest;
    if s == [] {
      assert Escaped(s) + after == after;
      ReadsQuote(rest);
    } else {
      StringRoundTrip(s[Unit(s)..], rest);
      ReadsUnit(s, Escaped(s[Unit(s)..]) + after);
      assert Escaped(s) + after == EscapedUnit(s) + (Escaped(s[Unit(s)..]) + after);
      CoerceStep(s);
    }
  }

  /** What follows a whole string does not change how it reads. */
  lemma {:induction false} ReadExtends(s: seq<byte>, more: seq<byte>)
    requires ReadString(s).Some?
    ensures ReadString(s + more) == Some((ReadString(s).value.0, ReadString(s).value.1 + more))
    decreases |s|
  {
    var t := s + more;
    if s[0] == QUOTE {
      assert t[1..] == s[1..] + more;
    } else if s[0] == BACKSLASH {
      var n := Unescape(s).value.1;
      assert t[n..] == s[n..] + more;
      assert Unescape(t) == Unescape(s);
      ReadExtends(s[n..], more);
    } else {
      assert t[1..] == s[1..] + more;
      ReadExtends(s[1..], more);
    }
  }

  // ---- The line of an io frame ----

  function Ascii(s: string): seq<byte>
    requires forall i :: 0 <= i < |s| ==> s[i] as int < 256
  {
    seq(|s|, i requires 0 <= i < |s| => s[i] as int)
  }

  const OPENING: seq<byte> := Ascii("{\"type\":\"io\",\"io\":{\"fd\":")
  const MIDDLE: seq<byte> := Ascii(",\"data\":\"")
  const ENDING: seq<byte> := Ascii("}}")
  const ENDING_B64: seq<byte> := Ascii(",\"b64\":true}}")

  function Ending(f: IoFrame): seq<byte>
  {
    if f.b64 then ENDING_B64 else ENDING
  }

  /** The frame's JSON object. */
  function IoLine(f: IoFrame): seq<byte>
    requires f.fd == 1 || f.fd == 2
  {
    OPENING + ([0x30 + f.fd] + (MIDDLE + (Escaped(f.data) + ([QUOTE] + Ending(f)))))
  }

  /** The text after `head`, if `s` starts with it. */
  function After(head: seq<byte>, s: seq<byte>): Option<seq<byte>>
  {
    if head <= s then Some(s[|head|..]) else None
  }

  function ReadIoLine(line: seq<byte>): Option<IoFrame>
  {
    var typed := After(OPENING, line);
    if typed.None? || typed.value == [] || (typed.value[0] != 0x31 && typed.value[0] != 0x32) then None
    else
      var data := After(MIDDLE, typed.value[1..]);
      if data.None? then None
      else
        match ReadString(data.value)
        case None => None
        case Some((text, ending)) =>
          if ending == ENDING then Some(IoFrame(typed.value[0] - 0x30, text, false))
          else if ending == ENDING_B64 then Some(IoFrame(typed.value[0] - 0x30, text, true))
          else None
  }

  lemma AfterJoin(head: seq<byte>, rest: seq<byte>)
    ensures After(head, head + rest) == Some(rest)
  {
  }

  lemma NotBehind(head: seq<byte>, s: seq<byte>, i: nat)
    requires i < |head| && (i < |s| ==> s[i] != head[i])
    ensures After(head, s) == None
  {
  }

  predicate OneLine(s: seq<byte>)
  {
    forall i :: 0 <= i < |s| ==> s[i] != 10 && s[i] != 13
  }

  lemma OpeningIs()
    ensures |OPENING| == |"{\"type\":\"io\",\"io\":{\"fd\":"| && OPENING[0] == 0x7B && OPENING[9] == 0x69 && OneLine(OPENING)
  {
  }

  lemma MiddleIs()
    ensures |MIDDLE| == |",\"data\":\""| && OneLine(MIDDLE)
  {
  }

  lemma EndingsAre()
    ensures |ENDING| == 2 && |ENDING_B64| == |",\"b64\":true"| + 2 && ENDING[0] == 0x7D && ENDING_B64[0] == 0x2C
    ensures OneLine(ENDING) && OneLine(ENDING_B64)
  {
  }

  /** What arrives of a line is its frame, with malformed bytes of the text replaced. */
  lemma {:induction false} IoLineRoundTrip(f: IoFrame)
    requires f.fd == 1 || f.fd == 2
    ensures ReadIoLine(IoLine(f)) == Some(Received(f))
  {
    OpeningIs();
    MiddleIs();
    EndingsAre();
    hide Escaped, Coerce, ReadString, Ascii;
    var quoted := Escaped(f.data) + ([QUOTE] + Ending(f));
    var typed := [0x30 + f.fd] + (MIDDLE + quoted);
    AfterJoin(OPENING, typed);
    assert typed[1..] == MIDDLE + quoted;
    AfterJoin(MIDDLE, quoted);
    StringRoundTrip(f.data, Ending(f));
  }

  lemma {:induction false} IoLineShape(f: IoFrame)
    requires f.fd == 1 || f.fd == 2
    ensures |IoLine(f)| + 1 == IoLineLen(f) && IoLine(f) != [] && IoLine(f)[0] == 0x7B
    ensures forall i :: 0 <= i < |IoLine(f)| ==> IoLine(f)[i] != 10 && IoLine(f)[i] != 13
  {
    OpeningIs();
    MiddleIs();
    EndingsAre();
    EscapedLength(f.data);
    hide Escaped, Ascii;
    assert forall b :: b in IoLine(f) ==>
      b in OPENING || b == 0x30 + f.fd || b in MIDDLE || b in Escaped(f.data) || b == QUOTE || b in ENDING || b in ENDING_B64;
  }

  /** No part of a line is a line. */
  lemma {:induction false} PartOfALine(f: IoFrame, n: nat)
    requires (f.fd == 1 || f.fd == 2) && n < |IoLine(f)|
    ensures ReadIoLine(IoLine(f)[..n]) == None
  {
    OpeningIs();
    MiddleIs();
    EndingsAre();
    hide Escaped, Coerce, ReadString, Ascii;
    var line, part, rest := IoLine(f), IoLine(f)[..n], IoLine(f)[n..];
    assert line == part + rest;
    if ReadIoLine(part).Some? {
      var typed := part[|OPENING|..];
      var data := typed[1..][|MIDDLE|..];
      var k := |OPENING| + 1 + |MIDDLE|;
      assert data == part[k..] && line[k..] == data + rest;
      assert line[k..] == Escaped(f.data) + ([QUOTE] + Ending(f));
      StringRoundTrip(f.data, Ending(f));
      ReadExtends(data, rest);
      assert false;
    }
  }
}
