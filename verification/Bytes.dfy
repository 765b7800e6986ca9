/** Bytes, UTF-8 validity (section 4 of RFC 3629) and base64 (section 4 of RFC 4648). */
module Bytes {

  type byte = b: int | 0 <= b < 256

  datatype Option<T> = None | Some(value: T)

  // ---- UTF-8 ----

  predicate Tail(b: byte)
  {
    0x80 <= b <= 0xBF
  }

  predicate RuneStart(b: byte)
  {
    !Tail(b)
  }

  /** The length of the well-formed character that `s` starts with; 0 if it starts with none. */
  function RuneLen(s: seq<byte>): (n: nat)
    ensures n <= |s| && n <= 4
  {
    if s == [] then 0
    else if s[0] <= 0x7F then 1
    else if 0xC2 <= s[0] <= 0xDF && |s| >= 2 && Tail(s[1]) then 2
    else if |s| >= 3 && Second3(s[0], s[1]) && Tail(s[2]) then 3
    else if |s| >= 4 && Second4(s[0], s[1]) && Tail(s[2]) && Tail(s[3]) then 4
    else 0
  }

  /** The lead and second byte of a three-byte character: no overlong forms, no surrogates. */
  predicate Second3(b0: byte, b1: byte)
  {
    || (b0 == 0xE0 && 0xA0 <= b1 <= 0xBF)
    || (0xE1 <= b0 <= 0xEC && Tail(b1))
    || (b0 == 0xED && 0x80 <= b1 <= 0x9F)
    || (0xEE <= b0 <= 0xEF && Tail(b1))
  }

  /** The lead and second byte of a four-byte character: no overlong forms, nothing above U+10FFFF. */
  predicate Second4(b0: byte, b1: byte)
  {
    || (b0 == 0xF0 && 0x90 <= b1 <= 0xBF)
    || (0xF1 <= b0 <= 0xF3 && Tail(b1))
    || (b0 == 0xF4 && 0x80 <= b1 <= 0x8F)
  }

  predicate Valid(s: seq<byte>)
  {
    s == [] || (RuneLen(s) > 0 && Valid(s[RuneLen(s)..]))
  }

  const REPLACEMENT: seq<byte> := [0xEF, 0xBF, 0xBD]

  /** What a JSON string carries of `s`: every byte that starts no character becomes U+FFFD. */
  function Coerce(s: seq<byte>): seq<byte>
  {
    if s == [] then []
    else if RuneLen(s) > 0 then s[..RuneLen(s)] + Coerce(s[RuneLen(s)..])
    else REPLACEMENT + Coerce(s[1..])
  }

  lemma MalformedStartChanges(s: seq<byte>)
    requires s != [] && RuneLen(s) == 0
    ensures Coerce(s) != s
  {
    var t := REPLACEMENT + Coerce(s[1..]);
    assert t[0] == 0xEF && t[1] == 0xBF && t[2] == 0xBD;
    assert RuneLen(t) == 3;
  }

  /** A JSON string carries exactly the valid texts unharmed. */
  lemma {:induction false} CoerceIsIdentityIffValid(s: seq<byte>)
    ensures Coerce(s) == s <==> Valid(s)
  {
    if s != [] {
      var n := RuneLen(s);
      if n == 0 {
        MalformedStartChanges(s);
      } else {
        CoerceIsIdentityIffValid(s[n..]);
        var head, tail, rest := s[..n], s[n..], Coerce(s[n..]);
        assert s == head + tail;
        assert (head + rest)[n..] == rest && (head + tail)[n..] == tail;
      }
    }
  }

  lemma {:induction false} AsciiIsValid(s: seq<byte>)
    requires forall i :: 0 <= i < |s| ==> s[i] <= 0x7F
    ensures Valid(s)
  {
    if s != [] {
      assert RuneLen(s) == 1;
      AsciiIsValid(s[1..]);
    }
  }

  lemma RuneLenOfPrefix(s: seq<byte>, n: nat)
    requires 0 < RuneLen(s) <= n <= |s|
    ensures RuneLen(s[..n]) == RuneLen(s)
  {
  }

  lemma RuneIsWhole(s: seq<byte>, n: nat)
    requires 0 < n < RuneLen(s)
    ensures Tail(s[n])
  {
  }

  /** A valid text cut at a character boundary is valid. */
  lemma {:induction false} ValidPrefix(s: seq<byte>, n: nat)
    requires Valid(s) && n <= |s| && (n < |s| ==> RuneStart(s[n]))
    ensures Valid(s[..n])
    decreases n
  {
    var k := RuneLen(s);
    if n > 0 {
      if n < k {
        RuneIsWhole(s, n);
      }
      RuneLenOfPrefix(s, n);
      ValidPrefix(s[k..], n - k);
      assert s[..n][k..] == s[k..][..n - k];
    }
  }

  /** Boundaries of a valid text are at most four bytes apart. */
  lemma {:induction false} BoundaryNear(s: seq<byte>, n: nat)
    requires Valid(s) && n < |s|
    ensures exists m :: n - 3 <= m <= n && 0 <= m && RuneStart(s[m])
    decreases |s|
  {
    var k := RuneLen(s);
    if n < k {
      assert RuneStart(s[0]);
    } else {
      BoundaryNear(s[k..], n - k);
      var m :| n - k - 3 <= m <= n - k && 0 <= m && RuneStart(s[k..][m]);
      assert s[k..][m] == s[m + k];
    }
  }

  // ---- Base64 ----

  type digit = d: int | 0 <= d < 64

  function Char(d: digit): (r: byte)
    ensures r <= 0x7F
  {
    if d < 26 then 65 + d
    else if d < 52 then 97 + (d - 26)
    else if d < 62 then 48 + (d - 52)
    else if d == 62 then 43
    else 47
  }

  function Digit(c: byte): Option<digit>
  {
    if 65 <= c <= 90 then Some(c - 65)
    else if 97 <= c <= 122 then Some(c - 97 + 26)
    else if 48 <= c <= 57 then Some(c - 48 + 52)
    else if c == 43 then Some(62)
    else if c == 47 then Some(63)
    else None
  }

  const PAD: byte := 61

  /** Three bytes at a time, the rest padded with `=`. */
  function Encode(s: seq<byte>): seq<byte>
  {
    if s == [] then []
    else if |s| == 1 then [Char(s[0] / 4), Char(s[0] % 4 * 16), PAD, PAD]
    else if |s| == 2 then [Char(s[0] / 4), Char(s[0] % 4 * 16 + s[1] / 16), Char(s[1] % 16 * 4), PAD]
    else
      [Char(s[0] / 4), Char(s[0] % 4 * 16 + s[1] / 16), Char(s[1] % 16 * 4 + s[2] / 64), Char(s[2] % 64)] + Encode(s[3..])
  }

  /** The decoder ignores carriage returns and newlines. */
  function Unbroken(s: seq<byte>): seq<byte>
  {
    if s == [] then []
    else if s[0] == 10 || s[0] == 13 then Unbroken(s[1..])
    else [s[0]] + Unbroken(s[1..])
  }

  function Decode(s: seq<byte>): Option<seq<byte>>
  {
    DecodeQuads(Unbroken(s))
  }

  /** Padding may only close the last quad, whose spare bits are ignored. */
  function DecodeQuads(s: seq<byte>): Option<seq<byte>>
  {
    if s == [] then Some([])
    else if |s| < 4 then None
    else
      var a, b, c, d := Digit(s[0]), Digit(s[1]), Digit(s[2]), Digit(s[3]);
      if a.None? || b.None? then None
      else if s[2] == PAD && s[3] == PAD && |s| == 4 then Some([a.value * 4 + b.value / 16])
      else if c.None? then None
      else if s[3] == PAD && |s| == 4 then Some([a.value * 4 + b.value / 16, b.value % 16 * 16 + c.value / 4])
      else if d.None? then None
      else
        match DecodeQuads(s[4..])
        case None => None
        case Some(rest) =>
          Some([a.value * 4 + b.value / 16, b.value % 16 * 16 + c.value / 4, c.value % 4 * 64 + d.value] + rest)
  }

  lemma DigitOfChar(d: digit)
    ensures Digit(Char(d)) == Some(d) && Char(d) != PAD && Char(d) != 10 && Char(d) != 13 && Char(d) <= 0x7F
  {
  }

  lemma {:induction false} EncodeUnbroken(s: seq<byte>)
    ensures Unbroken(Encode(s)) == Encode(s)
  {
    if |s| > 2 {
      EncodeUnbroken(s[3..]);
    }
    if s != [] {
      var e := Encode(s);
      assert Unbroken(e[4..]) == e[4..];
      assert Unbroken(e[3..]) == [e[3]] + Unbroken(e[4..]) by { assert e[3..][1..] == e[4..]; }
      assert Unbroken(e[2..]) == [e[2]] + Unbroken(e[3..]) by { assert e[2..][1..] == e[3..]; }
      assert Unbroken(e[1..]) == [e[1]] + Unbroken(e[2..]) by { assert e[1..][1..] == e[2..]; }
    }
  }

  lemma FullQuad(a: digit, b: digit, c: digit, d: digit, rest: seq<byte>)
    ensures DecodeQuads([Char(a), Char(b), Char(c), Char(d)] + rest) ==
      match DecodeQuads(rest)
      case None => None
      case Some(tail) => Some([a * 4 + b / 16, b % 16 * 16 + c / 4, c % 4 * 64 + d] + tail)
  {
    DigitOfChar(a);
    DigitOfChar(b);
    DigitOfChar(c);
    DigitOfChar(d);
    var s := [Char(a), Char(b), Char(c), Char(d)] + rest;
    assert s[4..] == rest;
  }

  lemma LastQuad(a: digit, b: digit, c: digit)
    ensures DecodeQuads([Char(a), Char(b), PAD, PAD]) == Some([a * 4 + b / 16])
    ensures DecodeQuads([Char(a), Char(b), Char(c), PAD]) == Some([a * 4 + b / 16, b % 16 * 16 + c / 4])
  {
    DigitOfChar(a);
    DigitOfChar(b);
    DigitOfChar(c);
  }

  lemma Regroup(x: byte, y: byte, z: byte)
    ensures x / 4 * 4 + (x % 4 * 16 + y / 16) / 16 == x
    ensures (x % 4 * 16 + y / 16) % 16 * 16 + (y % 16 * 4 + z / 64) / 4 == y
    ensures (y % 16 * 4 + z / 64) % 4 * 64 + z % 64 == z
  {
  }

  lemma OneByte(x: byte)
    ensures DecodeQuads(Encode([x])) == Some([x])
  {
    var a: digit, b: digit := x / 4, x % 4 * 16;
    assert a * 4 + b / 16 == x;
    LastQuad(a, b, 0);
  }

  lemma TwoBytes(x: byte, y: byte)
    ensures DecodeQuads(Encode([x, y])) == Some([x, y])
  {
    var a: digit, b: digit, c: digit := x / 4, x % 4 * 16 + y / 16, y % 16 * 4;
    assert a * 4 + b / 16 == x && b % 16 * 16 + c / 4 == y by {
      Regroup(x, y, 0);
    }
    LastQuad(a, b, c);
  }

  lemma ThreeBytes(x: byte, y: byte, z: byte, rest: seq<byte>)
    requires DecodeQuads(Encode(rest)) == Some(rest)
    ensures DecodeQuads(Encode([x, y, z] + rest)) == Some([x, y, z] + rest)
  {
    var s := [x, y, z] + rest;
    var a: digit, b: digit, c: digit, d: digit := x / 4, x % 4 * 16 + y / 16, y % 16 * 4 + z / 64, z % 64;
    assert a * 4 + b / 16 == x && b % 16 * 16 + c / 4 == y && c % 4 * 64 + d == z by {
      Regroup(x, y, z);
    }
    assert s[3..] == rest;
    assert s[0] == x && s[1] == y && s[2] == z;
    assert Encode(s) == [Char(a), Char(b), Char(c), Char(d)] + Encode(rest);
    FullQuad(a, b, c, d, Encode(rest));
  }

  lemma {:induction false} QuadsRoundTrip(s: seq<byte>)
    ensures DecodeQuads(Encode(s)) == Some(s)
  {
    if |s| == 1 {
      OneByte(s[0]);
      assert s == [s[0]];
    } else if |s| == 2 {
      TwoBytes(s[0], s[1]);
      assert s == [s[0], s[1]];
    } else if |s| > 2 {
      QuadsRoundTrip(s[3..]);
      ThreeBytes(s[0], s[1], s[2], s[3..]);
      assert s == [s[0], s[1], s[2]] + s[3..];
    }
  }

  lemma {:induction false} Base64RoundTrip(s: seq<byte>)
    ensures Decode(Encode(s)) == Some(s)
  {
    EncodeUnbroken(s);
    QuadsRoundTrip(s);
  }

  lemma {:induction false} EncodeShape(s: seq<byte>)
    ensures |Encode(s)| == (|s| + 2) / 3 * 4
    ensures forall i :: 0 <= i < |Encode(s)| ==> Encode(s)[i] <= 0x7F
  {
    hide Char;
    if |s| > 2 {
      EncodeShape(s[3..]);
    }
  }
}
