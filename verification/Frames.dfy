/**
 The frames of the wire protocol that carry output: chunking of a child's output into io frames,
 their payload rule, and the sizes of the lines that carry them.

 A frame line is JSON. Two facts about JSON matter here and are modelled: a string carries its text
 with every malformed byte replaced (`Coerce`), and escaping makes a line longer (`JsonLen`).
 */
module Frames {
  import opened Bytes

  const MAX_IO_CHUNK: nat := 65536
  const MAX_LINE: nat := 1048576

  datatype IoFrame = IoFrame(fd: int, data: seq<byte>, b64: bool)

  // ---- Payloads ----

  /** Text travels as it is, anything else in base64. */
  function EncodeIOChunk(fd: int, chunk: seq<byte>): IoFrame
  {
    if Valid(chunk) then IoFrame(fd, chunk, false) else IoFrame(fd, Encode(chunk), true)
  }

  /** IOFrame.Bytes: the raw payload, unless it is corrupt base64. */
  function Payload(f: IoFrame): Option<seq<byte>>
  {
    if f.b64 then Decode(f.data) else Some(f.data)
  }

  /** What arrives of a frame sent as a JSON line. */
  function Received(f: IoFrame): IoFrame
  {
    f.(data := Coerce(f.data))
  }

  lemma {:induction false} ChunkSurvives(fd: int, chunk: seq<byte>)
    ensures Received(EncodeIOChunk(fd, chunk)) == EncodeIOChunk(fd, chunk)
    ensures Payload(Received(EncodeIOChunk(fd, chunk))) == Some(chunk)
  {
    if Valid(chunk) {
      CoerceIsIdentityIffValid(chunk);
    } else {
      EncodeShape(chunk);
      AsciiIsValid(Encode(chunk));
      CoerceIsIdentityIffValid(Encode(chunk));
      Base64RoundTrip(chunk);
    }
  }

  /** The rule is as sparing as it can be: without base64 exactly the valid chunks would survive. */
  lemma {:induction false} PlainSurvivesIffValid(fd: int, chunk: seq<byte>)
    ensures Payload(Received(IoFrame(fd, chunk, false))) == Some(chunk) <==> !EncodeIOChunk(fd, chunk).b64
  {
    CoerceIsIdentityIffValid(chunk);
  }

  // ---- Chunking ----

  ghost function Join(payloads: seq<seq<byte>>): seq<byte>
  {
    if payloads == [] then [] else payloads[0] + Join(payloads[1..])
  }

  /** Each frame is one chunk of at most the limit; together they are the data. */
  ghost predicate Chunks(fd: int, frames: seq<IoFrame>, data: seq<byte>)
  {
    exists parts: seq<seq<byte>> :: ChunkedBy(fd, frames, data, parts)
  }

  ghost predicate ChunkedBy(fd: int, frames: seq<IoFrame>, data: seq<byte>, parts: seq<seq<byte>>)
  {
    && |parts| == |frames|
    && Join(parts) == data
    && forall i :: 0 <= i < |frames| ==> 0 < |parts[i]| <= MAX_IO_CHUNK && frames[i] == EncodeIOChunk(fd, parts[i])
  }

  lemma {:induction false} JoinAppend(a: seq<seq<byte>>, b: seq<seq<byte>>)
    ensures Join(a + b) == Join(a) + Join(b)
    decreases |a|
  {
    if a == [] {
      assert a + b == b;
    } else {
      assert (a + b)[1..] == a[1..] + b;
      JoinAppend(a[1..], b);
    }
  }

  lemma ChunkedByAppend(fd: int, frames: seq<IoFrame>, data: seq<byte>, parts: seq<seq<byte>>, part: seq<byte>)
    requires ChunkedBy(fd, frames, data, parts) && 0 < |part| <= MAX_IO_CHUNK
    ensures ChunkedBy(fd, frames + [EncodeIOChunk(fd, part)], data + part, parts + [part])
  {
    JoinAppend(parts, [part]);
    assert Join([part]) == part;
  }

  method SplitIO(fd: int, data: seq<byte>) returns (frames: seq<IoFrame>)
    ensures Chunks(fd, frames, data)
    ensures |frames| == (|data| + MAX_IO_CHUNK - 1) / MAX_IO_CHUNK
  {
    frames := [];
    ghost var parts: seq<seq<byte>> := [];
    ghost var done: seq<byte> := [];
    var rest := data;
    while |rest| > 0
      invariant done + rest == data && ChunkedBy(fd, frames, done, parts)
      invariant |frames| == (|done| + MAX_IO_CHUNK - 1) / MAX_IO_CHUNK
      invariant rest != [] ==> |done| % MAX_IO_CHUNK == 0
      decreases |rest|
    {
      var n := MAX_IO_CHUNK;
      if n > |rest| {
        n := |rest|;
      }
      ChunkedByAppend(fd, frames, done, parts, rest[..n]);
      frames := frames + [EncodeIOChunk(fd, rest[..n])];
      parts := parts + [rest[..n]];
      done := done + rest[..n];
      rest := rest[n..];
    }
    assert done == data;
  }

  // ---- Line sizes ----

  const ESCAPED_2: set<byte> := {0x22, 0x5C, 0x08, 0x0C, 0x0A, 0x0D, 0x09}
  const ESCAPED_HTML: set<byte> := {0x3C, 0x3E, 0x26}

  /** The length of one ASCII character inside a JSON string. */
  function AsciiJsonLen(b: byte): (n: nat)
    ensures 1 <= n <= 6
  {
    if b in ESCAPED_2 then 2 else if b < 0x20 || b in ESCAPED_HTML then 6 else 1
  }

  /** U+2028 and U+2029, which JSON text for scripts escapes. */
  predicate LineSeparator(s: seq<byte>)
  {
    |s| >= 3 && s[0] == 0xE2 && s[1] == 0x80 && (s[2] == 0xA8 || s[2] == 0xA9)
  }

  /** The length of `s` inside a JSON string, quotes not counted. */
  function JsonLen(s: seq<byte>): nat
  {
    if s == [] then 0
    else if RuneLen(s) == 0 then 6 + JsonLen(s[1..])
    else if RuneLen(s) == 1 then AsciiJsonLen(s[0]) + JsonLen(s[1..])
    else if LineSeparator(s) then 6 + JsonLen(s[3..])
    else RuneLen(s) + JsonLen(s[RuneLen(s)..])
  }

  lemma {:induction false} JsonLenBound(s: seq<byte>)
    ensures JsonLen(s) <= 6 * |s|
  {
    if s != [] {
      var n := if RuneLen(s) == 0 then 1 else RuneLen(s);
      assert LineSeparator(s) ==> n == 3;
      JsonLenBound(s[n..]);
    }
  }

  /** The line of an io frame: its JSON object and the newline. Descriptors are 1 and 2. */
  function IoLineLen(f: IoFrame): nat
  {
    |"{\"type\":\"io\",\"io\":{\"fd\":"| + 1 + |",\"data\":\""| + JsonLen(f.data) + |"\""|
    + (if f.b64 then |",\"b64\":true"| else 0) + |"}}"| + 1
  }

  /** A chunk's frame fits a line, in fact half of one. */
  lemma ChunkFits(fd: int, chunk: seq<byte>)
    requires |chunk| <= MAX_IO_CHUNK
    ensures IoLineLen(EncodeIOChunk(fd, chunk)) <= MAX_LINE / 2 + 128
  {
    if Valid(chunk) {
      JsonLenBound(chunk);
    } else {
      EncodeShape(chunk);
      JsonLenBound(Encode(chunk));
    }
  }

  /** So does every frame of a chunked output. */
  lemma {:induction false} ChunksFitALine(fd: int, frames: seq<IoFrame>, data: seq<byte>, i: nat)
    requires Chunks(fd, frames, data) && i < |frames|
    ensures IoLineLen(frames[i]) <= MAX_LINE / 2 + 128
  {
    var parts :| ChunkedBy(fd, frames, data, parts);
    ChunkFits(fd, parts[i]);
  }
}
