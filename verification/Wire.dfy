/**
 The ndjson codec: one frame a line, in both directions, and what a reader sees when the stream is
 cut at an arbitrary byte.

 JSON is a parameter: `Format` turns a frame into a line and a line back into a frame. `IsJson` says that it
 writes io frames and command starts as modules `Json` and `JsonTrace` do. No writer on the runner's side
 looks at a line's length; the reader gives up at the first line that is over the limit.
 */
module Wire {
  import opened Bytes
  import opened Frames
  import J = Json
  import JT = JsonTrace

  // ---- Frames ----

  datatype TraceFrame =
    | CmdStart(number: int, argv: seq<seq<byte>>, line: int)
    | CmdEnd(number: int, exit: int, durNS: int)
    | OtherEvent(number: int)

  datatype HelloFrame = HelloFrame(proto: int, role: string, version: string)

  datatype Frame =
    | Hello(hello: HelloFrame)
    | Run(program: seq<byte>, env: map<string, string>, entrypoint: string, timeoutNS: int)
    | File(name: string, data: seq<byte>)
    | Trace(trace: TraceFrame)
    | IO(io: IoFrame)
    | Output(values: map<string, string>)
    | Signal(signal: string)
    | Result(exit: int, wallNS: int, error: string)

  // ---- The envelope ----

  /** A decoded JSON object: its tag, and which of the payload fields are set. */
  datatype Envelope = Envelope(
    tag: string, hello: bool, run: bool, file: bool, trace: bool, io: bool, output: bool, signal: bool, result: bool)

  const TYPES: set<string> := {"hello", "run", "file", "trace", "io", "output", "signal", "result"}

  function Payloads(e: Envelope): set<string>
  {
    (if e.hello then {"hello"} else {}) + (if e.run then {"run"} else {}) + (if e.file then {"file"} else {})
    + (if e.trace then {"trace"} else {}) + (if e.io then {"io"} else {}) + (if e.output then {"output"} else {})
    + (if e.signal then {"signal"} else {}) + (if e.result then {"result"} else {})
  }

  /** A frame is well formed exactly if its one payload is the one its tag names. */
  method Validate(e: Envelope) returns (ok: bool)
    ensures ok <==> e.tag in TYPES && Payloads(e) == {e.tag}
  {
    var present: seq<string> := [];
    if e.hello { present := present + ["hello"]; }
    if e.run { present := present + ["run"]; }
    if e.file { present := present + ["file"]; }
    if e.trace { present := present + ["trace"]; }
    if e.io { present := present + ["io"]; }
    if e.output { present := present + ["output"]; }
    if e.signal { present := present + ["signal"]; }
    if e.result { present := present + ["result"]; }
    if e.tag !in TYPES || |present| != 1 {
      return false;
    }
    ok := present[0] == e.tag;
  }

  const NL: byte := 10
  const CR: byte := 13

  /** The frame's JSON object, the frame a line parses to, if any, and whether a line is white space only. */
  datatype Format = Format(enc: Frame -> seq<byte>, dec: seq<byte> -> Option<Frame>, blank: seq<byte> -> bool)

  /** What arrives of a frame: in its text every malformed byte is replaced. */
  function Arrives(f: Frame): Frame
  {
    match f
    case IO(io) => IO(Received(io))
    case Trace(t) => Trace(TraceArrives(t))
    case _ => f
  }

  function TraceArrives(t: TraceFrame): TraceFrame
  {
    if t.CmdStart? then t.(argv := JT.CoerceAll(t.argv)) else t
  }

  function Arrived(frames: seq<Frame>): seq<Frame>
  {
    seq(|frames|, i requires 0 <= i < |frames| => Arrives(frames[i]))
  }

  /** The frame's line is over the limit. */
  predicate Over(fmt: Format, f: Frame)
  {
    |fmt.enc(f)| + 1 > MAX_LINE
  }

  /** No part of a line is an object, or blank. */
  ghost predicate Unbroken(fmt: Format, line: seq<byte>)
  {
    !fmt.blank(line) && forall n :: 0 < n < |line| ==> fmt.dec(line[..n]) == None && !fmt.blank(line[..n])
  }

  /** What holds of a frame's JSON, whatever its length: the object comes back, and is one line. */
  ghost predicate Reads(fmt: Format, f: Frame)
  {
    var line := fmt.enc(f);
    line != [] && J.OneLine(line) && fmt.dec(line) == Some(Arrives(f)) && Unbroken(fmt, line)
  }

  ghost predicate ReadsAll(fmt: Format, frames: seq<Frame>)
  {
    forall i :: 0 <= i < |frames| ==> Reads(fmt, frames[i])
  }

  /** The frames whose JSON is modelled: output of a child's stdout or stderr, and command starts. */
  predicate Modelled(f: Frame)
  {
    match f
    case IO(io) => io.fd == 1 || io.fd == 2
    case Trace(CmdStart(number, argv, line)) => number >= 0 && argv != [] && line >= 0
    case _ => false
  }

  function JsonOf(f: Frame): seq<byte>
    requires Modelled(f)
  {
    if f.IO? then J.IoLine(f.io) else JT.StartLine(f.trace.number, f.trace.argv, f.trace.line)
  }

  /** `fmt` writes the frame as JSON, and reads the line, and no part of it, as what arrives. */
  ghost predicate JsonFor(fmt: Format, f: Frame)
    requires Modelled(f)
  {
    fmt.enc(f) == JsonOf(f) && fmt.dec(JsonOf(f)) == Some(Arrives(f)) && Unbroken(fmt, JsonOf(f))
  }

  ghost predicate IsJson(fmt: Format)
  {
    forall f: Frame :: Modelled(f) ==> JsonFor(fmt, f)
  }

  lemma JsonReads(fmt: Format, f: Frame)
    requires IsJson(fmt) && Modelled(f)
    ensures Reads(fmt, f)
  {
    hide J.IoLine, JT.StartLine, Arrives, Unbroken;
    assert JsonFor(fmt, f);
    if f.IO? {
      J.IoLineShape(f.io);
    } else {
      JT.StartLineShape(f.trace.number, f.trace.argv, f.trace.line);
    }
  }

  /** Under JSON every chunk of output travels unharmed in a line of its own. */
  lemma {:induction false} ChunkCarries(fmt: Format, fd: int, chunk: seq<byte>)
    requires IsJson(fmt) && (fd == 1 || fd == 2) && |chunk| <= MAX_IO_CHUNK
    ensures
      var f := IO(EncodeIOChunk(fd, chunk));
      Reads(fmt, f) && Arrives(f) == f && !Over(fmt, f)
  {
    hide EncodeIOChunk, IoLineLen, J.IoLine, Unbroken;
    var io := EncodeIOChunk(fd, chunk);
    assert io.fd == fd by { ChunkDescriptor(fd, chunk); }
    JsonReads(fmt, IO(io));
    assert JsonFor(fmt, IO(io));
    ChunkSurvives(fd, chunk);
    ChunkFits(fd, chunk);
    J.IoLineShape(io);
  }

  /**
   The line of a command's start is as long as its arguments at least, and six times as long at most, but for
   the little else that it holds: it is over the limit if they reach it.
   */
  lemma {:induction false} StartIsOver(fmt: Format, number: int, argv: seq<seq<byte>>, line: int)
    requires IsJson(fmt) && number >= 0 && argv != [] && line >= 0
    ensures
      var f, bytes, more := Trace(CmdStart(number, argv, line)), JT.ArgvBytes(argv), JT.Envelope(number, argv, line);
      && (bytes + more >= MAX_LINE ==> Over(fmt, f))
      && (6 * bytes + more < MAX_LINE ==> !Over(fmt, f))
  {
    hide JT.StartLine, JT.ArgvBytes, JT.Envelope, Arrives, Unbroken;
    assert JsonFor(fmt, Trace(CmdStart(number, argv, line)));
    JT.StartLineLength(number, argv, line);
  }

  lemma ChunkDescriptor(fd: int, chunk: seq<byte>)
    ensures EncodeIOChunk(fd, chunk).fd == fd
  {
  }

  // ---- Reading ----

  /** The length of the first line, without its newline. */
  function LineEnd(s: seq<byte>): (n: nat)
    ensures n <= |s| && (n < |s| ==> s[n] == NL)
    ensures forall i :: 0 <= i < n ==> s[i] != NL
  {
    if s == [] || s[0] == NL then 0
    else
      var n := LineEnd(s[1..]);
      assert forall i :: 0 < i <= n ==> s[i] == s[1..][i - 1];
      1 + n
  }

  /** The line scanner strips one carriage return before the newline. */
  function Chomp(line: seq<byte>): seq<byte>
  {
    if line != [] && line[|line| - 1] == CR then line[..|line| - 1] else line
  }

  datatype Line = Text(line: seq<byte>) | TooLong | End

  /** One line and the input after it. A line that is not ended yet counts as one once the stream has. */
  function NextLine(s: seq<byte>): (Line, seq<byte>)
  {
    var n := LineEnd(s);
    if s == [] then (End, s)
    else if n + 1 > MAX_LINE then (TooLong, s)
    else (Text(Chomp(s[..n])), if n < |s| then s[n + 1..] else [])
  }

  datatype Item = Got(frame: Frame) | Closed | Malformed

  /** The next frame: blank lines are skipped, any other line must be a frame. */
  function NextItem(fmt: Format, s: seq<byte>): (r: (Item, seq<byte>))
    ensures r.0.Got? ==> |r.1| < |s|
    decreases |s|
  {
    match NextLine(s)
    case (End, rest) => (Closed, rest)
    case (TooLong, rest) => (Malformed, rest)
    case (Text(line), rest) =>
      if fmt.blank(line) then NextItem(fmt, rest)
      else
        match fmt.dec(line)
        case None => (Malformed, rest)
        case Some(f) => (Got(f), rest)
  }

  /** The frames up to the first failure, and the failure. */
  function Everything(fmt: Format, s: seq<byte>): (seq<Frame>, Item)
    decreases |s|
  {
    var (item, rest) := NextItem(fmt, s);
    if item.Got? then
      var (frames, end) := Everything(fmt, rest);
      ([item.frame] + frames, end)
    else ([], item)
  }

  datatype Greeting = Ack(hello: HelloFrame) | Shut | Refused

  /**
   The handshake read skips everything that is no frame; the first frame must be a hello. `Shut` is a
   failure for which the reader had to see the end of the stream.
   */
  function NextHello(fmt: Format, s: seq<byte>): (Greeting, seq<byte>)
    decreases |s|
  {
    match NextLine(s)
    case (End, rest) => (Shut, rest)
    case (TooLong, rest) => (Refused, rest)
    case (Text(line), rest) =>
      if fmt.blank(line) || fmt.dec(line).None? then NextHello(fmt, rest)
      else if fmt.dec(line).value.Hello? then (Ack(fmt.dec(line).value.hello), rest)
      else if LineEnd(s) < |s| then (Refused, rest)
      else (Shut, rest)
  }

  class Decoder {
    var rest: seq<byte>
    const fmt: Format

    constructor (fmt: Format, input: seq<byte>)
      ensures rest == input && this.fmt == fmt
    {
      rest := input;
      this.fmt := fmt;
    }

    method ReadLine() returns (r: Line)
      modifies this
      ensures (r, rest) == NextLine(old(rest))
    {
      var n := 0;
      while n < |rest| && rest[n] != NL
        invariant n <= |rest| && n + LineEnd(rest[n..]) == LineEnd(rest)
      {
        n := n + 1;
      }
      if rest == [] {
        return End;
      }
      if n + 1 > MAX_LINE {
        return TooLong;
      }
      r := Text(Chomp(rest[..n]));
      rest := if n < |rest| then rest[n + 1..] else [];
    }

    method Decode() returns (item: Item)
      modifies this
      ensures (item, rest) == NextItem(fmt, old(rest))
    {
      while true
        invariant NextItem(fmt, rest) == NextItem(fmt, old(rest))
        decreases |rest|
      {
        var r := ReadLine();
        match r {
          case End => return Closed;
          case TooLong => return Malformed;
          case Text(line) =>
            if !fmt.blank(line) {
              var f := fmt.dec(line);
              return if f.None? then Malformed else Got(f.value);
            }
        }
      }
    }

    method DecodeHello() returns (g: Greeting)
      modifies this
      ensures (g, rest) == NextHello(fmt, old(rest))
    {
      while true
        invariant NextHello(fmt, rest) == NextHello(fmt, old(rest))
        decreases |rest|
      {
        var hitEOF := LineEnd(rest) == |rest|;
        var r := ReadLine();
        match r {
          case End => return Shut;
          case TooLong => return Refused;
          case Text(line) =>
            if !fmt.blank(line) {
              var f := fmt.dec(line);
              if f.Some? {
                if f.value.Hello? {
                  return Ack(f.value.hello);
                }
                return if hitEOF then Shut else Refused;
              }
            }
        }
      }
    }
  }

  // ---- Writing ----

  function Lines(fmt: Format, frames: seq<Frame>): seq<byte>
  {
    if frames == [] then [] else fmt.enc(frames[0]) + [NL] + Lines(fmt, frames[1..])
  }

  lemma {:induction false} LinesAppend(fmt: Format, a: seq<Frame>, b: seq<Frame>)
    ensures Lines(fmt, a + b) == Lines(fmt, a) + Lines(fmt, b)
    decreases |a|
  {
    if a == [] {
      assert a + b == b;
    } else {
      assert (a + b)[1..] == a[1..] + b;
      LinesAppend(fmt, a[1..], b);
    }
  }

  /** Writers share it under a mutex, so that whole lines reach the stream in some order. */
  class Encoder {
    var written: seq<byte>
    ghost var sent: seq<Frame>
    const fmt: Format

    ghost predicate Valid()
      reads this
    {
      written == Lines(fmt, sent)
    }

    constructor (fmt: Format)
      ensures Valid() && sent == [] && this.fmt == fmt
    {
      written := [];
      sent := [];
      this.fmt := fmt;
    }

    method Encode(f: Frame)
      requires Valid()
      modifies this
      ensures Valid() && sent == old(sent) + [f]
    {
      LinesAppend(fmt, sent, [f]);
      assert [f][1..] == [];
      var data := fmt.enc(f) + [NL];
      written := written + data;
      sent := sent + [f];
    }
  }

  /** The writer a child's descriptor is attached to. */
  class IoWriter {
    const fd: int
    const enc: Encoder
    ghost var input: seq<byte>
    ghost var frames: seq<IoFrame>

    ghost predicate Valid()
      reads this, enc
    {
      enc.Valid() && Chunks(fd, frames, input)
    }

    constructor (fd: int, enc: Encoder)
      requires enc.Valid()
      ensures Valid() && this.fd == fd && this.enc == enc && input == [] && frames == []
    {
      this.fd, this.enc, input, frames := fd, enc, [], [];
      new;
      assert ChunkedBy(fd, [], [], []);
    }

    /**
     The lock is held for one frame at a time: `between[i]` are the frames that other writers get in
     before chunk `i` of this write. Its own chunks reach the stream in order, and all of them.
     */
    method Write(p: seq<byte>, between: seq<seq<Frame>>)
      requires Valid()
      modifies this, enc
      ensures Valid() && input == old(input) + p
      ensures old(frames) <= frames
      ensures enc.sent == old(enc.sent) + Woven(frames[|old(frames)|..], between, |frames| - |old(frames)|)
    {
      hide Chunks, Lines, Woven;
      var chunks := SplitIO(fd, p);
      ghost var before, sent := frames, enc.sent;
      WovenStep(chunks, between, 0);
      for i := 0 to |chunks|
        invariant enc.Valid() && frames == before && input == old(input)
        invariant enc.sent == sent + Woven(chunks, between, i)
      {
        var others := if i < |between| then between[i] else [];
        for j := 0 to |others|
          invariant enc.Valid() && frames == before && input == old(input)
          invariant enc.sent == sent + Woven(chunks, between, i) + others[..j]
        {
          enc.Encode(others[j]);
        }
        enc.Encode(IO(chunks[i]));
        WovenStep(chunks, between, i);
        assert others[..|others|] == others;
      }
      ChunksAppend(fd, frames, input, chunks, p);
      frames := frames + chunks;
      input := input + p;
      assert frames[|before|..] == chunks;
    }
  }

  /** The first `n` chunks of a write, each behind the frames of other writers. */
  function Woven(chunks: seq<IoFrame>, between: seq<seq<Frame>>, n: nat): seq<Frame>
    requires n <= |chunks|
  {
    if n == 0 then []
    else Woven(chunks, between, n - 1) + (if n - 1 < |between| then between[n - 1] else []) + [IO(chunks[n - 1])]
  }

  lemma WovenStep(chunks: seq<IoFrame>, between: seq<seq<Frame>>, i: nat)
    ensures Woven(chunks, between, 0) == []
    ensures i < |chunks| ==>
      Woven(chunks, between, i + 1)
      == Woven(chunks, between, i) + (if i < |between| then between[i] else []) + [IO(chunks[i])]
  {
  }

  lemma ChunksAppend(fd: int, a: seq<IoFrame>, x: seq<byte>, b: seq<IoFrame>, y: seq<byte>)
    requires Chunks(fd, a, x) && Chunks(fd, b, y)
    ensures Chunks(fd, a + b, x + y)
  {
    var p :| ChunkedBy(fd, a, x, p);
    var q :| ChunkedBy(fd, b, y, q);
    ChunkedByJoin(fd, a, x, p, b, y, q);
  }

  lemma {:induction false} ChunkedByJoin(fd: int, a: seq<IoFrame>, x: seq<byte>, p: seq<seq<byte>>, b: seq<IoFrame>,
      y: seq<byte>, q: seq<seq<byte>>)
    requires ChunkedBy(fd, a, x, p) && ChunkedBy(fd, b, y, q)
    ensures ChunkedBy(fd, a + b, x + y, p + q)
  {
    JoinAppend(p, q);
    hide EncodeIOChunk, Join;
  }

  // ---- A stream cut anywhere ----

  lemma {:induction false} FirstLine(line: seq<byte>, rest: seq<byte>)
    requires forall i :: 0 <= i < |line| ==> line[i] != NL
    ensures LineEnd(line + [NL] + rest) == |line|
    ensures LineEnd(line) == |line|
  {
    if line == [] {
      assert line + [NL] + rest == [NL] + rest;
    } else {
      assert (line + [NL] + rest)[1..] == line[1..] + [NL] + rest;
      FirstLine(line[1..], rest);
    }
  }

  /** A whole line within the limit reads as its frame. */
  lemma ReadsFrame(fmt: Format, f: Frame, rest: seq<byte>)
    requires Reads(fmt, f) && !Over(fmt, f)
    ensures NextItem(fmt, fmt.enc(f) + [NL] + rest) == (Got(Arrives(f)), rest)
    ensures NextItem(fmt, fmt.enc(f)) == (Got(Arrives(f)), [])
  {
    var line := fmt.enc(f);
    var s := line + [NL] + rest;
    FirstLine(line, rest);
    assert s[..|line|] == line && s[|line| + 1..] == rest && line[..|line|] == line;
  }

  /** A line broken off inside its object reads as malformed. */
  lemma ReadsBroken(fmt: Format, f: Frame, n: nat)
    requires Reads(fmt, f) && 0 < n < |fmt.enc(f)|
    ensures NextItem(fmt, fmt.enc(f)[..n]).0 == Malformed
  {
    hide Arrives;
    var line := fmt.enc(f)[..n];
    FirstLine(line, []);
    assert line[..n] == line;
  }

  /** So does a line over the limit. */
  lemma ReadsOver(fmt: Format, f: Frame, rest: seq<byte>)
    requires Reads(fmt, f) && Over(fmt, f)
    ensures NextItem(fmt, fmt.enc(f) + [NL] + rest).0 == Malformed
    ensures NextItem(fmt, fmt.enc(f)).0 == Malformed
  {
    hide Arrives;
    FirstLine(fmt.enc(f), rest);
  }

  /** How many frames have their whole object within the first `n` bytes, up to the first line over the limit. */
  function Complete(fmt: Format, frames: seq<Frame>, n: nat): (k: nat)
    ensures k <= |frames|
  {
    if frames == [] || n < |fmt.enc(frames[0])| || Over(fmt, frames[0]) then 0
    else if n == |fmt.enc(frames[0])| then 1
    else 1 + Complete(fmt, frames[1..], n - |fmt.enc(frames[0])| - 1)
  }

  /** The first `n` bytes reach into a line over the limit, or break off inside an object. */
  predicate Broken(fmt: Format, frames: seq<Frame>, n: nat)
  {
    if frames == [] || n == 0 then false
    else if n < |fmt.enc(frames[0])| || Over(fmt, frames[0]) then true
    else if n == |fmt.enc(frames[0])| then false
    else Broken(fmt, frames[1..], n - |fmt.enc(frames[0])| - 1)
  }

  /** The number of frames before the first whose line is over the limit. */
  function FirstOver(fmt: Format, frames: seq<Frame>): (k: nat)
    ensures k <= |frames| && (k < |frames| ==> Over(fmt, frames[k]))
    ensures forall i :: 0 <= i < k ==> !Over(fmt, frames[i])
  {
    if frames == [] || Over(fmt, frames[0]) then 0
    else
      var k := FirstOver(fmt, frames[1..]);
      assert forall i :: 0 < i <= k ==> frames[i] == frames[1..][i - 1];
      1 + k
  }

  lemma ArrivedFront(frames: seq<Frame>, k: nat)
    requires frames != [] && k <= |frames[1..]|
    ensures Arrived(frames[..1 + k]) == [Arrives(frames[0])] + Arrived(frames[1..][..k])
  {
    assert frames[..1 + k] == [frames[0]] + frames[1..][..k];
  }

  /**
   A reader of a stream cut after `n` bytes gets exactly the frames whose objects are complete, up to the
   first line over the limit; then it sees the stream closed, or a malformed line if it has come to such a
   line or the cut falls inside an object.
   */
  lemma {:induction false} CutStream(fmt: Format, frames: seq<Frame>, n: nat)
    requires ReadsAll(fmt, frames) && n <= |Lines(fmt, frames)|
    ensures Everything(fmt, Lines(fmt, frames)[..n]) ==
      (Arrived(frames[..Complete(fmt, frames, n)]), if Broken(fmt, frames, n) then Malformed else Closed)
    decreases |frames|
  {
    hide NextItem, Everything, Arrives, Reads, Over;
    var s := Lines(fmt, frames)[..n];
    assert Arrived(frames[..0]) == [];
    if n == 0 {
      assert s == [];
      ReadsEnd(fmt);
      if frames != [] {
        assert fmt.enc(frames[0]) != [] by { Starts(fmt, frames); }
      }
    } else {
      assert Reads(fmt, frames[0]);
      var line, later := fmt.enc(frames[0]), Lines(fmt, frames[1..]);
      OneItem(fmt, s);
      if n < |line| {
        assert s == line[..n];
        ReadsBroken(fmt, frames[0], n);
      } else if n == |line| {
        assert s == line;
        ReadsWhole(fmt, frames[0], []);
        ReadsEnd(fmt);
        ArrivedFront(frames, 0);
      } else {
        var m := n - |line| - 1;
        assert s == line + [NL] + later[..m];
        ReadsWhole(fmt, frames[0], later[..m]);
        if !Over(fmt, frames[0]) {
          CutStream(fmt, frames[1..], m);
          ArrivedFront(frames, Complete(fmt, frames[1..], m));
        }
      }
    }
  }

  lemma Starts(fmt: Format, frames: seq<Frame>)
    requires ReadsAll(fmt, frames) && frames != []
    ensures fmt.enc(frames[0]) != []
  {
    assert Reads(fmt, frames[0]);
  }

  lemma ReadsWhole(fmt: Format, f: Frame, rest: seq<byte>)
    requires Reads(fmt, f)
    ensures !Over(fmt, f) ==> NextItem(fmt, fmt.enc(f) + [NL] + rest) == (Got(Arrives(f)), rest)
    ensures !Over(fmt, f) ==> NextItem(fmt, fmt.enc(f)) == (Got(Arrives(f)), [])
    ensures Over(fmt, f) ==> NextItem(fmt, fmt.enc(f) + [NL] + rest).0 == Malformed && NextItem(fmt, fmt.enc(f)).0 == Malformed
  {
    hide Reads, Over, NextItem, Arrives;
    if Over(fmt, f) {
      ReadsOver(fmt, f, rest);
    } else {
      ReadsFrame(fmt, f, rest);
    }
  }

  lemma {:induction false} OneItem(fmt: Format, s: seq<byte>)
    ensures
      var (item, rest) := NextItem(fmt, s);
      var later := Everything(fmt, rest);
      Everything(fmt, s) == if item.Got? then ([item.frame] + later.0, later.1) else ([], item)
  {
    hide NextItem;
  }

  lemma ReadsEnd(fmt: Format)
    ensures Everything(fmt, []) == ([], Closed)
  {
  }

  lemma {:induction false} CompleteAtEnd(fmt: Format, frames: seq<Frame>)
    ensures Complete(fmt, frames, |Lines(fmt, frames)|) == FirstOver(fmt, frames)
    ensures Broken(fmt, frames, |Lines(fmt, frames)|) <==> FirstOver(fmt, frames) < |frames|
  {
    if frames != [] {
      CompleteAtEnd(fmt, frames[1..]);
    }
  }

  /** All frames come through exactly if no line is over the limit and at most the last newline is cut off. */
  lemma {:induction false} CompleteIff(fmt: Format, frames: seq<Frame>, n: nat)
    requires n <= |Lines(fmt, frames)|
    ensures Complete(fmt, frames, n) == |frames| <==> FirstOver(fmt, frames) == |frames| && n + 1 >= |Lines(fmt, frames)|
    decreases |frames|
  {
    if frames != [] && n > |fmt.enc(frames[0])| {
      CompleteIff(fmt, frames[1..], n - |fmt.enc(frames[0])| - 1);
    } else if |frames| > 1 {
      assert |Lines(fmt, frames[1..])| > 0;
    }
  }

  /** What is written is read: the stream gives back its frames, and its end, up to the first line over the limit. */
  lemma {:induction false} StreamRoundTrip(fmt: Format, frames: seq<Frame>)
    requires ReadsAll(fmt, frames)
    ensures
      var k := FirstOver(fmt, frames);
      Everything(fmt, Lines(fmt, frames)) == (Arrived(frames[..k]), if k == |frames| then Closed else Malformed)
  {
    hide Reads, Everything, Arrived;
    var s := Lines(fmt, frames);
    CutStream(fmt, frames, |s|);
    CompleteAtEnd(fmt, frames);
    assert s[..|s|] == s;
  }

  /** A line without its end, of which a carriage return is part. */
  function WithoutReturn(line: seq<byte>): seq<byte>
  {
    if line != [] && line[|line| - 1] == 0x0D then line[..|line| - 1] else line
  }

  /** What one line of the stream is to the reader of frames, and to the handshake: blank, noise, or a frame. */
  lemma {:induction false} OneLine(fmt: Format, line: seq<byte>, rest: seq<byte>)
    requires |line| < MAX_LINE && NL !in line
    ensures
      var text, s := WithoutReturn(line), line + [NL] + rest;
      if fmt.blank(text) then NextItem(fmt, s) == NextItem(fmt, rest) && NextHello(fmt, s) == NextHello(fmt, rest)
      else
        match fmt.dec(text)
        case None => NextItem(fmt, s) == (Malformed, rest) && NextHello(fmt, s) == NextHello(fmt, rest)
        case Some(f) => NextItem(fmt, s) == (Got(f), rest) && NextHello(fmt, s) == (if f.Hello? then Ack(f.hello) else Refused, rest)
  {
    FirstLine(line, rest);
    var s := line + [NL] + rest;
    assert s[..|line|] == line && s[|line| + 1..] == rest;
  }

  /** A stream that ends in a line without its newline can still greet; anything else there counts as a closed stream. */
  lemma {:induction false} LastGreeting(fmt: Format, line: seq<byte>)
    requires |line| < MAX_LINE && NL !in line
    ensures
      var text := WithoutReturn(line);
      NextHello(fmt, line).0 ==
        if line != [] && !fmt.blank(text) && fmt.dec(text).Some? && fmt.dec(text).value.Hello? then Ack(fmt.dec(text).value.hello) else Shut
  {
    assert LineEnd(line) == |line| && line[..|line|] == line;
  }

  /** Noise among the frames ends the reading: what was read before it stands. */
  lemma {:induction false} NoiseEndsTheStream(fmt: Format, frames: seq<Frame>, noise: seq<byte>, rest: seq<byte>)
    requires ReadsAll(fmt, frames) && FirstOver(fmt, frames) == |frames|
    requires |noise| < MAX_LINE && NL !in noise && !fmt.blank(WithoutReturn(noise)) && fmt.dec(WithoutReturn(noise)) == None
    ensures Everything(fmt, Lines(fmt, frames) + (noise + [NL] + rest)) == (Arrived(frames), Malformed)
    decreases |frames|
  {
    hide NextItem, Arrives, Reads, Over, Everything, WithoutReturn;
    var tail := noise + [NL] + rest;
    if frames == [] {
      assert Lines(fmt, frames) + tail == tail && Arrived(frames) == [];
      OneLine(fmt, noise, rest);
      OneItem(fmt, tail);
    } else {
      assert Reads(fmt, frames[0]) && ReadsAll(fmt, frames[1..]) && FirstOver(fmt, frames[1..]) == |frames[1..]|;
      NoiseEndsTheStream(fmt, frames[1..], noise, rest);
      OneMoreFrame(fmt, frames[0], Lines(fmt, frames[1..]) + tail);
      assert Lines(fmt, frames) + tail == fmt.enc(frames[0]) + [NL] + (Lines(fmt, frames[1..]) + tail);
      ArrivedFront(frames, |frames| - 1);
      assert frames[1..][..|frames| - 1] == frames[1..] && frames[..1 + (|frames| - 1)] == frames;
    }
  }

  lemma OneMoreFrame(fmt: Format, f: Frame, later: seq<byte>)
    requires Reads(fmt, f) && !Over(fmt, f)
    ensures
      var (frames, end) := Everything(fmt, later);
      Everything(fmt, fmt.enc(f) + [NL] + later) == ([Arrives(f)] + frames, end)
  {
    hide NextItem, Arrives, Reads, Over, Everything;
    ReadsWhole(fmt, f, later);
    OneItem(fmt, fmt.enc(f) + [NL] + later);
  }

  /** Noise before the hello is skipped: lines that are no frames, each ended and within the limit. */
  lemma {:induction false} HelloAfterNoise(fmt: Format, noise: seq<seq<byte>>, h: HelloFrame, rest: seq<byte>)
    requires Reads(fmt, Hello(h)) && !Over(fmt, Hello(h))
    requires forall i :: 0 <= i < |noise| ==> |noise[i]| < MAX_LINE && NL !in noise[i] && fmt.dec(Chomp(noise[i])) == None
    ensures NextHello(fmt, Unlines(noise) + (fmt.enc(Hello(h)) + [NL] + rest)) == (Ack(h), rest)
    decreases |noise|
  {
    var hello := fmt.enc(Hello(h)) + [NL] + rest;
    if noise == [] {
      var line := fmt.enc(Hello(h));
      FirstLine(line, rest);
      assert Unlines(noise) + hello == hello;
      assert hello[..|line|] == line && hello[|line| + 1..] == rest;
    } else {
      var later := Unlines(noise[1..]) + hello;
      var s := noise[0] + [NL] + later;
      assert Unlines(noise) + hello == s;
      FirstLine(noise[0], later);
      assert s[..|noise[0]|] == noise[0] && s[|noise[0]| + 1..] == later;
      HelloAfterNoise(fmt, noise[1..], h, rest);
    }
  }

  function Unlines(lines: seq<seq<byte>>): seq<byte>
  {
    if lines == [] then [] else lines[0] + [NL] + Unlines(lines[1..])
  }
}
