/**
 Output from a child's descriptor to the client's outcome: through the io writers, the shared encoder,
 the stream, the decoder and the read loop.
 */
module EndToEnd {
  import opened Bytes
  import opened Frames
  import opened Tracing
  import opened Wire
  import opened Client
  import J = Json
  import JT = JsonTrace

  /** The io frames of one descriptor, in the order they were sent. */
  function IoOf(frames: seq<Frame>, fd: int): seq<IoFrame>
  {
    if frames == [] then []
    else
      var last := frames[|frames| - 1];
      IoOf(frames[..|frames| - 1], fd) + if last.IO? && last.io.fd == fd then [last.io] else []
  }

  /** The bytes of a sequence of io frames. */
  function Payloads(ios: seq<IoFrame>): seq<byte>
  {
    if ios == [] then []
    else
      var p := Payload(ios[|ios| - 1]);
      Payloads(ios[..|ios| - 1]) + if p.Some? then p.value else []
  }

  lemma ChunkPayload(fd: int, chunk: seq<byte>)
    ensures Payload(EncodeIOChunk(fd, chunk)) == Some(chunk)
  {
    ChunkSurvives(fd, chunk);
  }

  lemma JoinLast(parts: seq<seq<byte>>)
    requires parts != []
    ensures Join(parts) == Join(parts[..|parts| - 1]) + parts[|parts| - 1]
  {
    var n := |parts| - 1;
    JoinAppend(parts[..n], [parts[n]]);
    assert parts == parts[..n] + [parts[n]] && Join([parts[n]]) == parts[n];
  }

  lemma {:induction false} PayloadsJoin(fd: int, ios: seq<IoFrame>, data: seq<byte>, parts: seq<seq<byte>>)
    requires ChunkedBy(fd, ios, data, parts)
    ensures Payloads(ios) == data
    decreases |ios|
  {
    if ios != [] {
      var n := |ios| - 1;
      hide EncodeIOChunk, Payload, Join;
      JoinLast(parts);
      ChunkPayload(fd, parts[n]);
      PayloadsJoin(fd, ios[..n], Join(parts[..n]), parts[..n]);
    }
  }

  ghost predicate TwoDescriptors(frames: seq<Frame>)
  {
    forall i :: 0 <= i < |frames| && frames[i].IO? ==> frames[i].io.fd == 1 || frames[i].io.fd == 2
  }

  lemma {:induction false} ShownIsPayloads(frames: seq<Frame>, err: bool)
    requires TwoDescriptors(frames)
    ensures Shown(frames, err) == Payloads(IoOf(frames, if err then 2 else 1))
  {
    hide Payload;
    if frames != [] {
      var front, last := frames[..|frames| - 1], frames[|frames| - 1];
      var ios := IoOf(front, if err then 2 else 1);
      ShownIsPayloads(front, err);
      if last.IO? && (last.io.fd == 2) == err {
        PayloadsSnoc(ios, last.io);
      } else {
        assert Shown(front, err) + [] == Shown(front, err) && ios + [] == ios;
      }
    }
  }

  lemma {:induction false} PayloadsSnoc(ios: seq<IoFrame>, f: IoFrame)
    ensures Payloads(ios + [f]) == Payloads(ios) + if Payload(f).Some? then Payload(f).value else []
  {
    assert (ios + [f])[..|ios|] == ios;
  }

  lemma {:induction false} IoMember(frames: seq<Frame>, i: nat) returns (j: nat)
    requires i < |frames| && frames[i].IO?
    ensures j < |IoOf(frames, frames[i].io.fd)| && IoOf(frames, frames[i].io.fd)[j] == frames[i].io
  {
    var front := frames[..|frames| - 1];
    if i < |frames| - 1 {
      j := IoMember(front, i);
    } else {
      j := |IoOf(front, frames[i].io.fd)|;
    }
  }

  /**
   What the runner sends of a step up to its result: trace and output frames of any length, and the chunks of
   the bytes written to descriptors 1 and 2, in any order that keeps each descriptor's own.
   */
  ghost predicate StepFrames(fmt: Format, body: seq<Frame>, out1: seq<byte>, out2: seq<byte>)
  {
    && TwoDescriptors(body)
    && Chunks(1, IoOf(body, 1), out1) && Chunks(2, IoOf(body, 2), out2)
    && (forall i :: 0 <= i < |body| ==> body[i].IO? || body[i].Trace? || body[i].Output?)
    && (forall i :: 0 <= i < |body| && !Modelled(body[i]) ==> Reads(fmt, body[i]))
  }

  lemma FrameTravels(fmt: Format, body: seq<Frame>, out1: seq<byte>, out2: seq<byte>, i: nat)
    requires IsJson(fmt) && StepFrames(fmt, body, out1, out2) && i < |body|
    ensures Reads(fmt, body[i]) && Goes(Arrives(body[i])) && (body[i].IO? ==> Arrives(body[i]) == body[i] && !Over(fmt, body[i]))
  {
    hide IsJson, Reads, EncodeIOChunk, Over;
    if body[i].IO? {
      var fd := body[i].io.fd;
      var j := IoMember(body, i);
      var parts :| ChunkedBy(fd, IoOf(body, fd), if fd == 1 then out1 else out2, parts);
      ChunkCarries(fmt, fd, parts[j]);
      ChunkPayload(fd, parts[j]);
    } else if Modelled(body[i]) {
      JsonReads(fmt, body[i]);
    }
  }

  lemma AllTravel(fmt: Format, body: seq<Frame>, result: Frame, out1: seq<byte>, out2: seq<byte>)
    requires IsJson(fmt) && StepFrames(fmt, body, out1, out2) && Reads(fmt, result)
    ensures ReadsAll(fmt, body + [result])
    ensures forall i :: 0 <= i < |body| ==> Goes(Arrives(body[i]))
    ensures forall i :: 0 <= i < |body| && body[i].IO? ==> Arrives(body[i]) == body[i]
  {
    hide IsJson, StepFrames, Reads, Goes, Arrives, Over;
    forall i | 0 <= i < |body|
      ensures Reads(fmt, body[i]) && Goes(Arrives(body[i])) && (body[i].IO? ==> Arrives(body[i]) == body[i])
    {
      FrameTravels(fmt, body, out1, out2, i);
    }
  }

  lemma OutputIsWritten(fmt: Format, body: seq<Frame>, out1: seq<byte>, out2: seq<byte>)
    requires StepFrames(fmt, body, out1, out2)
    ensures Shown(body, false) == out1 && Shown(body, true) == out2
  {
    ShownIsPayloads(body, false);
    ShownIsPayloads(body, true);
    var p1 :| ChunkedBy(1, IoOf(body, 1), out1, p1);
    var p2 :| ChunkedBy(2, IoOf(body, 2), out2, p2);
    PayloadsJoin(1, IoOf(body, 1), out1, p1);
    PayloadsJoin(2, IoOf(body, 2), out2, p2);
  }

  /** What arrives of the runner's trace frames. */
  function TracesArrive(ev: seq<TraceFrame>): seq<TraceFrame>
  {
    seq(|ev|, i requires 0 <= i < |ev| => TraceArrives(ev[i]))
  }

  lemma OneArrives(f: Frame)
    requires f.IO? ==> Arrives(f) == f
    ensures forall err :: Share(Arrives(f), err) == Share(f, err)
    ensures (Arrives(f).Trace? <==> f.Trace?) && (f.Trace? ==> Arrives(f).trace == TraceArrives(f.trace))
    ensures (Arrives(f).Output? <==> f.Output?) && (f.Output? ==> Arrives(f) == f)
  {
    hide Received, Payload;
  }

  ghost predicate ShowsAlike(frames: seq<Frame>)
  {
    && (forall err :: Shown(Arrived(frames), err) == Shown(frames, err))
    && Traces(Arrived(frames)) == TracesArrive(Traces(frames)) && Outputs(Arrived(frames)) == Outputs(frames)
  }

  lemma ArrivedSnoc(front: seq<Frame>, last: Frame)
    requires ShowsAlike(front) && (last.IO? ==> Arrives(last) == last)
    ensures ShowsAlike(front + [last])
  {
    hide Arrives, Share, TraceArrives, Shown, Traces, Outputs;
    OneArrives(last);
    assert Arrived(front + [last]) == Arrived(front) + [Arrives(last)];
    Snoc(Arrived(front), Arrives(last));
    Snoc(front, last);
    if last.Trace? {
      assert TracesArrive(Traces(front) + [last.trace]) == TracesArrive(Traces(front)) + [TraceArrives(last.trace)];
    } else {
      assert Traces(front) + [] == Traces(front);
      assert TracesArrive(Traces(front)) + [] == TracesArrive(Traces(front));
    }
  }

  /** Arriving changes the words of the trace and nothing else. */
  lemma {:induction false} ArrivedShows(frames: seq<Frame>)
    requires forall i :: 0 <= i < |frames| && frames[i].IO? ==> Arrives(frames[i]) == frames[i]
    ensures ShowsAlike(frames)
  {
    if frames == [] {
      Nothing();
      assert Arrived(frames) == [] && TracesArrive([]) == [];
    } else {
      hide ShowsAlike, Arrives;
      ArrivedShows(frames[..|frames| - 1]);
      ArrivedSnoc(frames[..|frames| - 1], frames[|frames| - 1]);
      assert frames == frames[..|frames| - 1] + [frames[|frames| - 1]];
    }
  }

  lemma {:induction false} ShownPrefix(frames: seq<Frame>, n: nat, err: bool)
    requires n <= |frames|
    ensures Shown(frames[..n], err) <= Shown(frames, err)
    decreases |frames|
  {
    if n < |frames| {
      ShownPrefix(frames[..|frames| - 1], n, err);
      assert frames[..|frames| - 1][..n] == frames[..n];
    } else {
      assert frames[..n] == frames;
    }
  }

  /** The outcome holds what the frames carry, as far as they arrive. */
  ghost predicate Holds(o: Outcome, frames: seq<Frame>)
  {
    && o.stdout == Shown(frames, false) && o.stderr == Shown(frames, true) && o.outputs == Outputs(frames)
    && TraceIs(o.trace, TracesArrive(Traces(frames)))
  }

  /** The frames of the body among the first `k` of the stream. */
  function Got(body: seq<Frame>, k: nat): seq<Frame>
  {
    if k < |body| then body[..k] else body
  }

  /** The read loop on the first `k` frames of a step. */
  lemma LoopOutcome(body: seq<Frame>, result: Frame, k: nat, end: Item, o: Outcome)
    requires k <= |body| + 1 && result.Result?
    requires forall i :: 0 <= i < |body| ==> Goes(Arrives(body[i]))
    requires forall i :: 0 <= i < |body| && body[i].IO? ==> Arrives(body[i]) == body[i]
    requires OutcomeOf(o, Arrived((body + [result])[..k]), end)
    ensures Holds(o, Got(body, k))
    ensures k == |body| + 1 ==> Flags(o) == 0 && o.exit == result.exit && o.wallNS == result.wallNS && o.error == result.error
    ensures k <= |body| ==> o.exit == -1 && Flags(o) == 1 && (o.protocolError <==> !end.Closed?)
  {
    var got, tail := Got(body, k), if k == |body| + 1 then [result] else [];
    hide Shown, Traces, Outputs, Goes, TraceIs;
    assert Arrived((body + [result])[..k]) == Arrived(got) + tail;
    assert Goes(result) == false by { ResultEnds(result); }
    BodyIs(Arrived(got), tail);
    ArrivedShows(got);
    assert tail != [] ==> (Arrived(got) + tail)[|got|] == result;
  }

  lemma ResultEnds(result: Frame)
    requires result.Result?
    ensures !Goes(result)
  {
  }

  /**
   A stream cut after any number of bytes loses a tail and nothing else. The outcome is the result frame's,
   with everything that was written, exactly if no line of the step is over the limit and at most the last
   newline is cut off. Otherwise stdout and stderr are those of the frames that came through whole, up to the
   first line over the limit: a wire cut, or a protocol error when the reader met such a line or the cut falls
   inside an object.
   */
  lemma {:induction false} CutLosesOnlyATail(fmt: Format, body: seq<Frame>, result: Frame, out1: seq<byte>,
      out2: seq<byte>, n: nat, o: Outcome)
    requires IsJson(fmt) && StepFrames(fmt, body, out1, out2) && result.Result? && Reads(fmt, result)
    requires n <= |Lines(fmt, body + [result])|
    requires
      var all := Everything(fmt, Lines(fmt, body + [result])[..n]);
      OutcomeOf(o, all.0, all.1)
    ensures Holds(o, Got(body, Complete(fmt, body + [result], n))) && o.stdout <= out1 && o.stderr <= out2
    ensures Flags(o) == 0 <==> (forall f :: f in body + [result] ==> !Over(fmt, f)) && n + 1 >= |Lines(fmt, body + [result])|
    ensures Flags(o) == 0 ==> o.exit == result.exit && o.wallNS == result.wallNS && o.error == result.error
    ensures Flags(o) == 0 ==> Holds(o, body) && o.stdout == out1 && o.stderr == out2
    ensures Flags(o) != 0 ==> o.exit == -1 && Flags(o) == 1 && (o.protocolError <==> Broken(fmt, body + [result], n))
  {
    hide IsJson, StepFrames, Everything, Lines, Reads, Goes, Shown, Traces, Outputs, Broken, Complete, Arrives, OutcomeOf, Over;
    var all := body + [result];
    AllTravel(fmt, body, result, out1, out2);
    OutputIsWritten(fmt, body, out1, out2);
    CutStream(fmt, all, n);
    var k := Complete(fmt, all, n);
    LoopOutcome(body, result, k, if Broken(fmt, all, n) then Malformed else Closed, o);
    CompleteIff(fmt, all, n);
    NoneIsOver(fmt, all);
    ShownPrefix(body, if k < |body| then k else |body|, false);
    ShownPrefix(body, if k < |body| then k else |body|, true);
    assert body[..|body|] == body;
  }

  lemma NoneIsOver(fmt: Format, frames: seq<Frame>)
    ensures FirstOver(fmt, frames) == |frames| <==> forall f :: f in frames ==> !Over(fmt, f)
  {
  }

  /**
   However the writes to the two descriptors interleave, and whatever bytes they carry: the client's outcome
   is the result's, and its stdout and stderr the concatenations of what was written to each, exactly if no
   line of the step is over the limit. Otherwise it is a protocol error, with what came before the first
   such line.
   */
  lemma {:induction false} OutputSurvives(fmt: Format, body: seq<Frame>, result: Frame, out1: seq<byte>, out2: seq<byte>, o: Outcome)
    requires IsJson(fmt) && StepFrames(fmt, body, out1, out2) && result.Result? && Reads(fmt, result)
    requires
      var all := Everything(fmt, Lines(fmt, body + [result]));
      OutcomeOf(o, all.0, all.1)
    ensures Flags(o) == 0 <==> forall f :: f in body + [result] ==> !Over(fmt, f)
    ensures Flags(o) == 0 ==> o.exit == result.exit && o.wallNS == result.wallNS && o.error == result.error
    ensures Flags(o) == 0 ==> Holds(o, body) && o.stdout == out1 && o.stderr == out2
    ensures
      var k := FirstOver(fmt, body + [result]);
      Flags(o) != 0 ==>
        && k <= |body| && Over(fmt, (body + [result])[k])
        && o.exit == -1 && o.protocolError && Flags(o) == 1
        && Holds(o, body[..k]) && o.stdout <= out1 && o.stderr <= out2
  {
    hide IsJson, StepFrames, Everything, Lines, Reads, Shown, Traces, Outputs, Broken, Complete, OutcomeOf, Over;
    var all := body + [result];
    var s := Lines(fmt, all);
    assert s[..|s|] == s;
    CutLosesOnlyATail(fmt, body, result, out1, out2, |s|, o);
    CompleteAtEnd(fmt, all);
    assert body[..|body|] == body;
  }

  // ---- Such a format exists ----

  /** The place of `f` in `table`, or its length. */
  ghost function PlaceOf(table: seq<Frame>, f: Frame): (k: nat)
    ensures k <= |table| && (k < |table| ==> table[k] == f) && (f in table ==> k < |table|)
  {
    if table == [] || table[0] == f then 0 else 1 + PlaceOf(table[1..], f)
  }

  /** A code for the `k`-th of the other frames: `k` times `x` and a `y`. */
  function Code(k: nat): seq<byte>
  {
    seq(k, i => 0x78) + [0x79]
  }

  predicate IsCode(s: seq<byte>)
  {
    s != [] && s[|s| - 1] == 0x79 && forall i :: 0 <= i < |s| - 1 ==> s[i] == 0x78
  }

  /** Modelled frames as JSON, and those of `table` by their place. */
  ghost function TableFormat(table: seq<Frame>): Format
  {
    Format(
      (f: Frame) => if Modelled(f) then JsonOf(f) else Code(PlaceOf(table, f)),
      (s: seq<byte>) =>
        if J.ReadIoLine(s).Some? then Some(IO(J.ReadIoLine(s).value))
        else if JT.ReadStartLine(s).Some? then Some(Trace(StartOf(JT.ReadStartLine(s).value)))
        else if IsCode(s) && |s| - 1 < |table| then Some(Arrives(table[|s| - 1]))
        else None,
      (s: seq<byte>) => forall i :: 0 <= i < |s| ==> s[i] == 0x20)
  }

  function StartOf(t: JT.Start): TraceFrame
  {
    CmdStart(t.number, t.argv, t.line)
  }

  /** How such a format writes, and how it reads what starts like an object. */
  lemma TableDoes(table: seq<Frame>, f: Frame, s: seq<byte>)
    requires s != [] && s[0] == 0x7B
    ensures
      var fmt := TableFormat(table);
      && (Modelled(f) ==> fmt.enc(f) == JsonOf(f))
      && !fmt.blank(s)
      && fmt.dec(s) ==
           if J.ReadIoLine(s).Some? then Some(IO(J.ReadIoLine(s).value))
           else if JT.ReadStartLine(s).Some? then Some(Trace(StartOf(JT.ReadStartLine(s).value)))
           else None
  {
    hide JsonOf, J.ReadIoLine, JT.ReadStartLine;
  }

  lemma IoLinesRead(table: seq<Frame>, io: IoFrame)
    requires io.fd == 1 || io.fd == 2
    ensures JsonFor(TableFormat(table), IO(io))
  {
    hide J.IoLine, J.ReadIoLine, JT.ReadStartLine, TableFormat;
    var fmt, line := TableFormat(table), J.IoLine(io);
    J.IoLineRoundTrip(io);
    J.IoLineShape(io);
    TableDoes(table, IO(io), line);
    forall n | 0 < n < |line| ensures fmt.dec(line[..n]) == None && !fmt.blank(line[..n]) {
      J.PartOfALine(io, n);
      IoIsNoStart(io, n);
      TableDoes(table, IO(io), line[..n]);
    }
  }

  /** The tenth byte tells the two kinds apart. */
  lemma IoIsNoStart(io: IoFrame, n: nat)
    requires (io.fd == 1 || io.fd == 2) && n <= |J.IoLine(io)|
    ensures JT.ReadStartLine(J.IoLine(io)[..n]) == None
  {
    J.OpeningIs();
    JT.StartIs();
    hide J.Ascii, J.Escaped;
    var part := J.IoLine(io)[..n];
    assert n > 9 ==> part[9] == J.OPENING[9];
    J.NotBehind(JT.START, part, 9);
  }

  lemma StartIsNoIo(number: nat, argv: seq<seq<byte>>, line: nat, n: nat)
    requires argv != [] && n <= |JT.StartLine(number, argv, line)|
    ensures J.ReadIoLine(JT.StartLine(number, argv, line)[..n]) == None
  {
    J.OpeningIs();
    JT.StartLineShape(number, argv, line);
    hide J.Ascii, JT.StartLine;
    var part := JT.StartLine(number, argv, line)[..n];
    J.NotBehind(J.OPENING, part, 9);
  }

  lemma StartLinesRead(table: seq<Frame>, number: nat, argv: seq<seq<byte>>, line: nat)
    requires argv != []
    ensures JsonFor(TableFormat(table), Trace(CmdStart(number, argv, line)))
  {
    hide JT.StartLine, J.ReadIoLine, JT.ReadStartLine, JT.CoerceAll, TableFormat;
    var f := Trace(CmdStart(number, argv, line));
    var fmt, s := TableFormat(table), JT.StartLine(number, argv, line);
    JT.StartLineRoundTrip(number, argv, line);
    JT.StartLineShape(number, argv, line);
    StartIsNoIo(number, argv, line, |s|);
    assert s[..|s|] == s;
    TableDoes(table, f, s);
    forall n | 0 < n < |s| ensures fmt.dec(s[..n]) == None && !fmt.blank(s[..n]) {
      StartIsNoIo(number, argv, line, n);
      TableDoes(table, f, s[..n]);
    }
  }

  lemma TableReadsJson(table: seq<Frame>)
    ensures IsJson(TableFormat(table))
  {
    hide TableFormat, JsonFor;
    forall f: Frame | Modelled(f) ensures JsonFor(TableFormat(table), f) {
      if f.IO? {
        IoLinesRead(table, f.io);
      } else {
        StartLinesRead(table, f.trace.number, f.trace.argv, f.trace.line);
      }
    }
  }

  lemma NoCodeIsJson(s: seq<byte>)
    requires s == [] || s[0] == 0x78 || s[0] == 0x79
    ensures J.ReadIoLine(s) == None && JT.ReadStartLine(s) == None
  {
    J.OpeningIs();
    JT.StartIs();
    hide J.ReadString, JT.ReadStrings, JT.ReadNumber;
  }

  lemma TableReads(table: seq<Frame>, f: Frame)
    requires f in table && !Modelled(f)
    ensures Reads(TableFormat(table), f)
  {
    hide J.ReadIoLine, J.IoLine, JT.ReadStartLine, JT.StartLine, Arrives;
    var fmt, k := TableFormat(table), PlaceOf(table, f);
    var line := fmt.enc(f);
    assert line == Code(k);
    NoCodeIsJson(line);
    assert IsCode(line);
    forall n | 0 < n < |line| ensures fmt.dec(line[..n]) == None && !fmt.blank(line[..n]) {
      assert line[..n][0] == 0x78 && line[..n][n - 1] == 0x78;
      NoCodeIsJson(line[..n]);
    }
  }

  lemma FirstFits(table: seq<Frame>)
    requires table != [] && !Modelled(table[0])
    ensures !Over(TableFormat(table), table[0])
  {
  }

  lemma ModelledKinds(f: Frame)
    ensures Modelled(f) ==> f.IO? || f.Trace?
  {
  }

  /**
   What the theorems ask of a format can be had: for every greeting and step there is a format that writes io
   frames and command starts as JSON and reads the rest back.
   */
  lemma {:induction false} FormatExists(h: HelloFrame, body: seq<Frame>, result: Frame, out1: seq<byte>, out2: seq<byte>)
    returns (fmt: Format)
    requires TwoDescriptors(body) && Chunks(1, IoOf(body, 1), out1) && Chunks(2, IoOf(body, 2), out2)
    requires forall i :: 0 <= i < |body| ==> body[i].IO? || body[i].Trace? || body[i].Output?
    requires result.Result?
    ensures IsJson(fmt) && StepFrames(fmt, body, out1, out2) && Reads(fmt, result)
    ensures Reads(fmt, Hello(h)) && !Over(fmt, Hello(h))
  {
    var table := [Hello(h)] + body + [result];
    fmt := TableFormat(table);
    hide Chunks, Reads, TableFormat, IsJson, Over, Modelled, IoOf;
    TableReadsJson(table);
    assert table[0] == Hello(h) && table[|body| + 1] == result;
    ModelledKinds(Hello(h));
    ModelledKinds(result);
    FirstFits(table);
    TableReads(table, Hello(h));
    TableReads(table, result);
    forall i | 0 <= i < |body| && !Modelled(body[i]) ensures Reads(fmt, body[i]) {
      assert table[i + 1] == body[i];
      TableReads(table, body[i]);
    }
  }
}
