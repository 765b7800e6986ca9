/** The daemon's end of one step: handshake, run frame, and the loop that folds the runner's frames into an outcome. */
module Client {
  import opened Bytes
  import opened Frames
  import opened Tracing
  import opened Wire

  // ---- Outcomes ----

  datatype Outcome = Outcome(
    exit: int, wallNS: int, outputs: Option<map<string, string>>,
    stdout: seq<byte>, stderr: seq<byte>, trace: seq<TraceLine>, error: string, hello: Option<HelloFrame>,
    wireCut: bool, protocolError: bool, protoMismatch: bool, unsentOversize: bool)

  const EMPTY: Outcome := Outcome(0, 0, None, [], [], [], "", None, false, false, false, false)

  function WireCut(partial: Outcome): Outcome
  {
    partial.(exit := -1, wireCut := true, error := "wire cut")
  }

  function ProtocolError(partial: Outcome): Outcome
  {
    partial.(exit := -1, protocolError := true, error := "protocol error")
  }

  function ProtoMismatch(h: HelloFrame): Outcome
  {
    EMPTY.(exit := -1, hello := Some(h), protoMismatch := true, error := "handshake mismatch")
  }

  function UnsentOversize(h: HelloFrame): Outcome
  {
    EMPTY.(exit := -1, hello := Some(h), unsentOversize := true, error := "frame too large")
  }

  function Flags(o: Outcome): nat
  {
    (if o.wireCut then 1 else 0) + (if o.protocolError then 1 else 0)
    + (if o.protoMismatch then 1 else 0) + (if o.unsentOversize then 1 else 0)
  }

  // ---- What the read loop should make of the frames ----

  /** The loop goes on after the frame. */
  predicate Goes(f: Frame)
  {
    f.Trace? || f.Output? || (f.IO? && Payload(f.io).Some?)
  }

  /** The number of frames before the one that ends the loop. */
  function Body(frames: seq<Frame>): (n: nat)
    ensures n <= |frames| && (n < |frames| ==> !Goes(frames[n]))
    ensures forall i :: 0 <= i < n ==> Goes(frames[i])
  {
    if frames == [] || !Goes(frames[0]) then 0
    else
      var n := Body(frames[1..]);
      assert forall i :: 0 < i <= n ==> frames[i] == frames[1..][i - 1];
      1 + n
  }

  /** The bytes the frame adds to stderr, or to stdout. */
  function Share(f: Frame, err: bool): seq<byte>
  {
    if f.IO? && (f.io.fd == 2) == err && Payload(f.io).Some? then Payload(f.io).value else []
  }

  function Shown(frames: seq<Frame>, err: bool): seq<byte>
  {
    if frames == [] then [] else Shown(frames[..|frames| - 1], err) + Share(frames[|frames| - 1], err)
  }

  function Traces(frames: seq<Frame>): seq<TraceFrame>
  {
    if frames == [] then []
    else Traces(frames[..|frames| - 1]) + if frames[|frames| - 1].Trace? then [frames[|frames| - 1].trace] else []
  }

  /** Later output frames add to earlier ones. */
  function Outputs(frames: seq<Frame>): Option<map<string, string>>
  {
    if frames == [] then None
    else
      var before := Outputs(frames[..|frames| - 1]);
      var last := frames[|frames| - 1];
      if !last.Output? then before
      else Some((if before.Some? then before.value else map[]) + last.values)
  }

  ghost predicate Collected(o: Outcome, body: seq<Frame>)
  {
    && TraceIs(o.trace, Traces(body))
    && o.outputs == Outputs(body)
    && o.stdout == Shown(body, false)
    && o.stderr == Shown(body, true)
  }

  /** The outcome of a stream of frames that ends in `end`. */
  ghost predicate OutcomeOf(o: Outcome, frames: seq<Frame>, end: Item)
  {
    var n := Body(frames);
    && Collected(o, frames[..n])
    && !o.protoMismatch && !o.unsentOversize
    && if n < |frames| && frames[n].Result? then
         o.exit == frames[n].exit && o.wallNS == frames[n].wallNS && o.error == frames[n].error && Flags(o) == 0
       else
         o.exit == -1 && Flags(o) == 1 && (o.wireCut <==> n == |frames| && end.Closed?)
  }

  lemma {:induction false} Snoc(body: seq<Frame>, f: Frame)
    ensures forall err :: Shown(body + [f], err) == Shown(body, err) + Share(f, err)
    ensures Traces(body + [f]) == Traces(body) + if f.Trace? then [f.trace] else []
    ensures Outputs(body + [f]) ==
      if !f.Output? then Outputs(body)
      else Some((if Outputs(body).Some? then Outputs(body).value else map[]) + f.values)
  {
    assert (body + [f])[..|body|] == body;
  }

  lemma {:induction false} BodyIs(body: seq<Frame>, rest: seq<Frame>)
    requires forall i :: 0 <= i < |body| ==> Goes(body[i])
    requires rest != [] ==> !Goes(rest[0])
    ensures Body(body + rest) == |body| && (body + rest)[..|body|] == body
  {
    var n := Body(body + rest);
    assert forall i :: 0 <= i < |body| ==> (body + rest)[i] == body[i];
    assert rest != [] ==> (body + rest)[|body|] == rest[0];
  }

  /** The frames read so far, and those still to come. */
  ghost predicate Reading(fmt: Format, all: (seq<Frame>, Item), body: seq<Frame>, rest: seq<byte>)
  {
    all == (body + Everything(fmt, rest).0, Everything(fmt, rest).1)
  }

  lemma {:induction false} ReadMore(fmt: Format, all: (seq<Frame>, Item), body: seq<Frame>, rest: seq<byte>)
    requires Reading(fmt, all, body, rest)
    ensures
      var (item, later) := NextItem(fmt, rest);
      if item.Got? then
        && Reading(fmt, all, body + [item.frame], later)
        && all.0 == body + ([item.frame] + Everything(fmt, later).0)
      else all == (body, item)
  {
    hide NextItem;
    OneItem(fmt, rest);
    var (item, later) := NextItem(fmt, rest);
    if item.Got? {
      assert body + ([item.frame] + Everything(fmt, later).0) == (body + [item.frame]) + Everything(fmt, later).0;
    } else {
      assert body + [] == body;
    }
  }

  /** The outcome when the loop stops at a frame, or at the end of the stream. */
  lemma StopsAt(o: Outcome, body: seq<Frame>, rest: seq<Frame>, end: Item)
    requires (forall i :: 0 <= i < |body| ==> Goes(body[i])) && (rest != [] ==> !Goes(rest[0]))
    requires Collected(o, body) && !o.protoMismatch && !o.unsentOversize
    requires if rest != [] && rest[0].Result? then
        o.exit == rest[0].exit && o.wallNS == rest[0].wallNS && o.error == rest[0].error && Flags(o) == 0
      else o.exit == -1 && Flags(o) == 1 && (o.wireCut <==> rest == [] && end.Closed?)
    ensures OutcomeOf(o, body + rest, end)
  {
    BodyIs(body, rest);
    hide Collected, Goes;
    assert rest != [] ==> (body + rest)[|body|] == rest[0];
  }

  datatype Builders = Builders(stdout: seq<byte>, stderr: seq<byte>, outputs: Option<map<string, string>>)

  ghost predicate Built(b: Builders, collector: Collector, body: seq<Frame>)
    reads collector
  {
    && collector.Valid() && collector.ev == Traces(body)
    && b.stdout == Shown(body, false) && b.stderr == Shown(body, true) && b.outputs == Outputs(body)
  }

  /** One frame that does not end the loop. */
  method Fold(f: Frame, b: Builders, collector: Collector, ghost body: seq<Frame>) returns (more: Builders)
    requires Goes(f) && Built(b, collector, body)
    modifies collector
    ensures Built(more, collector, body + [f])
  {
    Snoc(body, f);
    hide Shown, Traces, Outputs;
    match f {
      case Trace(t) =>
        collector.HandleTrace(t);
        more := b;
      case IO(io) =>
        var p := Payload(io).value;
        more := if io.fd == 2 then b.(stderr := b.stderr + p) else b.(stdout := b.stdout + p);
      case Output(values) =>
        var outputs := if b.outputs.Some? then b.outputs.value else map[];
        more := b.(outputs := Some(outputs + values));
    }
  }

  method ReadLoop(dec: Decoder) returns (out: Outcome)
    modifies dec
    ensures OutcomeOf(out, Everything(dec.fmt, old(dec.rest)).0, Everything(dec.fmt, old(dec.rest)).1)
  {
    hide Everything, NextItem, Shown, Traces, Outputs, Opened, LineOf, Owner, Body, Goes;
    var collector := new Collector();
    var b := Builders([], [], None);
    ghost var all := Everything(dec.fmt, dec.rest);
    ghost var body: seq<Frame> := [];
    Nothing();
    assert body + all.0 == all.0;
    while true
      invariant fresh(collector) && Built(b, collector, body)
      invariant Reading(dec.fmt, all, body, dec.rest)
      invariant forall i :: 0 <= i < |body| ==> Goes(body[i])
      decreases |dec.rest|
    {
      ReadMore(dec.fmt, all, body, dec.rest);
      var item := dec.Decode();
      var partial := EMPTY.(outputs := b.outputs, stdout := b.stdout, stderr := b.stderr, trace := collector.trace);
      assert Collected(partial, body);
      if !item.Got? {
        out := if item.Closed? then WireCut(partial) else ProtocolError(partial);
        StopsAt(out, body, [], item);
        assert body + [] == body;
        return;
      }
      var f := item.frame;
      if !Goes(f) {
        out := if f.Result? then partial.(exit := f.exit, wallNS := f.wallNS, error := f.error) else ProtocolError(partial);
        StopsAt(out, body, [f] + Everything(dec.fmt, dec.rest).0, all.1);
        return;
      }
      b := Fold(f, b, collector, body);
      body := body + [f];
    }
  }

  lemma Nothing()
    ensures Traces([]) == [] && Shown([], false) == [] && Shown([], true) == [] && Outputs([]) == None
  {
  }

  // ---- One step ----

  const PROTO := 1

  datatype Step = Step(
    program: seq<byte>, env: map<string, string>, entrypoint: string, timeoutNS: int,
    expectVersion: string, files: seq<(string, seq<byte>)>)

  /** The runner's stdio: whether the pipes exist, how many frames can be written before stdin breaks, and
      what the runner says on stderr. */
  datatype Link = Link(stdin: bool, stdout: bool, writable: nat, diagnostics: seq<byte>)

  datatype Ran = Misuse | Finished(outcome: Outcome)

  /** A runner of this protocol, at the version that was pushed when one was. */
  predicate Accepts(step: Step, h: HelloFrame)
  {
    h.proto == PROTO && h.role == "runner" && (step.expectVersion == "" || h.version == step.expectVersion)
  }

  function RunOf(step: Step): Frame
  {
    Run(step.program, step.env, step.entrypoint, step.timeoutNS)
  }

  function FilesOf(step: Step): seq<Frame>
  {
    seq(|step.files|, i requires 0 <= i < |step.files| => File(step.files[i].0, step.files[i].1))
  }

  const HELLO: Frame := Hello(HelloFrame(PROTO, "daemon", ""))

  /** Everything the daemon would send up to the body. */
  function Script(step: Step): seq<Frame>
  {
    [HELLO] + FilesOf(step) + [RunOf(step)]
  }

  /** The frames handed to the encoder, in order; the one at position `writable` fails. */
  ghost predicate Sent(sent: seq<Frame>, step: Step)
  {
    |sent| <= |Script(step)| && sent == Script(step)[..|sent|]
  }

  /** No part of the run frame has been handed to the wire. */
  ghost predicate NoRun(sent: seq<Frame>)
  {
    forall i :: 0 <= i < |sent| ==> !sent[i].Run?
  }

  /** All frames of the script after the hello fit their lines, up to the first `n`. */
  ghost predicate Fits(fmt: Format, step: Step, n: nat)
  {
    forall i :: 1 <= i < n && i < |Script(step)| ==> !Over(fmt, Script(step)[i])
  }

  /** The body was sent, and the outcome is that of the frames that came back. */
  ghost predicate Driven(o: Outcome, fmt: Format, step: Step, link: Link, input: seq<byte>)
  {
    var (g, rest) := NextHello(fmt, input);
    && g.Ack? && Accepts(step, g.hello)
    && (exists core: Outcome ::
          && OutcomeOf(core, Everything(fmt, rest).0, Everything(fmt, rest).1)
          && o == core.(hello := Some(g.hello), stderr := core.stderr + link.diagnostics))
  }

  /** The outcome when the body was not reached or the wire broke on the way to it. */
  ghost predicate Failed(o: Outcome, sent: seq<Frame>, fmt: Format, step: Step, link: Link, input: seq<byte>)
  {
    var g := NextHello(fmt, input).0;
    && o.exit == -1 && Flags(o) == 1
    && (o.protoMismatch <==> |sent| == 1 <= link.writable && g.Ack? && !Accepts(step, g.hello))
    && (o.protocolError <==> |sent| == 1 <= link.writable && g.Refused?)
    && (o.unsentOversize <==>
         1 <= |sent| < |Script(step)| && |sent| <= link.writable && g.Ack? && Accepts(step, g.hello)
         && Over(fmt, Script(step)[|sent|]))
  }

  /** Where the daemon stops short of the answer, having handed over `sent`. */
  ghost predicate Stopped(sent: seq<Frame>, fmt: Format, step: Step, link: Link, input: seq<byte>)
  {
    var g, n := NextHello(fmt, input).0, |sent|;
    var met := g.Ack? && Accepts(step, g.hello);
    && 1 <= n <= |Script(step)|
    && (n > 1 ==> met && n - 1 <= link.writable)
    && (n <= link.writable && met ==> n < |Script(step)| && Over(fmt, Script(step)[n]))
  }

  /** The outcome of a daemon that stops short after handing over `n` frames. */
  function FailureOf(n: nat, fmt: Format, step: Step, link: Link, input: seq<byte>): Outcome
  {
    var g := NextHello(fmt, input).0;
    Diagnosed(
      if n <= 1 && n > link.writable then WireCut(EMPTY)
      else
        match g
        case Shut => WireCut(EMPTY)
        case Refused => ProtocolError(EMPTY)
        case Ack(h) =>
          if !Accepts(step, h) then ProtoMismatch(h)
          else if n > link.writable then WireCut(EMPTY).(hello := Some(h))
          else UnsentOversize(h),
      link)
  }

  /** What one step comes to: how far the daemon got, and the outcome it reports. */
  ghost predicate Answer(o: Outcome, sent: seq<Frame>, fmt: Format, step: Step, link: Link, input: seq<byte>)
  {
    && Sent(sent, step) && Fits(fmt, step, |sent|)
    && if |sent| == |Script(step)| <= link.writable then Driven(o, fmt, step, link, input)
       else
         && Stopped(sent, fmt, step, link, input)
         && o == FailureOf(|sent|, fmt, step, link, input)
         && Failed(o, sent, fmt, step, link, input)
  }

  /** Which flag such a daemon sets, and when. */
  lemma StoppedIsFailed(sent: seq<Frame>, fmt: Format, step: Step, link: Link, input: seq<byte>)
    requires Sent(sent, step) && Stopped(sent, fmt, step, link, input)
    ensures Failed(FailureOf(|sent|, fmt, step, link, input), sent, fmt, step, link, input)
  {
    hide NextHello, Script;
  }

  lemma ScriptAt(step: Step, i: nat)
    ensures |Script(step)| == |step.files| + 2 && Script(step)[0] == HELLO
    ensures i < |step.files| ==> Script(step)[i + 1] == File(step.files[i].0, step.files[i].1)
    ensures Script(step)[|step.files| + 1] == RunOf(step)
    ensures forall j :: 0 <= j <= |step.files| ==> !Script(step)[j].Run?
  {
  }

  /** The preflight and the write of one frame of the script. */
  method Send(fmt: Format, step: Step, link: Link, f: Frame, sent: seq<Frame>)
    returns (over: bool, ok: bool, more: seq<Frame>)
    requires Sent(sent, step) && 1 <= |sent| < |Script(step)| && f == Script(step)[|sent|]
    ensures over <==> Over(fmt, f)
    ensures more == if over then sent else sent + [f]
    ensures Sent(more, step)
    ensures ok <==> !over && |more| <= link.writable
  {
    if |fmt.enc(f)| + 1 > MAX_LINE {
      return true, false, sent;
    }
    more := sent + [f];
    return false, |more| <= link.writable, more;
  }

  method RunStep(fmt: Format, dec: Decoder, link: Link, step: Step) returns (ran: Ran, sent: seq<Frame>)
    requires dec.fmt == fmt
    modifies dec
    ensures ran.Misuse? <==> !link.stdin || !link.stdout
    ensures ran.Misuse? ==> sent == []
    ensures ran.Finished? ==> Answer(ran.outcome, sent, fmt, step, link, old(dec.rest))
  {
    hide NextHello, Script, Everything, OutcomeOf;
    sent := [];
    if !link.stdin || !link.stdout {
      return Misuse, [];
    }
    ScriptAt(step, 0);
    sent := [HELLO];
    if link.writable < 1 {
      return Finished(Diagnosed(WireCut(EMPTY), link)), sent;
    }
    var g := dec.DecodeHello();
    if g.Shut? {
      return Finished(Diagnosed(WireCut(EMPTY), link)), sent;
    }
    if g.Refused? {
      return Finished(Diagnosed(ProtocolError(EMPTY), link)), sent;
    }
    if !Accepts(step, g.hello) {
      return Finished(Diagnosed(ProtoMismatch(g.hello), link)), sent;
    }
    for i := 0 to |step.files|
      invariant Sent(sent, step) && |sent| == i + 1 <= link.writable && Fits(fmt, step, |sent|)
      invariant dec.rest == NextHello(fmt, old(dec.rest)).1
    {
      ScriptAt(step, i);
      var over, ok, more := Send(fmt, step, link, File(step.files[i].0, step.files[i].1), sent);
      sent := more;
      if !ok {
        return Finished(Diagnosed(if over then UnsentOversize(g.hello) else WireCut(EMPTY).(hello := Some(g.hello)), link)), sent;
      }
    }
    var over, ok, more := Send(fmt, step, link, RunOf(step), sent);
    sent := more;
    if !ok {
      return Finished(Diagnosed(if over then UnsentOversize(g.hello) else WireCut(EMPTY).(hello := Some(g.hello)), link)), sent;
    }
    var core := ReadLoop(dec);
    ran := Finished(Diagnosed(core.(hello := Some(g.hello)), link));
  }

  /** The runner's own stderr is appended once it has closed. */
  function Diagnosed(o: Outcome, link: Link): Outcome
  {
    o.(stderr := o.stderr + link.diagnostics)
  }

  // ---- What every outcome is ----

  /** Either a result frame closed the step, or exactly one failure flag is set and the exit is -1. */
  ghost predicate WellFormed(o: Outcome)
  {
    Flags(o) == 0 || (Flags(o) == 1 && o.exit == -1)
  }

  lemma {:induction false} DrivenIsWellFormed(o: Outcome, fmt: Format, step: Step, link: Link, input: seq<byte>)
    requires Driven(o, fmt, step, link, input)
    ensures WellFormed(o) && !o.protoMismatch && !o.unsentOversize
    ensures
      var frames := Everything(fmt, NextHello(fmt, input).1).0;
      Flags(o) == 0 <==> Body(frames) < |frames| && frames[Body(frames)].Result?
  {
    hide Everything, NextHello, Collected;
  }

  /** The outcomes after which the caller may run the body elsewhere never follow a run frame. */
  lemma {:induction false} NeverRanMeansNoRunFrame(o: Outcome, sent: seq<Frame>, fmt: Format, step: Step, link: Link, input: seq<byte>)
    requires Answer(o, sent, fmt, step, link, input) && (o.protoMismatch || o.unsentOversize)
    ensures NoRun(sent)
  {
    ScriptAt(step, 0);
    hide Script, Everything, NextHello, OutcomeOf;
    if |sent| == |Script(step)| <= link.writable {
      DrivenIsWellFormed(o, fmt, step, link, input);
    }
  }

  /** A greeting of this protocol's runner, at the version that was pinned if one was. */
  predicate Expected(step: Step, h: HelloFrame)
  {
    h.proto == 1 && h.role == "runner" && (step.expectVersion == "" || step.expectVersion == h.version)
  }

  /**
   Files and body are handed over to a runner with the expected greeting and to no other, as the step has them
   and in their order; the outcome is a mismatch exactly if another greeting came, and names the greeting.
   */
  lemma {:induction false} OnlyTheExpectedRunner(o: Outcome, sent: seq<Frame>, fmt: Format, step: Step, link: Link, input: seq<byte>)
    requires Answer(o, sent, fmt, step, link, input)
    ensures
      var g := NextHello(fmt, input).0;
      && (|sent| > 1 ==> g.Ack? && Expected(step, g.hello))
      && o.hello == (if link.writable >= 1 && g.Ack? then Some(g.hello) else None)
      && (o.protoMismatch <==> link.writable >= 1 && g.Ack? && !Expected(step, g.hello))
    ensures forall i :: 0 <= i < |sent| ==> (sent[i] ==
      if i == 0 then Hello(HelloFrame(1, "daemon", ""))
      else if i <= |step.files| then File(step.files[i - 1].0, step.files[i - 1].1)
      else Run(step.program, step.env, step.entrypoint, step.timeoutNS))
  {
    forall i | 0 <= i < |sent| ensures sent[i] == Script(step)[i] {}
    forall i | 0 < i <= |step.files| ensures Script(step)[i] == File(step.files[i - 1].0, step.files[i - 1].1) {
      ScriptAt(step, i - 1);
    }
    ScriptAt(step, 0);
    hide Script, Everything, NextHello, OutcomeOf;
    if |sent| == |Script(step)| <= link.writable {
      DrivenIsWellFormed(o, fmt, step, link, input);
    }
  }

  // ---- Where the loop ends ----

  /** A trace, outputs, or output with an intact payload. */
  predicate InBody(f: Frame)
  {
    f.Trace? || f.Output? || (f.IO? && (f.io.b64 ==> Decode(f.io.data).Some?))
  }

  /**
   The loop ends at the first frame that does not belong in a body: well at a result, whose fields the outcome
   takes, and with a protocol error at any other frame. The end of the stream is a cut, and noise is a protocol error.
   */
  lemma {:induction false} EndsAtFirst(o: Outcome, frames: seq<Frame>, end: Item, n: nat)
    requires OutcomeOf(o, frames, end)
    requires n <= |frames| && (forall i :: 0 <= i < n ==> InBody(frames[i])) && (n < |frames| ==> !InBody(frames[n]))
    ensures
      if n < |frames| && frames[n].Result? then
        && o.exit == frames[n].exit && o.wallNS == frames[n].wallNS && o.error == frames[n].error
        && !o.wireCut && !o.protocolError
      else o.exit == -1 && (o.wireCut <==> n == |frames| && end.Closed?) && (o.protocolError <==> !o.wireCut)
    ensures !o.protoMismatch && !o.unsentOversize
  {
    BodyIs(frames[..n], frames[n..]);
    assert frames[..n] + frames[n..] == frames;
    hide Collected;
  }

  // ---- Outputs ----

  /** The outcome's value of a key is that of the last output frame that has it; there are none without a frame. */
  lemma {:induction false} LastOutputWins(frames: seq<Frame>, key: string, k: nat)
    requires k < |frames| && frames[k].Output? && key in frames[k].values
    requires forall j :: k < j < |frames| && frames[j].Output? ==> key !in frames[j].values
    ensures Outputs(frames).Some? && key in Outputs(frames).value && Outputs(frames).value[key] == frames[k].values[key]
  {
    var n := |frames| - 1;
    if k < n {
      LastOutputWins(frames[..n], key, k);
    }
  }

  lemma {:induction false} OutputsComeFromFrames(frames: seq<Frame>, key: string)
    ensures Outputs(frames).Some? <==> exists k :: 0 <= k < |frames| && frames[k].Output?
    ensures Outputs(frames).Some? && key in Outputs(frames).value ==>
      exists k :: 0 <= k < |frames| && frames[k].Output? && key in frames[k].values
  {
    if frames != [] {
      var n := |frames| - 1;
      OutputsComeFromFrames(frames[..n], key);
      assert forall k :: 0 <= k < n ==> frames[..n][k] == frames[k];
    }
  }
}
