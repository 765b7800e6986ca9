/**
 Everything that writes to the runner's stdout while a body runs: writes to the two descriptors, each cut
 into chunks, and the tracer. They share the encoder, whose lock is held for one frame at a time, so that
 one action is one frame and every interleaving is a run.
 */
module Writers {
  import opened Bytes
  import opened Frames
  import opened Wire
  import T = Tracing
  import C = Client
  import opened EndToEnd

  /**
   One descriptor: the bytes its writers were asked to write, those that are on the stream, the chunks
   that each write in progress has yet to send, and whether two writes to it have ever overlapped.
   */
  datatype Desc = Desc(asked: seq<byte>, landed: seq<byte>, calls: seq<seq<seq<byte>>>, overlapped: bool)

  datatype State = State(stdout: Desc, stderr: Desc, tracer: T.Tracer, sent: seq<Frame>)

  const IDLE := Desc([], [], [], false)

  function Init(): State
  {
    State(IDLE, IDLE, T.Tracer([], []), [])
  }

  function DescOf(s: State, err: bool): Desc
  {
    if err then s.stderr else s.stdout
  }

  function Fd(err: bool): int
  {
    if err then 2 else 1
  }

  function With(s: State, err: bool, d: Desc): State
  {
    if err then s.(stderr := d) else s.(stdout := d)
  }

  // ---- Actions ----

  /** `k` counts the writes in progress on a descriptor, oldest first. */
  datatype Act =
    | Write(err: bool, parts: seq<seq<byte>>)
    | SendChunk(err: bool, k: nat)
    | Return(err: bool, k: nat)
    | Report(t: T.Act)
    | Declare(values: map<string, string>)

  predicate Sized(parts: seq<seq<byte>>)
  {
    forall i :: 0 <= i < |parts| ==> 0 < |parts[i]| <= MAX_IO_CHUNK
  }

  predicate Enabled(s: State, a: Act)
  {
    match a
    case Write(_, parts) => Sized(parts)
    case SendChunk(err, k) => k < |DescOf(s, err).calls| && DescOf(s, err).calls[k] != []
    case Return(err, k) => k < |DescOf(s, err).calls| && DescOf(s, err).calls[k] == []
    case Report(t) => T.Enabled(s.tracer, t)
    case Declare(_) => true
  }

  /** A write begins: it has cut its bytes into `parts`. */
  ghost function Begun(d: Desc, parts: seq<seq<byte>>): Desc
  {
    Desc(d.asked + Join(parts), d.landed, d.calls + [parts], d.overlapped || d.calls != [])
  }

  function Sent(d: Desc, k: nat): Desc
    requires k < |d.calls| && d.calls[k] != []
  {
    d.(landed := d.landed + d.calls[k][0], calls := d.calls[k := d.calls[k][1..]])
  }

  function Returned(d: Desc, k: nat): Desc
    requires k < |d.calls|
  {
    d.(calls := d.calls[..k] + d.calls[k + 1..])
  }

  /** The trace frame of a tracer's move, if it sends one. */
  function Reported(before: T.Tracer, after: T.Tracer): seq<Frame>
  {
    if |after.ev| > |before.ev| then [Trace(after.ev[|after.ev| - 1])] else []
  }

  ghost function Next(s: State, a: Act): State
    requires Enabled(s, a)
  {
    match a
    case Write(err, parts) => With(s, err, Begun(DescOf(s, err), parts))
    case SendChunk(err, k) =>
      With(s, err, Sent(DescOf(s, err), k)).(sent := s.sent + [IO(EncodeIOChunk(Fd(err), DescOf(s, err).calls[k][0]))])
    case Return(err, k) => With(s, err, Returned(DescOf(s, err), k))
    case Report(t) =>
      var after := T.Next(s.tracer, t);
      s.(tracer := after, sent := s.sent + Reported(s.tracer, after))
    case Declare(values) => s.(sent := s.sent + [Output(values)])
  }

  ghost predicate IsRun(s: State, acts: seq<Act>)
    decreases |acts|
  {
    acts == [] || (Enabled(s, acts[0]) && IsRun(Next(s, acts[0]), acts[1..]))
  }

  ghost function After(s: State, acts: seq<Act>): State
    requires IsRun(s, acts)
    decreases |acts|
  {
    if acts == [] then s else After(Next(s, acts[0]), acts[1..])
  }

  // ---- What every run keeps ----

  ghost function Rest(calls: seq<seq<seq<byte>>>): seq<byte>
  {
    if calls == [] then [] else Join(calls[0]) + Rest(calls[1..])
  }

  /** Nothing is lost or made up; and where writes do not overlap, nothing changes its place. */
  ghost predicate Accounted(d: Desc)
  {
    && (forall k :: 0 <= k < |d.calls| ==> Sized(d.calls[k]))
    && multiset(d.landed) + multiset(Rest(d.calls)) == multiset(d.asked)
    && (!d.overlapped ==> |d.calls| <= 1 && d.landed + Rest(d.calls) == d.asked)
  }

  /** The descriptor's frames are the chunks of what has landed. */
  ghost predicate Framed(s: State, err: bool)
  {
    Chunks(Fd(err), IoOf(s.sent, Fd(err)), DescOf(s, err).landed)
  }

  ghost predicate Kinds(sent: seq<Frame>)
  {
    && TwoDescriptors(sent)
    && forall i :: 0 <= i < |sent| ==> sent[i].IO? || sent[i].Trace? || sent[i].Output?
  }

  ghost predicate Inv(s: State)
  {
    && Kinds(s.sent)
    && (forall err :: Accounted(DescOf(s, err)) && Framed(s, err))
    && C.Traces(s.sent) == s.tracer.ev && T.Consistent(s.tracer)
  }

  lemma {:induction false} RestJoin(a: seq<seq<seq<byte>>>, b: seq<seq<seq<byte>>>)
    ensures Rest(a + b) == Rest(a) + Rest(b)
    decreases |a|
  {
    if a == [] {
      assert a + b == b;
    } else {
      assert (a + b)[1..] == a[1..] + b;
      RestJoin(a[1..], b);
    }
  }

  lemma RestOne(parts: seq<seq<byte>>)
    ensures Rest([parts]) == Join(parts)
  {
    assert [parts][1..] == [];
  }

  lemma RestAt(calls: seq<seq<seq<byte>>>, k: nat)
    requires k < |calls|
    ensures Rest(calls) == Rest(calls[..k]) + (Join(calls[k]) + Rest(calls[k + 1..]))
  {
    hide Rest, Join;
    assert calls == calls[..k] + calls[k..];
    RestJoin(calls[..k], calls[k..]);
    assert calls[k..] == [calls[k]] + calls[k + 1..];
    RestJoin([calls[k]], calls[k + 1..]);
    RestOne(calls[k]);
  }

  lemma AddsPart(landed: seq<byte>, rest: seq<byte>, asked: seq<byte>, more: seq<byte>)
    requires multiset(landed) + multiset(rest) == multiset(asked)
    ensures multiset(landed) + multiset(rest + more) == multiset(asked + more)
    ensures landed + rest == asked ==> landed + (rest + more) == asked + more
  {
  }

  lemma BegunKeeps(d: Desc, parts: seq<seq<byte>>)
    requires Accounted(d) && Sized(parts)
    ensures Accounted(Begun(d, parts))
  {
    hide Rest, Join, Sized;
    RestJoin(d.calls, [parts]);
    RestOne(parts);
    AddsPart(d.landed, Rest(d.calls), d.asked, Join(parts));
    var t := Begun(d, parts);
    assert Rest(t.calls) == Rest(d.calls) + Join(parts);
    forall k | 0 <= k < |t.calls| ensures Sized(t.calls[k]) {
      assert k < |d.calls| ==> t.calls[k] == d.calls[k];
    }
  }

  /** Sending a part takes it from the front of its call's rest to the end of what has landed. */
  lemma MovesPart(landed: seq<byte>, part: seq<byte>, before: seq<byte>, later: seq<byte>, after: seq<byte>)
    ensures multiset(landed + part) + multiset(before + (later + after)) == multiset(landed) + multiset(before + ((part + later) + after))
    ensures before == [] ==> (landed + part) + (before + (later + after)) == landed + (before + ((part + later) + after))
  {
  }

  lemma SentSized(d: Desc, k: nat)
    requires k < |d.calls| && d.calls[k] != [] && (forall j :: 0 <= j < |d.calls| ==> Sized(d.calls[j]))
    ensures forall j :: 0 <= j < |Sent(d, k).calls| ==> Sized(Sent(d, k).calls[j])
  {
    forall j | 0 <= j < |Sent(d, k).calls| ensures Sized(Sent(d, k).calls[j]) {
      assert Sized(d.calls[j]);
    }
  }

  lemma SentKeeps(d: Desc, k: nat)
    requires Accounted(d) && k < |d.calls| && d.calls[k] != []
    ensures Accounted(Sent(d, k))
  {
    var part, later := d.calls[k][0], d.calls[k][1..];
    var t := Sent(d, k);
    SentSized(d, k);
    RestAt(d.calls, k);
    RestAt(t.calls, k);
    assert t.calls[..k] == d.calls[..k] && t.calls[k + 1..] == d.calls[k + 1..] && t.calls[k] == later;
    assert Join(d.calls[k]) == part + Join(later);
    MovesPart(d.landed, part, Rest(d.calls[..k]), Join(later), Rest(d.calls[k + 1..]));
    hide Rest, Join, Sized;
    if !d.overlapped {
      assert k == 0 && d.calls[..0] == [];
      NothingRests();
    }
  }

  lemma NothingRests()
    ensures Rest([]) == []
  {
  }

  lemma RestWithout(calls: seq<seq<seq<byte>>>, k: nat)
    requires k < |calls| && Join(calls[k]) == []
    ensures Rest(calls[..k] + calls[k + 1..]) == Rest(calls)
  {
    hide Rest, Join;
    RestAt(calls, k);
    RestJoin(calls[..k], calls[k + 1..]);
    assert [] + Rest(calls[k + 1..]) == Rest(calls[k + 1..]);
  }

  lemma ReturnedKeeps(d: Desc, k: nat)
    requires Accounted(d) && k < |d.calls| && d.calls[k] == []
    ensures Accounted(Returned(d, k))
  {
    assert Join(d.calls[k]) == [];
    RestWithout(d.calls, k);
    hide Rest, Join, Sized;
  }

  lemma {:induction false} IoOfSnoc(sent: seq<Frame>, f: Frame, fd: int)
    ensures IoOf(sent + [f], fd) == if f.IO? && f.io.fd == fd then IoOf(sent, fd) + [f.io] else IoOf(sent, fd)
  {
    assert (sent + [f])[..|sent|] == sent;
    assert IoOf(sent, fd) + [] == IoOf(sent, fd);
  }

  /** A frame of no io changes neither descriptor's frames. */
  lemma OtherFrame(s: State, t: State, f: Frame)
    requires Inv(s) && !f.IO? && t.sent == s.sent + [f] && t.stdout == s.stdout && t.stderr == s.stderr
    ensures forall err :: Framed(t, err)
  {
    forall err ensures Framed(t, err) {
      assert Framed(s, err);
      IoOfSnoc(s.sent, f, Fd(err));
    }
  }

  lemma ChunkFrame(s: State, err: bool, k: nat)
    requires Inv(s) && Enabled(s, SendChunk(err, k))
    ensures forall e :: Framed(Next(s, SendChunk(err, k)), e)
  {
    hide Chunks, EncodeIOChunk, IoOf, Accounted;
    var part := DescOf(s, err).calls[k][0];
    var io := EncodeIOChunk(Fd(err), part);
    ChunkDescriptor(Fd(err), part);
    forall e ensures Framed(Next(s, SendChunk(err, k)), e) {
      assert Framed(s, e);
      IoOfSnoc(s.sent, IO(io), Fd(e));
      if e == err {
        OneChunk(Fd(err), part) by { assert Accounted(DescOf(s, err)); PartIsSized(DescOf(s, err), k); }
        ChunksAppend(Fd(err), IoOf(s.sent, Fd(err)), DescOf(s, err).landed, [io], part);
      }
    }
  }

  lemma PartIsSized(d: Desc, k: nat)
    requires Accounted(d) && k < |d.calls| && d.calls[k] != []
    ensures 0 < |d.calls[k][0]| <= MAX_IO_CHUNK
  {
    assert Sized(d.calls[k]);
  }

  lemma OneChunk(fd: int, part: seq<byte>)
    requires 0 < |part| <= MAX_IO_CHUNK
    ensures Chunks(fd, [EncodeIOChunk(fd, part)], part)
  {
    assert [part][1..] == [] && Join([part]) == part;
    assert ChunkedBy(fd, [EncodeIOChunk(fd, part)], part, [part]);
  }

  lemma AccountedNext(s: State, a: Act, err: bool)
    requires Inv(s) && Enabled(s, a)
    ensures Accounted(DescOf(Next(s, a), err))
  {
    assert Accounted(DescOf(s, err));
    hide Accounted;
    match a {
      case Write(e, parts) => if e == err { BegunKeeps(DescOf(s, e), parts); }
      case SendChunk(e, k) => if e == err { SentKeeps(DescOf(s, e), k); }
      case Return(e, k) => if e == err { ReturnedKeeps(DescOf(s, e), k); }
      case Report(_) =>
      case Declare(_) =>
    }
  }

  lemma FramedNext(s: State, a: Act, err: bool)
    requires Inv(s) && Enabled(s, a)
    ensures Framed(Next(s, a), err)
  {
    assert Framed(s, err);
    var t := Next(s, a);
    match a {
      case Write(_, _) =>
      case SendChunk(e, k) => ChunkFrame(s, e, k);
      case Return(_, _) =>
      case Report(r) =>
        if t.sent != s.sent {
          OtherFrame(s, t, t.sent[|s.sent|]);
        }
      case Declare(values) => OtherFrame(s, t, Output(values));
    }
  }

  lemma SendsKind(sent: seq<Frame>, f: Frame)
    requires Kinds(sent) && (f.Trace? || f.Output? || (f.IO? && (f.io.fd == 1 || f.io.fd == 2)))
    ensures Kinds(sent + [f])
    ensures C.Traces(sent + [f]) == if f.Trace? then C.Traces(sent) + [f.trace] else C.Traces(sent)
  {
    C.Snoc(sent, f);
    assert C.Traces(sent) + [] == C.Traces(sent);
  }

  lemma TracerSends(before: T.Tracer, t: T.Act)
    requires T.Enabled(before, t)
    ensures
      var after := T.Next(before, t);
      after.ev == before.ev || (after.ev != [] && after.ev == before.ev + [after.ev[|after.ev| - 1]])
  {
  }

  lemma ReportsTrace(s: State, t: T.Act)
    requires Inv(s) && T.Enabled(s.tracer, t)
    ensures
      var n := Next(s, Report(t));
      Kinds(n.sent) && C.Traces(n.sent) == n.tracer.ev && T.Consistent(n.tracer)
  {
    hide T.Consistent, T.Enabled, Kinds, C.Traces, Framed, Accounted;
    T.ConsistentStep(s.tracer, t);
    var after := T.Next(s.tracer, t);
    if |after.ev| > |s.tracer.ev| {
      var f := after.ev[|after.ev| - 1];
      SendsKind(s.sent, Trace(f));
      assert after.ev == s.tracer.ev + [f] by { TracerSends(s.tracer, t); }
    } else {
      assert after.ev == s.tracer.ev by { TracerSends(s.tracer, t); }
      assert s.sent + [] == s.sent;
    }
  }

  lemma TracesNext(s: State, a: Act)
    requires Inv(s) && Enabled(s, a)
    ensures Kinds(Next(s, a).sent)
    ensures C.Traces(Next(s, a).sent) == Next(s, a).tracer.ev && T.Consistent(Next(s, a).tracer)
  {
    hide T.Consistent, Framed, Accounted, C.Traces, EncodeIOChunk, T.Enabled, Kinds;
    match a {
      case Write(_, _) =>
      case SendChunk(err, k) =>
        var part := DescOf(s, err).calls[k][0];
        ChunkDescriptor(Fd(err), part);
        SendsKind(s.sent, IO(EncodeIOChunk(Fd(err), part)));
      case Return(_, _) =>
      case Report(t) => ReportsTrace(s, t);
      case Declare(values) => SendsKind(s.sent, Output(values));
    }
  }

  lemma InvNext(s: State, a: Act)
    requires Inv(s) && Enabled(s, a)
    ensures Inv(Next(s, a))
  {
    TracesNext(s, a);
    forall err ensures Accounted(DescOf(Next(s, a), err)) && Framed(Next(s, a), err) {
      AccountedNext(s, a, err);
      FramedNext(s, a, err);
    }
    hide Next, Enabled, Accounted, Framed, T.Consistent, C.Traces, Kinds;
  }

  lemma {:induction false} InvAfter(s: State, acts: seq<Act>)
    requires Inv(s) && IsRun(s, acts)
    ensures Inv(After(s, acts))
    decreases |acts|
  {
    hide Inv, Next, Enabled;
    if acts != [] {
      InvNext(s, acts[0]);
      InvAfter(Next(s, acts[0]), acts[1..]);
    }
  }

  lemma IdleKeeps(err: bool)
    ensures Accounted(DescOf(Init(), err)) && Framed(Init(), err)
  {
    assert Rest([]) == [];
    assert Join([]) == [] && IoOf([], Fd(err)) == [];
    assert ChunkedBy(Fd(err), [], [], []);
  }

  lemma InitInv()
    ensures Inv(Init())
  {
    forall err ensures Accounted(DescOf(Init(), err)) && Framed(Init(), err) {
      IdleKeeps(err);
    }
    hide Accounted, Framed;
  }

  // ---- Theorems ----

  lemma InvIsStep(fmt: Format, s: State)
    requires Inv(s) && (forall f :: f in s.sent && !Modelled(f) ==> Reads(fmt, f))
    ensures StepFrames(fmt, s.sent, s.stdout.landed, s.stderr.landed)
  {
    hide Chunks, IoOf, Reads, Modelled, T.Consistent, C.Traces, Accounted;
    assert Framed(s, false) && Framed(s, true);
    assert Fd(false) == 1 && Fd(true) == 2;
  }

  /**
   After any run the frames on the stream are a step's: trace and output frames, and for each descriptor
   the chunks of what has landed, in order.
   */
  lemma {:induction false} RunsSendStepFrames(fmt: Format, acts: seq<Act>)
    requires IsRun(Init(), acts)
    requires forall f :: f in After(Init(), acts).sent && !Modelled(f) ==> Reads(fmt, f)
    ensures
      var s := After(Init(), acts);
      StepFrames(fmt, s.sent, s.stdout.landed, s.stderr.landed)
  {
    hide *;
    InitInv();
    InvAfter(Init(), acts);
    InvIsStep(fmt, After(Init(), acts));
  }

  /**
   What has landed on a descriptor is what it was asked to write: byte for byte, but for what unfinished
   writes have yet to send; and, if no two writes to it overlapped, in the very order of the writes.
   */
  lemma {:induction false} LandedIsWritten(acts: seq<Act>, err: bool)
    requires IsRun(Init(), acts)
    ensures
      var d := DescOf(After(Init(), acts), err);
      && multiset(d.landed) <= multiset(d.asked)
      && (d.calls == [] ==> multiset(d.landed) == multiset(d.asked))
      && (!d.overlapped ==> d.landed <= d.asked && (d.calls == [] ==> d.landed == d.asked))
  {
    InitInv();
    InvAfter(Init(), acts);
    var d := DescOf(After(Init(), acts), err);
    assert Accounted(d);
    NothingRests();
    hide Rest, After, IsRun;
  }

  /** Arriving leaves numbers and order alone. */
  lemma ArrivalKeepsPairs(ev: seq<TraceFrame>)
    requires T.WellPaired(ev)
    ensures T.WellPaired(TracesArrive(ev))
  {
    var there := TracesArrive(ev);
    forall m | 0 <= m < |there| && there[m].CmdEnd? ensures T.StartedBefore(there, m, there[m].number) {
      assert T.StartedBefore(ev, m, ev[m].number);
      var j :| 0 <= j < m && ev[j].CmdStart? && ev[j].number == ev[m].number;
      assert there[j].CmdStart?;
    }
  }

  /** What the client makes of the step: the frames of a run, and its result. */
  ghost predicate ClientSees(fmt: Format, s: State, result: Frame, o: C.Outcome)
  {
    var all := Everything(fmt, Lines(fmt, s.sent + [result]));
    C.OutcomeOf(o, all.0, all.1)
  }

  /**
   From the writers to the outcome, whatever the interleaving. If no line is over the limit, the client's
   stdout and stderr are what landed, so that they are the concatenations of the writes where those did not
   overlap; its trace has one line for every start of the runner's tracer, and its exit is the result's. If
   one is, and only then, the outcome is a protocol error that holds what came before it.
   */
  lemma {:induction false} WritesReachTheOutcome(fmt: Format, acts: seq<Act>, result: Frame, o: C.Outcome)
    requires IsJson(fmt) && IsRun(Init(), acts) && result.Result? && Reads(fmt, result)
    requires forall f :: f in After(Init(), acts).sent && !Modelled(f) ==> Reads(fmt, f)
    requires ClientSees(fmt, After(Init(), acts), result, o)
    ensures C.Flags(o) == 0 <==> forall f :: f in After(Init(), acts).sent + [result] ==> !Over(fmt, f)
    ensures
      var s := After(Init(), acts);
      C.Flags(o) == 0 ==>
        && o.exit == result.exit && o.stdout == s.stdout.landed && o.stderr == s.stderr.landed
        && (!s.stdout.overlapped && s.stdout.calls == [] ==> o.stdout == s.stdout.asked)
        && (!s.stderr.overlapped && s.stderr.calls == [] ==> o.stderr == s.stderr.asked)
        && T.TraceIs(o.trace, TracesArrive(s.tracer.ev)) && T.WellPaired(TracesArrive(s.tracer.ev))
    ensures
      var s := After(Init(), acts);
      var k := FirstOver(fmt, s.sent + [result]);
      C.Flags(o) != 0 ==>
        && k <= |s.sent| && o.exit == -1 && o.protocolError && C.Flags(o) == 1
        && Holds(o, s.sent[..k]) && o.stdout <= s.stdout.landed && o.stderr <= s.stderr.landed
  {
    hide IsJson, Everything, Lines, C.OutcomeOf, Reads, Modelled, Over, StepFrames, IsRun, After, C.Traces, C.Shown, C.Outputs;
    var s := After(Init(), acts);
    RunsSendStepFrames(fmt, acts);
    OutputSurvives(fmt, s.sent, result, s.stdout.landed, s.stderr.landed, o);
    LandedIsWritten(acts, false);
    LandedIsWritten(acts, true);
    InitInv();
    InvAfter(Init(), acts);
    ArrivalKeepsPairs(s.tracer.ev);
  }

  // ---- Such a line happens ----

  const ECHO: seq<byte> := [0x65, 0x63, 0x68, 0x6F]

  /** The chunks of a write. */
  function Parts(data: seq<byte>): seq<seq<byte>>
  {
    if data == [] then []
    else if |data| <= MAX_IO_CHUNK then [data]
    else [data[..MAX_IO_CHUNK]] + Parts(data[MAX_IO_CHUNK..])
  }

  lemma {:induction false} PartsJoin(data: seq<byte>)
    ensures Sized(Parts(data)) && Join(Parts(data)) == data
  {
    if |data| > MAX_IO_CHUNK {
      PartsJoin(data[MAX_IO_CHUNK..]);
      assert Parts(data)[1..] == Parts(data[MAX_IO_CHUNK..]);
    } else if data != [] {
      assert Parts(data)[1..] == [];
    }
  }

  lemma Prepend(s: State, a: Act, acts: seq<Act>)
    requires Enabled(s, a) && IsRun(Next(s, a), acts)
    ensures IsRun(s, [a] + acts) && After(s, [a] + acts) == After(Next(s, a), acts)
  {
    assert ([a] + acts)[1..] == acts;
  }

  /** The one write in progress on stdout sends what it has left, and returns. */
  lemma {:induction false} Drain(s: State) returns (acts: seq<Act>)
    requires |s.stdout.calls| == 1
    ensures IsRun(s, acts)
    ensures
      var t := After(s, acts);
      && t.stdout == s.stdout.(landed := s.stdout.landed + Join(s.stdout.calls[0]), calls := [])
      && s.sent <= t.sent && (forall f :: f in t.sent[|s.sent|..] ==> Modelled(f))
    decreases |s.stdout.calls[0]|
  {
    hide EncodeIOChunk;
    if s.stdout.calls[0] == [] {
      var a := Return(false, 0);
      acts := [a];
      assert acts[1..] == [] && s.stdout.landed + [] == s.stdout.landed;
    } else {
      var a := SendChunk(false, 0);
      var part := s.stdout.calls[0][0];
      var n := Next(s, a);
      ChunkDescriptor(1, part);
      assert n.stdout.calls == [s.stdout.calls[0][1..]];
      assert Modelled(n.sent[|s.sent|]);
      var rest := Drain(n);
      Prepend(s, a, rest);
      acts := [a] + rest;
      assert s.stdout.landed + part + Join(s.stdout.calls[0][1..]) == s.stdout.landed + (part + Join(s.stdout.calls[0][1..]));
      var t := After(s, acts);
      forall f | f in t.sent[|s.sent|..] ensures Modelled(f) {
        assert f == n.sent[|s.sent|] || f in t.sent[|n.sent|..];
      }
    }
  }

  /** The run of `echo x`: its start is reported, then its output is written. */
  lemma EchoRuns(x: seq<byte>) returns (acts: seq<Act>)
    ensures IsRun(Init(), acts)
    ensures
      var s := After(Init(), acts);
      && s.stdout.landed == x + [NL] == s.stdout.asked
      && s.sent != [] && s.sent[0] == Trace(CmdStart(1, [ECHO, x], 1))
      && forall f :: f in s.sent ==> Modelled(f)
  {
    hide EncodeIOChunk, Join, Sized;
    var a0, a1, a2 := Report(T.Number(false)), Report(T.Start(0, [ECHO, x], 1)), Write(false, Parts(x + [NL]));
    PartsJoin(x + [NL]);
    var s1 := Next(Init(), a0);
    var s2 := Next(s1, a1);
    assert s2.sent == [Trace(CmdStart(1, [ECHO, x], 1))];
    var s3 := Next(s2, a2);
    var rest := Drain(s3);
    Prepend(s2, a2, rest);
    Prepend(s1, a1, [a2] + rest);
    Prepend(Init(), a0, [a1] + ([a2] + rest));
    acts := [a0] + ([a1] + ([a2] + rest));
    var s := After(Init(), acts);
    assert s.sent == s3.sent + s.sent[|s3.sent|..];
  }

  /**
   A step that echoes an argument of a line's size or more writes every byte of it, in chunks that fit; but
   the line that reports the command does not, and the client ends with a protocol error and no output at all.
   */
  lemma {:induction false} LongArgumentLosesOutput(fmt: Format, x: seq<byte>, result: Frame) returns (acts: seq<Act>)
    requires IsJson(fmt) && result.Result? && Reads(fmt, result) && |x| >= MAX_LINE
    ensures IsRun(Init(), acts) && After(Init(), acts).stdout.landed == x + [NL]
    ensures forall o :: ClientSees(fmt, After(Init(), acts), result, o) ==>
      o.exit == -1 && o.protocolError && o.stdout == [] && o.stderr == [] && o.trace == []
  {
    hide IsJson, Reads, Over, IsRun, After, ClientSees, Modelled;
    acts := EchoRuns(x);
    var s := After(Init(), acts);
    StartIsOver(fmt, 1, [ECHO, x], 1);
    assert [ECHO, x][1..] == [x] && [x][1..] == [];
    assert (s.sent + [result])[0] == s.sent[0];
    forall o | ClientSees(fmt, s, result, o)
      ensures o.exit == -1 && o.protocolError && o.stdout == [] && o.stderr == [] && o.trace == []
    {
      WritesReachTheOutcome(fmt, acts, result, o);
      assert s.sent[0] in s.sent + [result];
      C.Nothing();
    }
  }
}
