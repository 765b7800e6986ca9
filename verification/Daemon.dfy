/**
 The daemon's end of a connection is `Client.RunStep`: the plan that a step makes, and what the ends of a
 connection that follows it are, in terms of what RunStep hands over and reports.
 */
module Daemon {
  import R = Runner
  import P = Protocol
  import W = Wire
  import C = Client
  import B = Bytes

  /** `input` is everything the daemon will read; `body` is what the runner makes of the step's program. */
  datatype Job = Job(fmt: W.Format, step: C.Step, link: C.Link, input: seq<B.byte>, body: R.Body)

  /** What a frame of the daemon is to the runner. */
  function Shape(f: W.Frame, body: R.Body): R.Frame
  {
    match f
    case Hello(_) => R.Hello
    case Run(_, _, _, _) => R.Run(body)
    case File(_, _) => R.File
    case Signal(_) => R.Signal
    case _ => R.Foreign
  }

  predicate Welcome(job: Job)
  {
    var g := W.NextHello(job.fmt, job.input).0;
    g.Ack? && C.Accepts(job.step, g.hello)
  }

  /** The outcomes after which the caller runs the body elsewhere. */
  predicate NeverRan(o: C.Outcome)
  {
    o.protoMismatch || o.unsentOversize
  }

  function Failure(job: Job, n: nat): C.Outcome
  {
    C.FailureOf(n, job.fmt, job.step, job.link, job.input)
  }

  function PlanOf(job: Job): P.Plan
  {
    var script := C.Script(job.step);
    P.Plan(
      seq(|script|, i requires 0 <= i < |script| => Shape(script[i], job.body)),
      (n: nat) => n < |script| && W.Over(job.fmt, script[n]),
      job.link.writable,
      Welcome(job),
      (n: nat) => NeverRan(Failure(job, n)))
  }

  /** The outcome of the daemon at the end of its connection: the failure of stopping there, or that of the read loop. */
  ghost predicate Reports(c: P.Conn, job: Job, o: C.Outcome)
  {
    match c.ended
    case None => false
    case Some(Stopped) => o == Failure(job, c.sent)
    case Some(Answered) => C.Driven(o, job.fmt, job.step, job.link, job.input)
  }

  lemma PlanIsSound(job: Job)
    ensures P.Sound(PlanOf(job))
  {
    var script := C.Script(job.step);
    C.ScriptAt(job.step, 0);
    forall i | 0 <= i < |script| ensures script[i].Run? <==> i == |script| - 1 {}
    forall i | 0 < i < |script| ensures script[i].Run? || script[i].File? {
      C.ScriptAt(job.step, i - 1);
    }
    hide C.Script, W.Over, W.NextHello;
  }

  /** To the runner the script of a step is a hello, a file for each of its files, and its body. */
  lemma {:induction false} ShapesAre(job: Job, i: nat)
    requires i < |job.step.files| + 2
    ensures |PlanOf(job).shapes| == |job.step.files| + 2
    ensures PlanOf(job).shapes[i] == if i == 0 then R.Hello else if i <= |job.step.files| then R.File else R.Run(job.body)
  {
    C.ScriptAt(job.step, if i > 0 then i - 1 else 0);
    hide C.Script;
  }

  /** Whatever a connection goes through, its daemon hands over and reports what RunStep does; and it falls back exactly where that says so. */
  lemma {:induction false} EndsAsRunStep(c: P.Conn, job: Job, o: C.Outcome)
    requires P.Reachable(c) && c.plan == PlanOf(job) && Reports(c, job, o)
    ensures c.sent <= |C.Script(job.step)|
    ensures C.Answer(o, C.Script(job.step)[..c.sent], job.fmt, job.step, job.link, job.input)
    ensures P.FellBack(c) <==> NeverRan(o)
  {
    hide P.Reachable, C.Script, C.FailureOf, C.Failed, W.NextHello, W.Over, C.Driven;
    PlanIsSound(job);
    P.EndsByPlan(c);
    hide P.Sound;
    var sent := C.Script(job.step)[..c.sent];
    forall i | 1 <= i < c.sent ensures !W.Over(job.fmt, C.Script(job.step)[i]) {
      assert !c.plan.over(i);
    }
    assert C.Sent(sent, job.step) && C.Fits(job.fmt, job.step, |sent|);
    if c.ended.value.Stopped? {
      C.StoppedIsFailed(sent, job.fmt, job.step, job.link, job.input);
    } else {
      C.DrivenIsWellFormed(o, job.fmt, job.step, job.link, job.input);
    }
  }

  /** Conversely, every answer that RunStep can give is that of some connection. */
  lemma {:induction false} RunStepIsAnEnd(job: Job, o: C.Outcome, sent: seq<W.Frame>) returns (c: P.Conn)
    requires C.Answer(o, sent, job.fmt, job.step, job.link, job.input)
    ensures P.Reachable(c) && c.plan == PlanOf(job) && Reports(c, job, o)
    ensures c.sent <= |C.Script(job.step)| && sent == C.Script(job.step)[..c.sent]
  {
    var plan, n := PlanOf(job), |sent|;
    C.ScriptAt(job.step, 0);
    hide P.Reachable, C.Script, C.FailureOf, C.Failed, W.Over;
    if n == |C.Script(job.step)| <= job.link.writable {
      assert Welcome(job);
      c := P.Concluded(plan);
    } else {
      c := P.StoppedShort(plan, n);
    }
  }

  // ---- A cut behind the start of the body ----

  const RUNNER := W.HelloFrame(C.PROTO, "runner", "")

  /** A step whose answer is the runner's hello and then the end of the stream. */
  ghost function DemoJob(): Job
  {
    Job(
      W.Format((f: W.Frame) => [0x78], (s: seq<B.byte>) => B.Some(W.Hello(RUNNER)), (s: seq<B.byte>) => false),
      C.Step([], map[], "", 0, "", []), C.Link(true, true, 2, []), [0x78, W.NL], R.PLAIN)
  }

  lemma DemoGreets()
    ensures W.NextHello(DemoJob().fmt, DemoJob().input) == (W.Ack(RUNNER), []) && Welcome(DemoJob())
  {
    var s := DemoJob().input;
    assert s[1..] == [W.NL] && W.LineEnd(s[1..]) == 0 && W.LineEnd(s) == 1;
    assert s[..1] == [0x78] && s[2..] == [];
  }

  lemma DemoOutcome() returns (o: C.Outcome)
    ensures o.wireCut && C.Driven(o, DemoJob().fmt, DemoJob().step, DemoJob().link, DemoJob().input)
  {
    DemoGreets();
    var core := C.WireCut(C.EMPTY);
    C.Nothing();
    W.ReadsEnd(DemoJob().fmt);
    assert C.Body([]) == 0;
    assert C.Collected(core, []);
    assert C.OutcomeOf(core, [], W.Closed);
    o := core.(hello := B.Some(RUNNER), stderr := core.stderr + []);
  }

  lemma DemoIsPlain()
    ensures P.Plain(PlanOf(DemoJob()))
  {
    DemoGreets();
    C.ScriptAt(DemoJob().step, 0);
    hide W.NextHello, C.Script;
    assert PlanOf(DemoJob()).shapes == [R.Hello, R.Run(R.PLAIN)];
  }

  /** Why a wire cut is not retried: the body has started, and the daemon reports a cut. */
  lemma {:induction false} CutAfterTheStart() returns (c: P.Conn, o: C.Outcome)
    ensures P.Reachable(c) && c.plan == PlanOf(DemoJob()) && Reports(c, DemoJob(), o)
    ensures o.wireCut && !NeverRan(o) && c.starts == 1
  {
    hide C.Driven, P.Reachable, PlanOf, DemoJob, P.Plain;
    DemoIsPlain();
    o := DemoOutcome();
    C.DrivenIsWellFormed(o, DemoJob().fmt, DemoJob().step, DemoJob().link, DemoJob().input);
    c := P.CutAfterTheStart(PlanOf(DemoJob()));
  }
}
