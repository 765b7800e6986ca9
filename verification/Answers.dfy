/**
 From the runner's end of a connection to the daemon's report: what the runner answered is what the client
 returns, and a signal that reaches a step in time comes back as exit 137.
 */
module Answers {
  import R = Runner
  import RP = RunnerProofs
  import P = Protocol
  import S = Supervisor
  import D = Daemon
  import W = Writers
  import C = Client
  import opened Bytes
  import opened Wire

  /** What the daemon reads is a runner's hello, then what its writers sent in some run, then the result. */
  ghost predicate Hears(job: D.Job, h: HelloFrame, writes: seq<W.Act>, result: Frame)
  {
    && IsJson(job.fmt) && C.Accepts(job.step, h) && Reads(job.fmt, Hello(h)) && !Over(job.fmt, Hello(h))
    && W.IsRun(W.Init(), writes) && result.Result? && Reads(job.fmt, result)
    && (forall f :: f in W.After(W.Init(), writes).sent && !Modelled(f) ==> Reads(job.fmt, f))
    && job.input == job.fmt.enc(Hello(h)) + [NL] + Lines(job.fmt, W.After(W.Init(), writes).sent + [result])
  }

  /** No line of the answer is over the limit. */
  ghost predicate AllFit(job: D.Job, writes: seq<W.Act>, result: Frame)
    requires W.IsRun(W.Init(), writes)
  {
    forall f :: f in W.After(W.Init(), writes).sent + [result] ==> !Over(job.fmt, f)
  }

  lemma Greeted(job: D.Job, h: HelloFrame, writes: seq<W.Act>, result: Frame)
    requires Hears(job, h, writes, result)
    ensures NextHello(job.fmt, job.input) == (Ack(h), Lines(job.fmt, W.After(W.Init(), writes).sent + [result]))
  {
    hide IsJson, Reads, Modelled, Over, Lines, NextHello, W.IsRun, W.After, C.Accepts;
    HelloAfterNoise(job.fmt, [], h, Lines(job.fmt, W.After(W.Init(), writes).sent + [result]));
    assert Unlines([]) + job.input == job.input;
  }

  /** What the read loop made of the stream, before the daemon added its diagnostics. */
  lemma Core(job: D.Job, o: C.Outcome) returns (core: C.Outcome)
    requires C.Driven(o, job.fmt, job.step, job.link, job.input)
    ensures
      var all := Everything(job.fmt, NextHello(job.fmt, job.input).1);
      C.OutcomeOf(core, all.0, all.1)
    ensures o.exit == core.exit && o.stdout == core.stdout && o.stderr == core.stderr + job.link.diagnostics
    ensures C.Flags(o) == C.Flags(core) && o.protocolError == core.protocolError
  {
    hide NextHello, Everything, C.OutcomeOf, C.Accepts;
    var g := NextHello(job.fmt, job.input).0;
    var all := Everything(job.fmt, NextHello(job.fmt, job.input).1);
    core :| C.OutcomeOf(core, all.0, all.1)
      && o == core.(hello := Some(g.hello), stderr := core.stderr + job.link.diagnostics);
  }

  /**
   The daemon that heard a runner out reports its result and what its writers landed, and its diagnostics
   behind stderr, exactly if every line fits.
   */
  lemma {:induction false} ReportsTheAnswer(c: P.Conn, job: D.Job, h: HelloFrame, writes: seq<W.Act>, result: Frame, o: C.Outcome)
    requires D.Reports(c, job, o) && c.ended == S.Some(P.Answered) && Hears(job, h, writes, result)
    ensures C.Flags(o) == 0 <==> AllFit(job, writes, result)
    ensures
      var s := W.After(W.Init(), writes);
      C.Flags(o) == 0 ==>
        o.exit == result.exit && o.stdout == s.stdout.landed && o.stderr == s.stderr.landed + job.link.diagnostics
    ensures C.Flags(o) != 0 ==> o.exit == -1 && o.protocolError
  {
    hide IsJson, Reads, Modelled, Over, Lines, Everything, NextHello, C.OutcomeOf, C.Driven, W.IsRun, W.After, C.Accepts, C.Flags;
    Greeted(job, h, writes, result);
    var core := Core(job, o);
    W.WritesReachTheOutcome(job.fmt, writes, result, core);
  }

  // ---- A signal in time ----

  /** A runner whose one step was signalled before its body had finished. */
  ghost predicate Timely(r: R.State)
  {
    && |r.accepted| == 1
    && (r.step.Step? ==> r.step.inTime)
    && forall e :: e in r.out && e.ResultFrame? ==> e.inTime
  }

  lemma TimelyMain(r: R.State, m: R.MainAct)
    requires RP.Control(r) && Timely(r) && R.MainEnabled(r, m) && |R.MainNext(r, m).accepted| == 1
    ensures Timely(R.MainNext(r, m))
  {
    hide S.Apply;
    assert R.MainNext(r, m).out == r.out;
  }

  lemma TimelyOnStep(r: R.State, t: R.StepAct)
    requires Timely(r) && R.StepEnabled(r, t)
    ensures Timely(R.StepNext(r, t))
  {
    hide S.Apply, R.ForegroundDone;
    assert forall e :: e in R.StepNext(r, t).out && e.ResultFrame? ==> e in r.out || e.inTime == r.step.inTime;
  }

  lemma TimelyMove(r: R.State, a: R.Act)
    requires RP.Control(r) && Timely(r) && R.Enabled(r, a) && |R.Next(r, a).accepted| == 1
    ensures Timely(R.Next(r, a))
  {
    hide S.Apply, R.ForegroundDone, S.Served, R.MainNext, R.MainEnabled, R.StepNext, R.StepEnabled, RP.Control;
    match a {
      case Main(m) => TimelyMain(r, m);
      case OnStep(t) => TimelyOnStep(r, t);
      case OnCmd(_, _) =>
      case Tick(_) =>
    }
  }

  lemma OneStep(c: P.Conn)
    requires P.Safe(c)
    ensures |c.runner.accepted| <= 1
  {
    hide RP.Inv, P.Started, P.Told, P.Sound;
  }

  lemma TimelyStep(c: P.Conn, a: P.Act)
    requires P.Safe(c) && Timely(c.runner) && P.Enabled(c, a)
    ensures P.Safe(P.Next(c, a)) && Timely(P.Next(c, a).runner)
  {
    hide P.Next, P.Enabled, P.RunnerMove, R.Next, R.Enabled, RP.Inv, P.Safe, Timely;
    P.SafeStep(c, a);
    OneStep(P.Next(c, a));
    P.RunnerMoves(c, a);
    var r := P.RunnerMove(c, a);
    if r.Some? {
      RunnerStays(c, r.value);
    }
  }

  lemma RunnerStays(c: P.Conn, r: R.Act)
    requires P.Safe(c) && Timely(c.runner) && R.Enabled(c.runner, r) && |R.Next(c.runner, r).accepted| <= 1
    ensures Timely(R.Next(c.runner, r))
  {
    assert RP.Control(c.runner);
    hide R.Next, R.Enabled, RP.Control, P.Started, P.Counted, P.Told, P.Sound, RP.Contexts, RP.Begun, RP.Supervised;
    P.RunnerAccepts(c.runner, r);
    TimelyMove(c.runner, r);
  }

  lemma {:induction false} TimelyAfter(c: P.Conn, acts: seq<P.Act>)
    requires P.Safe(c) && Timely(c.runner) && P.IsRun(c, acts)
    ensures P.Safe(P.After(c, acts)) && Timely(P.After(c, acts).runner)
    decreases |acts|
  {
    hide P.Next, P.Enabled, P.Safe, Timely;
    if acts != [] {
      TimelyStep(c, acts[0]);
      TimelyAfter(P.Next(c, acts[0]), acts[1..]);
    }
  }

  /** The runner is about to read a signal, and the body of its step has not finished. */
  ghost predicate InTime(c: P.Conn)
  {
    c.pipe != [] && c.pipe[0] == P.SIGNAL && c.runner.pc.Pump? && c.runner.step.Step? && RP.BeforeEnd(c.runner.step)
  }

  lemma SignalIsTimely(c: P.Conn, ok: bool)
    requires P.Safe(c) && InTime(c) && P.Enabled(c, P.Deliver(ok))
    ensures Timely(P.Next(c, P.Deliver(ok)).runner)
  {
    OneStep(c);
    assert RP.Control(c.runner) && RP.Answered(c.runner);
    assert RP.Blocks(c.runner.out, 0);
    hide P.Started, P.Told, P.Sound, P.Counted, RP.Contexts, RP.Begun, RP.Supervised, S.Apply;
  }

  /**
   A signal that the runner reads before the body has finished: in every continuation the step's result, if
   it has one, is 137 exactly if the body ran to its end.
   */
  lemma {:induction false} SignalGives137(c: P.Conn, ok: bool, acts: seq<P.Act>, e: R.Emit)
    requires P.Reachable(c) && P.Sound(c.plan) && InTime(c) && P.IsRun(c, [P.Deliver(ok)] + acts)
    requires e in P.After(c, [P.Deliver(ok)] + acts).runner.out && e.ResultFrame?
    ensures e.step == 0 && (e.exit == R.KILLED_EXIT <==> e.cause.Returned?)
  {
    var all := [P.Deliver(ok)] + acts;
    assert all[1..] == acts;
    P.ReachableSafe(c);
    P.SafeStep(c, P.Deliver(ok));
    SignalIsTimely(c, ok);
    var d := P.After(c, all);
    TimelyAfter(P.Next(c, P.Deliver(ok)), acts);
    hide P.Next, P.Enabled, P.Reachable, P.IsRun, P.After;
    assert RP.Exits(d.runner);
  }

  /**
   End to end: where the daemon reports the answer of a step that read the signal in time, its exit is 137 exactly
   if the body ran to its end and every line of the answer fits.
   */
  lemma {:induction false} SignalIsReported(c: P.Conn, ok: bool, acts: seq<P.Act>, e: R.Emit,
      job: D.Job, h: HelloFrame, writes: seq<W.Act>, wallNS: int, error: string, o: C.Outcome)
    requires P.Reachable(c) && c.plan == D.PlanOf(job) && InTime(c) && P.IsRun(c, [P.Deliver(ok)] + acts)
    requires e in P.After(c, [P.Deliver(ok)] + acts).runner.out && e.ResultFrame?
    requires D.Reports(P.After(c, [P.Deliver(ok)] + acts), job, o)
    requires P.After(c, [P.Deliver(ok)] + acts).ended == S.Some(P.Answered)
    requires Hears(job, h, writes, Result(e.exit, wallNS, error))
    ensures o.exit == R.KILLED_EXIT <==> e.cause.Returned? && AllFit(job, writes, Result(e.exit, wallNS, error))
    ensures AllFit(job, writes, Result(e.exit, wallNS, error)) ==> o.exit == e.exit
  {
    hide P.Reachable, P.IsRun, P.After, P.Sound, D.PlanOf, D.Reports, InTime, Hears, AllFit;
    D.PlanIsSound(job);
    SignalGives137(c, ok, acts, e);
    ReportsTheAnswer(P.After(c, [P.Deliver(ok)] + acts), job, h, writes, Result(e.exit, wallNS, error), o);
  }
}
