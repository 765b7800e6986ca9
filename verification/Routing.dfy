/** Routing one step over its hosts: the runner where it can be used, the legacy path where the body provably did not run. */
module Routing {
  import opened Wire
  import C = Client
  import D = Daemon
  import Protocol

  // ---- What is decided outside ----

  datatype Verdict = RouteInterp | RouteRealbash | SyntaxError

  /** One attempt to drive the runner: `sent` are the frames handed to its stdin. */
  datatype Drive =
    | RateLimited
    | SpawnFailed
    | Drove(ran: C.Ran, sent: seq<Frame>)

  /** A host position: what the lookup, the template, the preflight, the bootstrap and both paths would yield there. */
  datatype Site = Site(
    known: bool, resolves: bool, verdict: Verdict, bootFallback: bool, drive: Drive, legacyExit: int)

  /** What the client promises of a drive: one run frame at most, and none if the outcome says that the body never ran. */
  ghost predicate Faithful(d: Drive)
  {
    match d
    case Drove(Misuse, sent) => sent == []
    case Drove(Finished(o), sent) => RunFrames(sent) <= 1 && (o.protoMismatch || o.unsentOversize ==> C.NoRun(sent))
    case _ => true
  }

  function RunFrames(sent: seq<Frame>): nat
  {
    if sent == [] then 0 else RunFrames(sent[..|sent| - 1]) + if sent[|sent| - 1].Run? then 1 else 0
  }

  lemma {:induction false} NoRunFrames(sent: seq<Frame>)
    ensures RunFrames(sent) == 0 <==> C.NoRun(sent)
  {
    if sent != [] {
      NoRunFrames(sent[..|sent| - 1]);
      assert C.NoRun(sent) <==> C.NoRun(sent[..|sent| - 1]) && !sent[|sent| - 1].Run?;
    }
  }

  lemma {:induction false} ScriptSendsOneRun(step: C.Step, n: nat)
    requires n <= |C.Script(step)|
    ensures RunFrames(C.Script(step)[..n]) == if n == |C.Script(step)| then 1 else 0
  {
    C.ScriptAt(step, 0);
    if n > 0 {
      var sent := C.Script(step)[..n];
      assert sent[..n - 1] == C.Script(step)[..n - 1];
      hide C.Script;
      ScriptSendsOneRun(step, n - 1);
    }
  }

  /** Every drive of the client is faithful. */
  lemma {:induction false} ClientIsFaithful(fmt: Format, step: C.Step, link: C.Link, input: seq<Bytes.byte>, o: C.Outcome, sent: seq<Frame>)
    requires C.Answer(o, sent, fmt, step, link, input)
    ensures Faithful(Drove(C.Finished(o), sent))
  {
    ScriptSendsOneRun(step, |sent|);
    if o.protoMismatch || o.unsentOversize {
      C.NeverRanMeansNoRunFrame(o, sent, fmt, step, link, input);
    }
  }

  // ---- The decision ----

  /** False only when the body provably never ran on the runner. */
  predicate RanBody(d: Drive)
  {
    match d
    case RateLimited => false
    case SpawnFailed => false
    case Drove(Misuse, _) => false
    case Drove(Finished(o), _) => !o.protoMismatch && !o.unsentOversize
  }

  predicate WantsRunner(s: Site, optIn: bool, bash: bool)
  {
    optIn && (bash ==> s.verdict.RouteInterp?) && !s.bootFallback
  }

  predicate Refused(s: Site, optIn: bool, bash: bool)
  {
    !s.known || !s.resolves || (optIn && bash && s.verdict.SyntaxError?)
  }

  // ---- The loop ----

  /** What was set in motion, in order. */
  datatype Event = DroveRunner(pos: nat) | RanLegacy(pos: nat)

  datatype StepResult = StepResult(pos: nat, exit: int, runnerPath: bool) | Merged

  function Count(log: seq<Event>, e: Event): nat
  {
    if log == [] then 0 else Count(log[..|log| - 1], e) + if log[|log| - 1] == e then 1 else 0
  }

  /** How often the body of a position can have been started: by the run frames sent to the runner, and by the legacy path. */
  function Starts(log: seq<Event>, sites: seq<Site>, pos: nat): nat
    requires pos < |sites|
  {
    Count(log, DroveRunner(pos)) * (if sites[pos].drive.Drove? then RunFrames(sites[pos].drive.sent) else 0)
    + Count(log, RanLegacy(pos))
  }

  /** The first `n` positions have been dealt with, each by one path that counts. */
  ghost predicate Dealt(log: seq<Event>, results: seq<StepResult>, sites: seq<Site>, optIn: bool, bash: bool, n: nat)
    requires n <= |sites|
  {
    && |results| == n
    && forall p: nat :: p < |sites| ==>
      && (p < n ==>
        && results[p] == StepResult(p, ExitOf(sites[p], optIn, bash), WantsRunner(sites[p], optIn, bash) && RanBody(sites[p].drive)))
      && Count(log, DroveRunner(p)) == (if p < n && WantsRunner(sites[p], optIn, bash) then 1 else 0)
      && Count(log, RanLegacy(p)) == (if p < n && !(WantsRunner(sites[p], optIn, bash) && RanBody(sites[p].drive)) then 1 else 0)
  }

  /** The exit of the path whose result stands. */
  function ExitOf(s: Site, optIn: bool, bash: bool): int
  {
    if WantsRunner(s, optIn, bash) && RanBody(s.drive) then s.drive.ran.outcome.exit else s.legacyExit
  }

  lemma CountAppend(log: seq<Event>, e: Event)
    ensures forall f :: Count(log + [e], f) == Count(log, f) + if e == f then 1 else 0
  {
    assert (log + [e])[..|log|] == log;
  }

  /** The position's drive, if any, and its legacy run, if any, are the only news in the log. */
  ghost predicate Added(log: seq<Event>, more: seq<Event>, pos: nat, s: Site, optIn: bool, bash: bool)
  {
    forall e :: Count(more, e) == Count(log, e) +
      (if e == DroveRunner(pos) && WantsRunner(s, optIn, bash) then 1 else 0) +
      (if e == RanLegacy(pos) && !(WantsRunner(s, optIn, bash) && RanBody(s.drive)) then 1 else 0)
  }

  /** One position, when nothing refuses it. */
  method RunSite(pos: nat, s: Site, optIn: bool, bash: bool, log: seq<Event>) returns (result: StepResult, more: seq<Event>)
    requires !Refused(s, optIn, bash)
    ensures result == StepResult(pos, ExitOf(s, optIn, bash), WantsRunner(s, optIn, bash) && RanBody(s.drive))
    ensures Added(log, more, pos, s, optIn, bash)
  {
    more := log;
    if optIn {
      var runnerRoute := true;
      if bash && !s.verdict.RouteInterp? {
        runnerRoute := false;
      }
      if runnerRoute && !s.bootFallback {
        CountAppend(more, DroveRunner(pos));
        more := more + [DroveRunner(pos)];
        if RanBody(s.drive) {
          return StepResult(pos, s.drive.ran.outcome.exit, true), more;
        }
      }
    }
    CountAppend(more, RanLegacy(pos));
    more := more + [RanLegacy(pos)];
    result := StepResult(pos, s.legacyExit, false);
  }

  /**
   The loop over the hosts. A refused position ends the step with an error and no results; the log
   tells what had been set in motion before.
   */
  method ExecuteSSH(sites: seq<Site>, entrypointOk: bool, optIn: bool, bash: bool, continueOnError: bool)
    returns (results: seq<StepResult>, err: bool, log: seq<Event>, n: nat)
    ensures n <= |sites|
    ensures exists dealt ::
      && Dealt(log, dealt, sites, optIn, bash, n)
      && results == (if err then [] else dealt + if |sites| > 1 then [Merged] else [])
      && (forall p :: 0 <= p < n - 1 ==> continueOnError || dealt[p].exit == 0)
      && (!err && n < |sites| ==> n > 0 && !continueOnError && dealt[n - 1].exit != 0)
      && (err <==>
           || |sites| == 0 || !entrypointOk
           || (n < |sites| && (!sites[n].known || !sites[n].resolves || (optIn && bash && sites[n].verdict == SyntaxError))
               && (n == 0 || continueOnError || dealt[n - 1].exit == 0)))
    ensures forall p :: 0 <= p < n ==> sites[p].known && sites[p].resolves && !(optIn && bash && sites[p].verdict == SyntaxError)
  {
    hide Dealt, Count, WantsRunner, RanBody, ExitOf, Added;
    n := 0;
    log := [];
    results := [];
    NoneDealt(sites, optIn, bash);
    if |sites| == 0 || !entrypointOk {
      return [], true, log, 0;
    }
    while n < |sites|
      invariant n <= |sites| && |results| == n && Dealt(log, results, sites, optIn, bash, n)
      invariant forall p :: 0 <= p < n ==> !Refused(sites[p], optIn, bash) && results[p].StepResult? && (continueOnError || results[p].exit == 0)
    {
      var s := sites[n];
      if !s.known || !s.resolves || (optIn && bash && s.verdict.SyntaxError?) {
        return [], true, log, n;
      }
      var result, more := RunSite(n, s, optIn, bash, log);
      DealtOne(log, more, results, result, sites, optIn, bash, n);
      results, log := results + [result], more;
      n := n + 1;
      if !continueOnError && result.exit != 0 {
        break;
      }
    }
    err := false;
    ghost var dealt := results;
    if |sites| > 1 {
      results := results + [Merged];
    }
    assert results == dealt + if |sites| > 1 then [Merged] else [];
  }

  lemma NoneDealt(sites: seq<Site>, optIn: bool, bash: bool)
    ensures Dealt([], [], sites, optIn, bash, 0)
  {
  }

  lemma DealtOne(log: seq<Event>, more: seq<Event>, results: seq<StepResult>, result: StepResult,
      sites: seq<Site>, optIn: bool, bash: bool, n: nat)
    requires n < |sites| && Dealt(log, results, sites, optIn, bash, n)
    requires
      var s := sites[n];
      && result == StepResult(n, ExitOf(s, optIn, bash), WantsRunner(s, optIn, bash) && RanBody(s.drive))
      && Added(log, more, n, s, optIn, bash)
    ensures Dealt(more, results + [result], sites, optIn, bash, n + 1)
  {
    hide WantsRunner, RanBody, ExitOf, Count;
  }

  // ---- Exactly one path ----

  /**
   By what befell a position: the legacy path runs it, once, if the runner was not wanted there, was refused by
   the rate limiter, could not be spawned or driven, or ended before the body could run; and then its exit stands.
   Otherwise it does not run, and the drive's exit stands.
   */
  lemma {:induction false} LegacyRunsIffNeeded(log: seq<Event>, results: seq<StepResult>, sites: seq<Site>, optIn: bool,
      bash: bool, n: nat, pos: nat)
    requires pos < n <= |sites| && Dealt(log, results, sites, optIn, bash, n)
    ensures
      var s, d := sites[pos], sites[pos].drive;
      var wanted := optIn && (!bash || s.verdict == RouteInterp) && !s.bootFallback;
      var needed :=
        !wanted || d.RateLimited? || d.SpawnFailed?
        || (d.Drove? && (d.ran.Misuse? || d.ran.outcome.protoMismatch || d.ran.outcome.unsentOversize));
      && Count(log, DroveRunner(pos)) == (if wanted then 1 else 0)
      && Count(log, RanLegacy(pos)) == (if needed then 1 else 0)
      && results[pos] == StepResult(pos, if needed then s.legacyExit else d.ran.outcome.exit, !needed)
  {
  }

  /** Nothing is run at a position that the loop has not reached. */
  lemma {:induction false} NothingAhead(log: seq<Event>, results: seq<StepResult>, sites: seq<Site>, optIn: bool,
      bash: bool, n: nat, pos: nat)
    requires n <= pos < |sites| && Dealt(log, results, sites, optIn, bash, n)
    ensures Count(log, DroveRunner(pos)) == 0 && Count(log, RanLegacy(pos)) == 0
  {
  }

  /** From both ends: behind a wanted runner the legacy path runs if and only if the daemon's end of the connection falls back. */
  lemma {:induction false} LegacyIffFellBack(log: seq<Event>, results: seq<StepResult>, sites: seq<Site>,
      optIn: bool, bash: bool, n: nat, pos: nat,
      job: D.Job, c: Protocol.Conn, o: C.Outcome, sent: seq<Frame>)
    requires pos < n <= |sites| && Dealt(log, results, sites, optIn, bash, n)
    requires optIn && (!bash || sites[pos].verdict == RouteInterp) && !sites[pos].bootFallback
    requires Protocol.Reachable(c) && c.plan == D.PlanOf(job) && D.Reports(c, job, o)
    requires sites[pos].drive == Drove(C.Finished(o), sent)
    ensures Count(log, RanLegacy(pos)) == 1 <==> Protocol.FellBack(c)
    ensures Count(log, RanLegacy(pos)) == 0 <==> !Protocol.FellBack(c)
  {
    hide Protocol.Reachable, D.PlanOf, D.Reports, C.Answer, Dealt, Count;
    D.EndsAsRunStep(c, job, o);
    LegacyRunsIffNeeded(log, results, sites, optIn, bash, n, pos);
  }

  // ---- At most once ----

  /**
   For every position, however the drive went, run frames and legacy runs together are at most one; and
   the legacy path ran only where no run frame was ever sent.
   */
  lemma {:induction false} AtMostOnce(log: seq<Event>, results: seq<StepResult>, sites: seq<Site>, optIn: bool,
      bash: bool, n: nat, pos: nat)
    requires n <= |sites| && Dealt(log, results, sites, optIn, bash, n)
    requires pos < |sites| && Faithful(sites[pos].drive)
    ensures Starts(log, sites, pos) <= 1
    ensures Count(log, RanLegacy(pos)) > 0 && Count(log, DroveRunner(pos)) > 0 && sites[pos].drive.Drove? ==>
      C.NoRun(sites[pos].drive.sent)
    ensures pos >= n ==> Starts(log, sites, pos) == 0
  {
    if sites[pos].drive.Drove? {
      NoRunFrames(sites[pos].drive.sent);
    }
  }

  /**
   From both ends: the drive of a position is what the daemon handed over and reported at its end of a
   connection, and at any time after it, cut, garbled or cancelled as the connection may be, the body has
   started at most once, on the runner and the legacy path together; where the legacy path ran, the runner
   has not started it and never will.
   */
  lemma {:induction false} BodyStartsAtMostOnce(log: seq<Event>, results: seq<StepResult>, sites: seq<Site>,
      optIn: bool, bash: bool, n: nat, pos: nat,
      job: D.Job, c: Protocol.Conn, o: C.Outcome, sent: seq<Frame>)
    requires n <= |sites| && Dealt(log, results, sites, optIn, bash, n) && pos < |sites|
    requires Protocol.Reachable(c) && c.plan == D.PlanOf(job) && D.Reports(c, job, o)
    requires sites[pos].drive == Drove(C.Finished(o), sent)
    ensures Count(log, DroveRunner(pos)) * c.starts + Count(log, RanLegacy(pos)) <= 1
    ensures Count(log, DroveRunner(pos)) > 0 && Count(log, RanLegacy(pos)) > 0 ==>
      forall acts :: Protocol.IsRun(c, acts) ==> Protocol.After(c, acts).starts == 0
  {
    hide Protocol.Reachable, Protocol.IsRun, Protocol.After, D.PlanOf, D.Reports, C.Answer;
    D.PlanIsSound(job);
    D.EndsAsRunStep(c, job, o);
    Protocol.AtMostOneBody(c);
    if Protocol.FellBack(c) {
      forall acts | Protocol.IsRun(c, acts) ensures Protocol.After(c, acts).starts == 0 {
        Protocol.FallbackIsSafe(c, acts);
      }
      Protocol.NoStartYet(c);
    }
  }
}
