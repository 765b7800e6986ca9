/** What every run of the runner keeps, and the theorems that follow. */
module RunnerProofs {
  import opened Supervisor
  import opened Runner

  // ---- Control: who runs, who may be cancelled ----

  /** The returns of runStep that do not promise a result frame. */
  predicate Failed(ret: Ret)
  {
    ret == WriteFailed || ret == Violation || ret == WireCut
  }

  predicate BeforeEnd(step: Step)
    requires step.Step?
  {
    step.phase.Setup? || step.phase.InBody?
  }

  ghost predicate Control(s: State)
  {
    && (s.step.Step? <==> s.pc.Pump? || s.pc.Grace? || s.pc.Teardown?)
    && (s.step.Step? ==> |s.accepted| == s.step.id + 1 && s.cancelOf == Some(s.step.id))
    && (s.step.NoStep? ==> s.cancelOf.None?)
    && (s.pc.Teardown? ==> Failed(s.pc.why))
    && (s.terminal ==> !s.pc.Handshake? && !s.pc.Idle? && !s.pc.Pump?)
    && (s.pc.Reaping? && !s.pc.at.First? ==> s.sawBackground)
    && (s.pc.Exited? ==> s.pc.diedAt <= s.groups.now && (s.sawBackground ==> s.deadline <= s.pc.diedAt))
    && (s.pc.Reaping? && !s.pc.at.First? ==> s.deadline <= s.groups.snapAt + REAP_WINDOW)
    && (s.pc.Exited? ==> if s.sawBackground then s.deadline <= s.groups.snapAt + REAP_WINDOW else s.groups.snapAt == s.pc.diedAt)
    && s.groups.snapAt <= s.groups.now
  }

  lemma ControlMain(s: State, m: MainAct)
    requires Control(s) && MainEnabled(s, m)
    ensures Control(MainNext(s, m))
  {
    hide Apply;
    ApplyKeepsIdentity(s.groups, EffectOf(s, m));
  }

  lemma ControlOnStep(s: State, t: StepAct)
    requires Control(s) && StepEnabled(s, t)
    ensures Control(StepNext(s, t))
  {
    ApplyKeepsIdentity(s.groups, Cancel(s.step.id));
    hide Apply, ForegroundDone, Failed;
  }

  lemma ControlStep(s: State, a: Act)
    requires Control(s) && Enabled(s, a)
    ensures Control(Next(s, a))
  {
    hide MainNext, MainEnabled, StepNext, StepEnabled, Served, MaySpawn;
    match a {
      case Main(m) => ControlMain(s, m);
      case OnStep(t) => ControlOnStep(s, t);
      case OnCmd(_, _) =>
      case Tick(_) =>
    }
  }

  // ---- Contexts: a step's context is cancelled when the step is over, and not much earlier ----

  ghost predicate Contexts(s: State)
  {
    && (forall k :: 0 <= k < |s.accepted| ==> k in s.groups.cancelled || (s.step.Step? && k == s.step.id))
    && (forall k :: k in s.groups.cancelled ==> k < |s.accepted|)
    && (s.step.Step? && s.step.inTime ==> s.step.id in s.groups.cancelled)
    && (s.step.Step? && BeforeEnd(s.step) && s.step.id in s.groups.cancelled ==> s.step.inTime)
    && (s.pc.Teardown? ==> s.step.Step? && s.step.id in s.groups.cancelled)
  }

  lemma CancelledBy(s: State, m: MainAct)
    requires Control(s) && MainEnabled(s, m)
    ensures s.groups.cancelled <= MainNext(s, m).groups.cancelled
    ensures MainNext(s, m).groups.cancelled <= s.groups.cancelled + if s.step.Step? then {s.step.id} else {}
  {
  }

  lemma ContextsMain(s: State, m: MainAct)
    requires Control(s) && Contexts(s) && MainEnabled(s, m)
    ensures Contexts(MainNext(s, m))
  {
    CancelledBy(s, m);
  }

  lemma ContextsOnStep(s: State, t: StepAct)
    requires Contexts(s) && StepEnabled(s, t)
    ensures Contexts(StepNext(s, t))
  {
    hide ForegroundDone;
  }

  lemma ContextsStep(s: State, a: Act)
    requires Control(s) && Contexts(s) && Enabled(s, a)
    ensures Contexts(Next(s, a))
  {
    hide Control, MainNext, MainEnabled, StepNext, StepEnabled, Moved;
    match a {
      case Main(m) => ContextsMain(s, m);
      case OnStep(t) => ContextsOnStep(s, t);
      case OnCmd(_, _) =>
      case Tick(_) =>
    }
  }

  // ---- Commands belong to a running body or to a background goroutine ----

  ghost predicate Begun(s: State)
  {
    forall k :: k in s.begun ==> k < |s.accepted| && (s.accepted[k].background ==> s.sawBackground)
  }

  lemma BegunMain(s: State, m: MainAct)
    requires Begun(s) && MainEnabled(s, m)
    ensures Begun(MainNext(s, m)) && s.accepted <= MainNext(s, m).accepted && s.begun == MainNext(s, m).begun
  {
    hide Apply, EffectOf, Noted;
  }

  lemma BegunOnStep(s: State, t: StepAct)
    requires Begun(s) && StepEnabled(s, t)
    ensures Begun(StepNext(s, t)) && s.accepted == StepNext(s, t).accepted && s.begun <= StepNext(s, t).begun
  {
    hide Apply, Noted, ForegroundDone;
  }

  lemma BegunStep(s: State, a: Act)
    requires Begun(s) && Enabled(s, a)
    ensures Begun(Next(s, a))
    ensures s.accepted <= Next(s, a).accepted && s.begun <= Next(s, a).begun
  {
    hide MainNext, MainEnabled, StepNext, StepEnabled, Moved, Served;
    match a {
      case Main(m) => BegunMain(s, m);
      case OnStep(t) => BegunOnStep(s, t);
      case OnCmd(_, _) =>
      case Tick(_) =>
    }
  }

  ghost predicate Owned(s: State, c: Cmd)
  {
    && c.step < |s.accepted|
    && (c.background ==> c.step in s.begun && MayBackground(s.accepted[c.step]))
    && (!c.background && !c.life.Waited? ==> s.step.Step? && s.step.id == c.step && s.step.phase.InBody?)
  }

  ghost predicate Supervised(s: State)
  {
    forall p :: p in s.groups.cmds ==> Owned(s, s.groups.cmds[p])
  }

  /** A body with an unfinished foreground command keeps running. */
  lemma BodyHeld(s: State, a: Act)
    requires Control(s) && Enabled(s, a) && s.step.Step? && s.step.phase.InBody? && !ForegroundDone(s.groups)
    ensures Next(s, a).step.Step? && Next(s, a).step.id == s.step.id && Next(s, a).step.phase.InBody?
  {
  }

  /** Only its own moves change what a command is. */
  lemma SameCommand(s: State, a: Act, p: nat)
    requires Enabled(s, a) && p in s.groups.cmds && (a.OnCmd? ==> a.pgid != p)
    ensures p in Next(s, a).groups.cmds
    ensures
      var c, d := s.groups.cmds[p], Next(s, a).groups.cmds[p];
      d.step == c.step && d.background == c.background && d.life == c.life
  {
    hide Apply, EffectOf, MainMove, Noted, ForegroundDone, Moved;
    match a {
      case Main(m) => ApplyKeepsIdentity(s.groups, EffectOf(s, m));
      case OnStep(t) => ApplyKeepsIdentity(s.groups, Cancel(s.step.id));
      case OnCmd(_, _) =>
      case Tick(_) =>
    }
  }

  lemma NoNewCommand(s: State, a: Act)
    requires Enabled(s, a)
    ensures Next(s, a).groups.cmds.Keys == s.groups.cmds.Keys + if a.OnCmd? then {a.pgid} else {}
  {
    hide Apply, EffectOf, MainMove, Noted, ForegroundDone, Moved;
    match a {
      case Main(m) => ApplyKeepsIdentity(s.groups, EffectOf(s, m));
      case OnStep(t) => ApplyKeepsIdentity(s.groups, Cancel(s.step.id));
      case OnCmd(_, _) =>
      case Tick(_) =>
    }
  }

  lemma OwnedStep(s: State, a: Act, p: nat)
    requires Control(s) && Begun(s) && Supervised(s) && Enabled(s, a) && p in Next(s, a).groups.cmds
    ensures Owned(Next(s, a), Next(s, a).groups.cmds[p])
  {
    BegunStep(s, a);
    NoNewCommand(s, a);
    hide MainNext, MainEnabled, StepNext, StepEnabled, Served;
    if p in s.groups.cmds {
      assert Owned(s, s.groups.cmds[p]);
      if !s.groups.cmds[p].background && !s.groups.cmds[p].life.Waited? {
        BodyHeld(s, a);
      }
      if !a.OnCmd? || a.pgid != p {
        SameCommand(s, a, p);
      }
    }
  }

  lemma SupervisedStep(s: State, a: Act)
    requires Control(s) && Begun(s) && Supervised(s) && Enabled(s, a)
    ensures Supervised(Next(s, a))
  {
    forall p | p in Next(s, a).groups.cmds ensures Owned(Next(s, a), Next(s, a).groups.cmds[p]) {
      OwnedStep(s, a, p);
    }
  }

  // ---- Output and result frames ----

  /** `out` is one block per step 0..n-1: at most one output frame, then exactly one result frame. */
  ghost predicate Blocks(out: seq<Emit>, n: nat)
    decreases n, 0
  {
    if n == 0 then out == []
    else
      && out != []
      && out[|out| - 1].ResultFrame? && out[|out| - 1].step == n - 1
      && (Blocks(out[..|out| - 1], n - 1) || OutputThenBlocks(out[..|out| - 1], n - 1))
  }

  /** Complete blocks for the steps before `n`, then the output frame of step `n`. */
  ghost predicate OutputThenBlocks(out: seq<Emit>, n: nat)
    decreases n, 1
  {
    out != [] && out[|out| - 1] == OutputFrame(n) && Blocks(out[..|out| - 1], n)
  }

  /** Step `n` has no result frame: its answer stopped before it. */
  ghost predicate CutShort(out: seq<Emit>, n: nat)
  {
    Blocks(out, n) || OutputThenBlocks(out, n)
  }

  ghost predicate Answered(s: State)
  {
    var n := |s.accepted|;
    match s.step
    case NoStep =>
      || Blocks(s.out, n)
      || (n > 0 && (s.pc.Reaping? || s.pc.Exited?) && Failed(s.pc.ret) && CutShort(s.out, n - 1))
    case Step(id, phase, _) =>
      match phase
      case Closing(_, _) => OutputThenBlocks(s.out, id)
      case Finished(ok) => if ok then Blocks(s.out, n) else CutShort(s.out, id)
      case _ => Blocks(s.out, id)
  }

  lemma AnsweredMain(s: State, m: MainAct)
    requires Control(s) && Answered(s) && MainEnabled(s, m)
    ensures Answered(MainNext(s, m))
  {
    hide Apply, Blocks, OutputThenBlocks, CutShort;
    assert MainNext(s, m).out == s.out;
  }

  lemma ResultCloses(out: seq<Emit>, n: nat, e: Emit)
    requires CutShort(out, n) && e.ResultFrame? && e.step == n
    ensures Blocks(out + [e], n + 1)
  {
    assert (out + [e])[..|out|] == out;
  }

  lemma OutputOpens(out: seq<Emit>, n: nat)
    requires Blocks(out, n)
    ensures OutputThenBlocks(out + [OutputFrame(n)], n)
  {
    assert (out + [OutputFrame(n)])[..|out|] == out;
  }

  predicate Sends(a: StepAct)
  {
    a.SetupFails? || a.OutputSent? || a.ResultSent?
  }

  lemma AnsweredFailure(s: State, ok: bool)
    requires s.step.Step? && |s.accepted| == s.step.id + 1 && Answered(s) && StepEnabled(s, SetupFails(ok))
    ensures Answered(StepNext(s, SetupFails(ok)))
  {
    ResultCloses(s.out, s.step.id, ResultFrame(s.step.id, 1, ScratchFailed, s.step.inTime));
  }

  lemma AnsweredOutput(s: State, ok: bool)
    requires s.step.Step? && |s.accepted| == s.step.id + 1 && Answered(s) && StepEnabled(s, OutputSent(ok))
    ensures Answered(StepNext(s, OutputSent(ok)))
  {
    OutputOpens(s.out, s.step.id);
  }

  lemma AnsweredResult(s: State, ok: bool)
    requires s.step.Step? && |s.accepted| == s.step.id + 1 && Answered(s) && StepEnabled(s, ResultSent(ok))
    ensures Answered(StepNext(s, ResultSent(ok)))
  {
    var phase := s.step.phase;
    ResultCloses(s.out, s.step.id, ResultFrame(s.step.id, phase.exit, phase.cause, s.step.inTime));
  }

  lemma AnsweredSend(s: State, a: StepAct)
    requires s.step.Step? && |s.accepted| == s.step.id + 1 && Answered(s) && StepEnabled(s, a) && Sends(a)
    ensures Answered(StepNext(s, a))
  {
    hide Answered, StepEnabled, StepNext;
    match a {
      case SetupFails(ok) => AnsweredFailure(s, ok);
      case OutputSent(ok) => AnsweredOutput(s, ok);
      case ResultSent(ok) => AnsweredResult(s, ok);
    }
  }

  lemma AnsweredQuiet(s: State, a: StepAct)
    requires Control(s) && Answered(s) && StepEnabled(s, a) && !Sends(a)
    ensures Answered(StepNext(s, a))
  {
    assert StepNext(s, a).out == s.out;
  }

  lemma AnsweredStep(s: State, a: Act)
    requires Control(s) && Answered(s) && Enabled(s, a)
    ensures Answered(Next(s, a))
  {
    match a {
      case Main(m) => AnsweredMain(s, m);
      case OnStep(t) =>
        if Sends(t) {
          AnsweredSend(s, t);
        } else {
          AnsweredQuiet(s, t);
        }
      case OnCmd(_, _) =>
      case Tick(_) =>
    }
  }

  // ---- Exit codes ----

  /** What the exit of a step may be, by what became of its body and whether a cancel came in time. */
  predicate ExitAllowed(body: Body, cause: Cause, exit: int, inTime: bool)
  {
    match cause
    case ScratchFailed => exit == 1
    case ParseFailed => exit == 2 && !body.parses
    case Panicked => exit == 2 && body.parses
    case Returned(code, cancelled) =>
      exit == (if cancelled then KILLED_EXIT else code) && (inTime ==> cancelled) && body.parses
  }

  ghost predicate Sent(out: seq<Emit>, accepted: seq<Body>)
  {
    forall e :: e in out && e.ResultFrame? ==>
      e.step < |accepted| && ExitAllowed(accepted[e.step], e.cause, e.exit, e.inTime)
  }

  predicate Due(step: Step, body: Body)
  {
    step.Step? ==>
      match step.phase
      case InBody => body.parses
      case Ended(_) => body.parses
      case Collect(cause, exit) => ExitAllowed(body, cause, exit, step.inTime)
      case Closing(cause, exit) => ExitAllowed(body, cause, exit, step.inTime)
      case _ => true
  }

  ghost predicate Exits(s: State)
  {
    Sent(s.out, s.accepted) && (s.step.Step? && s.step.id < |s.accepted| ==> Due(s.step, s.accepted[s.step.id]))
  }

  lemma DueOnStep(s: State, a: StepAct)
    requires Contexts(s) && StepEnabled(s, a) && Due(s.step, s.accepted[s.step.id])
    ensures StepNext(s, a).accepted == s.accepted
    ensures StepNext(s, a).step.Step? && StepNext(s, a).step.id == s.step.id && Due(StepNext(s, a).step, s.accepted[s.step.id])
  {
    hide Apply, ForegroundDone;
  }

  lemma SentOnStep(s: State, a: StepAct)
    requires StepEnabled(s, a) && Due(s.step, s.accepted[s.step.id]) && Sent(s.out, s.accepted)
    ensures Sent(StepNext(s, a).out, s.accepted)
  {
    hide Apply, ForegroundDone, Noted;
    var out := StepNext(s, a).out;
    if out != s.out {
      assert out[..|s.out|] == s.out && |out| == |s.out| + 1;
    }
  }

  lemma ExitsOnStep(s: State, a: StepAct)
    requires Contexts(s) && Exits(s) && StepEnabled(s, a)
    ensures Exits(StepNext(s, a))
  {
    hide Contexts, Due, Sent, StepNext;
    assert s.step.id < |s.accepted| && s.step.Step?;
    DueOnStep(s, a);
    SentOnStep(s, a);
  }

  lemma ExitsMain(s: State, m: MainAct)
    requires Control(s) && Exits(s) && MainEnabled(s, m)
    ensures Exits(MainNext(s, m))
  {
    hide Apply, ExitAllowed;
    assert MainNext(s, m).out == s.out && s.accepted <= MainNext(s, m).accepted;
  }

  lemma ExitsStep(s: State, a: Act)
    requires Control(s) && Contexts(s) && Exits(s) && Enabled(s, a)
    ensures Exits(Next(s, a))
  {
    hide Control, Contexts, MainNext, MainEnabled, StepNext, StepEnabled, Served, Due, Sent;
    match a {
      case Main(m) => ExitsMain(s, m);
      case OnStep(t) => ExitsOnStep(s, t);
      case OnCmd(_, _) =>
      case Tick(_) =>
    }
  }

  // ---- Every run ----

  /** The time up to which the runner has lived. */
  ghost function Clock(s: State): nat
  {
    if s.pc.Exited? then s.pc.diedAt else s.groups.now
  }

  ghost predicate Inv(s: State)
  {
    Control(s) && Contexts(s) && Begun(s) && Supervised(s) && Kept(s.groups, Clock(s)) && Answered(s) && Exits(s)
  }

  lemma KeptStep(s: State, a: Act)
    requires Control(s) && Kept(s.groups, Clock(s)) && Enabled(s, a)
    ensures Kept(Next(s, a).groups, Clock(Next(s, a)))
  {
    hide Kept, Apply, Moved, Served, ForegroundDone, Noted;
    match a {
      case Main(m) =>
        ApplyKeeps(s.groups, EffectOf(s, m));
        ApplyKeepsIdentity(s.groups, EffectOf(s, m));
      case OnStep(t) =>
        ApplyKeeps(s.groups, Cancel(s.step.id));
        ApplyKeepsIdentity(s.groups, Cancel(s.step.id));
      case OnCmd(p, c) => MoveKeeps(s.groups, p, c, Clock(s));
      case Tick(ms) => KeptTick(s, ms);
    }
  }

  lemma KeptTick(s: State, ms: nat)
    requires Kept(s.groups, Clock(s)) && Enabled(s, Tick(ms))
    ensures Kept(Next(s, Tick(ms)).groups, Clock(Next(s, Tick(ms))))
  {
    if s.pc.Exited? {
      var t := Pass(s.groups, ms);
      forall p | p in t.cmds ensures OnTime(t, t.cmds[p], s.pc.diedAt) && Reaped(t, p, s.pc.diedAt) {
        assert OnTime(s.groups, s.groups.cmds[p], s.pc.diedAt) && Reaped(s.groups, p, s.pc.diedAt);
      }
    } else {
      PassKeeps(s.groups, ms);
    }
  }

  lemma InvStep(s: State, a: Act)
    requires Inv(s) && Enabled(s, a)
    ensures Inv(Next(s, a))
  {
    ControlStep(s, a);
    ContextsStep(s, a);
    BegunStep(s, a);
    SupervisedStep(s, a);
    KeptStep(s, a);
    AnsweredStep(s, a);
    ExitsStep(s, a);
  }

  lemma {:induction false} InvAfter(s: State, acts: seq<Act>)
    requires Inv(s) && IsRun(s, acts)
    ensures Inv(After(s, acts))
    decreases |acts|
  {
    if acts != [] {
      InvStep(s, acts[0]);
      InvAfter(Next(s, acts[0]), acts[1..]);
    }
  }

  lemma ReachableInv(s: State)
    requires Reachable(s)
    ensures Inv(s)
  {
    var acts :| IsRun(Init(), acts) && After(Init(), acts) == s;
    InvAfter(Init(), acts);
  }

  // ---- No orphans ----

  /** Outside runStep no step goroutine runs, and every foreground command has been waited for. */
  lemma {:induction false} JoinedOutsideSteps(s: State)
    requires Reachable(s) && (s.pc.Idle? || s.pc.Reaping? || s.pc.Exited?)
    ensures s.step.NoStep? && ForegroundDone(s.groups)
  {
    ReachableInv(s);
    forall p | p in s.groups.cmds && !s.groups.cmds[p].background ensures s.groups.cmds[p].life.Waited? {
      assert Owned(s, s.groups.cmds[p]);
    }
  }

  /** Every way out of runStep waits for the step goroutine to finish. */
  lemma {:induction false} LeavesOnlyFinishedSteps(s: State, a: Act)
    requires Reachable(s) && Enabled(s, a) && s.step.Step? && Next(s, a).step != s.step
    ensures Next(s, a).step.NoStep? ==> s.step.phase.Finished?
    ensures Next(s, a).step.Step? ==> Next(s, a).step.id == s.step.id
  {
    ReachableInv(s);
    OneStepAtATime(s, a);
  }

  lemma OneStepAtATime(s: State, a: Act)
    requires Control(s) && Enabled(s, a) && s.step.Step?
    ensures Next(s, a).step.NoStep? ==> s.step.phase.Finished?
    ensures Next(s, a).step.Step? ==> Next(s, a).step.id == s.step.id
  {
    hide Apply, EffectOf, Moved, Served, ForegroundDone;
    match a {
      case Main(m) =>
      case OnStep(_) =>
      case OnCmd(_, _) =>
      case Tick(_) =>
    }
  }

  /** No body that ran backgrounds anything that its program does not show. */
  ghost predicate NoneHidden(s: State)
  {
    forall k :: k in s.begun ==> k < |s.accepted| && !s.accepted[k].hidden
  }

  /**
   When the runner has exited, a command that is still registered has been SIGKILLed, or it is a
   background command that registered at or after the last snapshot. Without any `&` in a body that
   ran, shown or hidden, no command is left at all.
   */
  lemma {:induction false} NoOrphansOnExit(s: State, p: nat)
    requires Reachable(s) && s.pc.Exited? && p in s.groups.cmds
    ensures
      var c := s.groups.cmds[p];
      && (!s.sawBackground && NoneHidden(s) ==> c.life.Waited?)
      && (Listed(c) && !c.killed ==> c.background && s.groups.snapAt <= c.regAt)
  {
    ReachableInv(s);
    assert Owned(s, s.groups.cmds[p]) && Reaped(s.groups, p, Clock(s));
  }

  /**
   Exactly what is killed: a command that is still registered when the runner has exited has been killed
   if and only if the last snapshot saw it or its grace period ran out first. The snapshot saw whatever
   registered before its instant and nothing that registered after it, so that a command registered
   before the deadline can escape only where the snapshot was taken before the deadline. A grace period
   that ends at the very instant of the exit may go either way.
   */
  lemma {:induction false} NoOrphansByDeadline(s: State, p: nat)
    requires Reachable(s) && s.pc.Exited? && p in s.groups.cmds && Listed(s.groups.cmds[p])
    ensures
      var c := s.groups.cmds[p];
      && (c.killed ==> p in s.groups.snapped || RanOut(c, s.pc.diedAt))
      && (p in s.groups.snapped ==> c.killed)
      && (RanOut(c, s.pc.diedAt) && c.termAt.value + KILL_GRACE != s.pc.diedAt ==> c.killed)
      && (c.regAt < s.groups.snapAt ==> p in s.groups.snapped)
      && (p in s.groups.snapped ==> c.regAt <= s.groups.snapAt)
    ensures
      var c := s.groups.cmds[p];
      (c.termAt.Some? ==> c.termAt.value + KILL_GRACE != s.pc.diedAt) ==>
        (c.killed <==> p in s.groups.snapped || RanOut(c, s.pc.diedAt))
    ensures
      var c := s.groups.cmds[p];
      s.sawBackground && s.deadline <= s.groups.snapAt && c.regAt < s.deadline ==> c.killed
  {
    ReachableInv(s);
    assert OnTime(s.groups, s.groups.cmds[p], s.pc.diedAt) && Reaped(s.groups, p, s.pc.diedAt);
    hide Answered, Exits, Control, Contexts, Begun, Supervised;
  }

  /** A command without its process. */
  ghost function Record(c: Cmd): Cmd
  {
    c.(alive := false)
  }

  /**
   The runner's timers end with it: whatever comes after its exit, no command is registered, signalled
   or killed any more. Processes only live on or die.
   */
  lemma {:induction false} NothingKillsAfterExit(s: State, acts: seq<Act>)
    requires s.pc.Exited? && Control(s) && IsRun(s, acts)
    ensures
      var t := After(s, acts);
      && t.pc == s.pc && t.groups.cmds.Keys == s.groups.cmds.Keys
      && forall p :: p in s.groups.cmds ==>
        && Record(t.groups.cmds[p]) == Record(s.groups.cmds[p])
        && (t.groups.cmds[p].alive ==> s.groups.cmds[p].alive)
    decreases |acts|
  {
    hide ForegroundDone, Served;
    if acts != [] {
      ControlStep(s, acts[0]);
      AfterExitStep(s, acts[0]);
      NothingKillsAfterExit(Next(s, acts[0]), acts[1..]);
    }
  }

  lemma AfterExitStep(s: State, a: Act)
    requires s.pc.Exited? && Control(s) && Enabled(s, a)
    ensures
      var t := Next(s, a);
      && t.pc == s.pc && t.groups.cmds.Keys == s.groups.cmds.Keys
      && forall p :: p in s.groups.cmds ==>
        && Record(t.groups.cmds[p]) == Record(s.groups.cmds[p])
        && (t.groups.cmds[p].alive ==> s.groups.cmds[p].alive)
  {
    hide ForegroundDone, Served, MainNext, StepNext, Apply;
    match a {
      case Main(_) => assert false;
      case OnStep(_) => assert false;
      case OnCmd(p, _) => assert Next(s, a).groups.cmds == s.groups.cmds[p := s.groups.cmds[p].(alive := false)];
      case Tick(_) =>
    }
  }

  lemma ReachableStep(s: State, a: Act)
    requires Reachable(s) && Enabled(s, a)
    ensures Reachable(Next(s, a))
  {
    var acts :| IsRun(Init(), acts) && After(Init(), acts) == s;
    RunExtends(Init(), acts, a);
  }

  lemma {:induction false} RunExtends(s: State, acts: seq<Act>, a: Act)
    requires IsRun(s, acts) && Enabled(After(s, acts), a)
    ensures IsRun(s, acts + [a]) && After(s, acts + [a]) == Next(After(s, acts), a)
    decreases |acts|
  {
    if acts == [] {
      assert acts + [a] == [a] && [a][1..] == [];
    } else {
      assert (acts + [a])[1..] == acts[1..] + [a];
      RunExtends(Next(s, acts[0]), acts[1..], a);
    }
  }

  lemma InitReachable()
    ensures Reachable(Init())
  {
    assert IsRun(Init(), []) && After(Init(), []) == Init();
  }

  /** A run that ends in `s` with nothing but command `p` in the groups. */
  ghost predicate OnlyCommand(s: State, p: nat, c: Cmd, now: nat, snapAt: nat)
  {
    Reachable(s) && s.groups.cmds == map[p := c] && s.groups.now == now && s.groups.snapAt == snapAt
  }

  /** A step has backgrounded command 7, which has yet to start. */
  lemma LateSpawn(body: Body) returns (s: State)
    requires body.parses && MayBackground(body)
    ensures OnlyCommand(s, 7, Cmd(0, true, Checked, false, false, 0, None, None), 0, 0)
    ensures s.pc == Pump && s.sawBackground == body.background && s.step == Step(0, InBody, false) && s.cancelOf == Some(0)
    ensures |s.accepted| == 1 && s.groups.cancelled == {} && s.groups.snapped == {}
  {
    hide Reachable;
    var s0 := Init();
    InitReachable();
    var s1 := Next(s0, Main(Shake(true)));
    ReachableStep(s0, Main(Shake(true)));
    var run := Main(Recv(Got(Run(body)), true));
    var s2 := Next(s1, run);
    ReachableStep(s1, run);
    var s3 := Next(s2, OnStep(BodyStarts));
    ReachableStep(s2, OnStep(BodyStarts));
    s := Next(s3, OnCmd(7, Spawn(0, true)));
    ReachableStep(s3, OnCmd(7, Spawn(0, true)));
  }

  /** The body returns before it does. */
  lemma LateSetup(body: Body) returns (s: State)
    requires body.parses && MayBackground(body)
    ensures OnlyCommand(s, 7, Cmd(0, true, Checked, false, false, 0, None, None), 0, 0)
    ensures s.pc == Pump && s.sawBackground == body.background && s.step == Step(0, Ended(0), false) && s.cancelOf == Some(0) && |s.accepted| == 1
    ensures s.groups.cancelled == {} && s.groups.snapped == {}
  {
    hide Reachable;
    var s0 := LateSpawn(body);
    s := Next(s0, OnStep(BodyReturns(0)));
    ReachableStep(s0, OnStep(BodyReturns(0)));
  }

  /** The step answers, stdin closes, and the runner starts to reap. */
  lemma LateReap(body: Body) returns (s: State)
    requires body.parses && MayBackground(body)
    ensures OnlyCommand(s, 7, Cmd(0, true, Checked, false, false, 0, None, None), 0, 0)
    ensures s.pc == Reaping(CleanEof, First) && s.sawBackground == body.background
  {
    hide Reachable;
    var s0 := LateSetup(body);
    var s1 := Next(s0, OnStep(ContextChecked));
    ReachableStep(s0, OnStep(ContextChecked));
    var s2 := Next(s1, OnStep(ResultSent(true)));
    ReachableStep(s1, OnStep(ResultSent(true)));
    var s3 := Next(s2, Main(StepDone));
    ReachableStep(s2, Main(StepDone));
    assert s3.groups.cmds == s2.groups.cmds;
    s := Next(s3, Main(Recv(Eof, true)));
    ReachableStep(s3, Main(Recv(Eof, true)));
  }

  /** The last snapshot is taken one millisecond before the deadline. */
  lemma LateSnapshot() returns (s: State)
    ensures OnlyCommand(s, 7, Cmd(0, true, Checked, false, false, 0, None, None), 999, 999)
    ensures s.pc == Reaping(CleanEof, Check) && s.sawBackground && s.deadline == 1000
  {
    hide Reachable;
    var s0 := LateReap(PLAIN.(background := true));
    var s1 := Next(s0, Main(ReapMove));
    ReachableStep(s0, Main(ReapMove));
    assert s1.groups.cmds == s0.groups.cmds;
    var s2 := Next(s1, Main(ReapMove));
    ReachableStep(s1, Main(ReapMove));
    var s3 := Next(s2, Tick(999));
    ReachableStep(s2, Tick(999));
    s := Next(s3, Main(ReapMove));
    ReachableStep(s3, Main(ReapMove));
    assert s.groups.cmds == s3.groups.cmds;
  }

  /**
   Such an escape happens: the loop checks the clock after its snapshot, so a command that registers
   between the last snapshot and the deadline outlives the runner, and nothing kills it later.
   */
  lemma {:induction false} LateRegistrationEscapes() returns (s: State)
    ensures OnlyCommand(s, 7, Cmd(0, true, Registered, true, false, 999, None, None), 1000, 999)
    ensures s.pc == Exited(CleanEof, 1000) && s.deadline == 1000
    ensures forall acts :: IsRun(s, acts) ==>
      7 in After(s, acts).groups.cmds && !After(s, acts).groups.cmds[7].killed
  {
    hide Reachable;
    var s0 := LateSnapshot();
    var s1 := Next(s0, OnCmd(7, Start));
    ReachableStep(s0, OnCmd(7, Start));
    var s2 := Next(s1, OnCmd(7, Register));
    ReachableStep(s1, OnCmd(7, Register));
    var s3 := Next(s2, Tick(1));
    ReachableStep(s2, Tick(1));
    s := Next(s3, Main(ReapMove));
    ReachableStep(s3, Main(ReapMove));
    ReachableInv(s);
    forall acts | IsRun(s, acts)
      ensures 7 in After(s, acts).groups.cmds && !After(s, acts).groups.cmds[7].killed
    {
      NothingKillsAfterExit(s, acts);
      assert Record(After(s, acts).groups.cmds[7]) == Record(s.groups.cmds[7]);
    }
  }

  /**
   And where the program hides its `&`, there is no window at all: the one snapshot finds nothing registered,
   and a command that has started but not registered yet outlives the runner; nothing kills it later.
   */
  lemma {:induction false} HiddenBackgroundEscapes() returns (s: State)
    ensures OnlyCommand(s, 7, Cmd(0, true, Started, true, false, 0, None, None), 0, 0)
    ensures s.pc == Exited(CleanEof, 0) && !s.sawBackground
    ensures forall acts :: IsRun(s, acts) ==>
      7 in After(s, acts).groups.cmds && !After(s, acts).groups.cmds[7].killed
  {
    hide Reachable;
    var s0 := LateReap(PLAIN.(hidden := true));
    var s1 := Next(s0, OnCmd(7, Start));
    ReachableStep(s0, OnCmd(7, Start));
    s := Next(s1, Main(ReapMove));
    ReachableStep(s1, Main(ReapMove));
    assert s.groups.cmds == s1.groups.cmds;
    ReachableInv(s);
    forall acts | IsRun(s, acts)
      ensures 7 in After(s, acts).groups.cmds && !After(s, acts).groups.cmds[7].killed
    {
      NothingKillsAfterExit(s, acts);
      assert Record(After(s, acts).groups.cmds[7]) == Record(s.groups.cmds[7]);
    }
  }

  /** The same command is armed under its ended step, TERMs its process, and has its grace period pass. */
  lemma LateGrace() returns (s: State)
    ensures OnlyCommand(s, 7, Cmd(0, true, Armed, true, false, 999, Some(999), Some(999)), 5999, 999)
    ensures s.pc == Reaping(CleanEof, Check) && s.sawBackground && s.deadline == 1000
  {
    hide Reachable;
    var s0 := LateSnapshot();
    CancelledByNow(s0);
    var s1 := Next(s0, OnCmd(7, Start));
    ReachableStep(s0, OnCmd(7, Start));
    var s2 := Next(s1, OnCmd(7, Register));
    ReachableStep(s1, OnCmd(7, Register));
    var s3 := Next(s2, OnCmd(7, Arm));
    ReachableStep(s2, OnCmd(7, Arm));
    var s4 := Next(s3, OnCmd(7, Term));
    ReachableStep(s3, OnCmd(7, Term));
    s := Next(s4, Tick(5000));
    ReachableStep(s4, Tick(5000));
  }

  lemma CancelledByNow(s: State)
    requires Reachable(s) && s.pc.Reaping? && 7 in s.groups.cmds
    ensures s.groups.cmds[7].step in s.groups.cancelled
  {
    ReachableInv(s);
    assert Owned(s, s.groups.cmds[7]);
  }

  /** At the very instant at which a grace period ends, the kill and the exit race. */
  lemma {:induction false} ExitRacesTheKill() returns (won: State, lost: State)
    ensures Reachable(won) && Reachable(lost) && 7 in won.groups.cmds && 7 in lost.groups.cmds
    ensures won.pc == Exited(CleanEof, 5999) && lost.pc == won.pc && won.groups.snapped == lost.groups.snapped
    ensures won.groups.cmds[7] == lost.groups.cmds[7].(killed := true) && !lost.groups.cmds[7].killed
  {
    hide Reachable;
    var s0 := LateGrace();
    lost := Next(s0, Main(ReapMove));
    ReachableStep(s0, Main(ReapMove));
    var s1 := Next(s0, OnCmd(7, KillLate));
    ReachableStep(s0, OnCmd(7, KillLate));
    won := Next(s1, Main(ReapMove));
    ReachableStep(s1, Main(ReapMove));
  }

  /**
   A command armed under a cancelled context, however the two raced, is TERM'd before the clock moves
   on and killed once the grace period has passed, unless it has been waited for: as long as the runner
   lives, that is, for its timers end with it.
   */
  lemma {:induction false} Escalates(s: State, p: nat)
    requires Reachable(s) && p in s.groups.cmds
    requires s.groups.cmds[p].life.Armed? && s.groups.cmds[p].step in s.groups.cancelled
    ensures
      var c, clock := s.groups.cmds[p], Clock(s);
      && c.due.Some?
      && (clock > c.due.value ==> c.termAt == c.due)
      && (clock > c.due.value + KILL_GRACE ==> c.killed)
  {
    ReachableInv(s);
    assert OnTime(s.groups, s.groups.cmds[p], Clock(s));
  }

  /** When a step is over, its context is cancelled, so its background commands are escalated too. */
  lemma {:induction false} EndedStepsAreCancelled(s: State, k: nat)
    requires Reachable(s) && k < |s.accepted| && !(s.step.Step? && s.step.id == k)
    ensures k in s.groups.cancelled
  {
    ReachableInv(s);
  }

  // ---- Wire death ----

  /** Stdin has been dead for the grace period, or what it delivered is no frame. */
  predicate WireIsGone(m: MainAct)
  {
    m.GraceTimeout? || (m.PumpRecv? && m.item.Broken?)
  }

  /** Every command that is registered is killed, and no other. */
  ghost predicate KillsRegistered(before: Groups, after: Groups)
  {
    && after.cmds.Keys == before.cmds.Keys
    && forall p :: p in before.cmds ==>
      && after.cmds[p].life == before.cmds[p].life
      && (after.cmds[p].killed <==> before.cmds[p].killed || Listed(before.cmds[p]))
  }

  lemma KillsBoth(g: Groups, id: nat)
    ensures Apply(g, CancelThenKill(id)).cancelled == g.cancelled + {id} && KillsRegistered(g, Apply(g, CancelThenKill(id)))
  {
  }

  /**
   A dead wire tears the running step down at once: its context is cancelled, everything registered is
   SIGKILLed, and the runner waits for its goroutine.
   */
  lemma {:induction false} WireDeathTearsDown(s: State, m: MainAct)
    requires Reachable(s) && Enabled(s, Main(m)) && WireIsGone(m)
    ensures
      var t := Next(s, Main(m));
      && s.step.Step? && t.step.Step? && t.step.id == s.step.id && t.pc.Teardown?
      && t.groups.cancelled == s.groups.cancelled + {s.step.id}
      && KillsRegistered(s.groups, t.groups)
  {
    ReachableInv(s);
    hide Kept, Answered, Exits, Begun, Supervised, Contexts;
    assert s.step.Step? && s.cancelOf == Some(s.step.id);
    KillsBoth(s.groups, s.step.id);
    hide KillsRegistered, Apply, Reachable;
  }

  /** Whoever waits for a step that is torn down waits for a cancelled one. */
  lemma {:induction false} TeardownIsCancelled(s: State)
    requires Reachable(s) && s.pc.Teardown?
    ensures s.step.Step? && s.step.id in s.groups.cancelled
  {
    ReachableInv(s);
  }

  /** The end of stdin does nothing to the step, and for the grace period nothing comes of it. */
  lemma {:induction false} EofGivesGrace(s: State, ok: bool, acts: seq<Act>)
    requires s.pc.Pump? && IsRun(s, [Main(PumpRecv(Eof, ok))] + acts)
    ensures
      var t := Next(s, Main(PumpRecv(Eof, ok)));
      t.step == s.step && t.groups == s.groups && t.out == s.out
    ensures
      var d := After(s, [Main(PumpRecv(Eof, ok))] + acts);
      d.pc.Teardown? ==> d.groups.now >= s.groups.now + 2000
  {
    assert ([Main(PumpRecv(Eof, ok))] + acts)[1..] == acts;
    GraceLasts(Next(s, Main(PumpRecv(Eof, ok))), s.groups.now + 2000, acts);
  }

  lemma {:induction false} GraceLasts(s: State, until: nat, acts: seq<Act>)
    requires IsRun(s, acts) && InGrace(s, until)
    ensures After(s, acts).pc.Teardown? ==> After(s, acts).groups.now >= until
    decreases |acts|
  {
    hide Next, Enabled;
    if acts != [] {
      GraceStep(s, until, acts[0]);
      GraceLasts(Next(s, acts[0]), until, acts[1..]);
    }
  }

  /** The runner is in its grace period, or behind it. */
  predicate InGrace(s: State, until: nat)
  {
    match s.pc
    case Grace(u) => u == until
    case Teardown(_) => s.groups.now >= until
    case Reaping(_, _) => true
    case Exited(_, _) => true
    case _ => false
  }

  lemma GraceStep(s: State, until: nat, a: Act)
    requires Enabled(s, a) && InGrace(s, until)
    ensures InGrace(Next(s, a), until)
  {
    hide Moved, Served, ForegroundDone, Apply;
    match a {
      case Main(m) => ApplyKeepsIdentity(s.groups, EffectOf(s, m));
      case OnStep(t) => ApplyKeepsIdentity(s.groups, Cancel(s.step.id));
      case OnCmd(_, _) =>
      case Tick(_) =>
    }
  }

  /** Reaping kills what is registered when it begins, and again after every wait. */
  lemma {:induction false} ReapKills(s: State)
    requires Reachable(s) && Enabled(s, Main(ReapMove)) && !s.pc.at.Check?
    ensures
      var t := Next(s, Main(ReapMove));
      KillsRegistered(s.groups, t.groups) && t.groups.snapAt == s.groups.now && t.groups.cancelled == s.groups.cancelled
  {
    hide Reachable, MainMove, Noted;
  }

  /** An exited runner took its last snapshot as it exited, or, where a `&` was seen, not before its window began. */
  lemma {:induction false} LastSnapshot(s: State)
    requires Reachable(s) && s.pc.Exited?
    ensures if s.sawBackground then s.deadline <= s.groups.snapAt + 1000 && s.deadline <= s.pc.diedAt else s.groups.snapAt == s.pc.diedAt
  {
    ReachableInv(s);
  }

  // ---- Why the runner leaves ----

  /** Why the runner is leaving, once it is. */
  function Why(pc: Pc): Option<Ret>
  {
    match pc
    case Teardown(why) => Some(why)
    case Reaping(ret, _) => Some(ret)
    case Exited(ret, _) => Some(ret)
    case _ => None
  }

  /** The moves that make it leave, reason by reason. */
  ghost predicate Decides(s: State, a: Act, why: Ret)
  {
    a.Main? &&
    match why
    case CleanEof => a.m.Recv? && a.m.item == Eof
    case StreamEnd => a.m.GraceDone? && s.step.Step? && s.step.phase == Finished(true)
    case WireCut => a.m.GraceTimeout?
    case Violation =>
      || (a.m.Shake? && !a.m.ok)
      || (a.m.Recv? && (a.m.item == Broken || a.m.item == Got(Foreign)))
      || (a.m.PumpRecv? && a.m.item == Broken)
    case WriteFailed =>
      || (a.m.Recv? && !a.m.ok && (a.m.item == Got(Hello) || a.m.item == Got(File)))
      || (a.m.PumpRecv? && !a.m.ok && a.m.item == Got(Hello))
      || ((a.m.StepDone? || a.m.GraceDone?) && s.step.Step? && s.step.phase == Finished(false))
  }

  /** Some move of the run makes the runner leave for this reason. */
  ghost predicate Decided(s: State, acts: seq<Act>, why: Ret)
    requires IsRun(s, acts)
    decreases |acts|
  {
    acts != [] && (Decides(s, acts[0], why) || Decided(Next(s, acts[0]), acts[1..], why))
  }

  lemma WhyMain(s: State, m: MainAct, why: Ret)
    requires MainEnabled(s, m)
    ensures Why(MainNext(s, m).pc) == Some(why) <==> Why(s.pc) == Some(why) || Decides(s, Main(m), why)
  {
    hide EffectOf, Apply, Noted;
    PcOf(s, m);
    match m {
      case Recv(item, ok) => WhyIdle(s, item, ok, why);
      case PumpRecv(item, ok) => WhyInStep(s, item, ok, why);
      case ReapMove => WhyReap(s, why);
      case _ => hide ReceiveIdle, ReceiveInStep, MainNext;
    }
  }

  lemma WhyIdle(s: State, item: Item, ok: bool, why: Ret)
    requires s.pc.Idle?
    ensures Why(MainMove(s, Recv(item, ok)).pc) == Some(why) <==> Decides(s, Main(Recv(item, ok)), why)
  {
  }

  lemma WhyInStep(s: State, item: Item, ok: bool, why: Ret)
    requires s.pc.Pump?
    ensures Why(MainMove(s, PumpRecv(item, ok)).pc) == Some(why) <==> Decides(s, Main(PumpRecv(item, ok)), why)
  {
  }

  lemma WhyReap(s: State, why: Ret)
    requires MainEnabled(s, ReapMove)
    ensures Why(MainMove(s, ReapMove).pc) == Why(s.pc) && !Decides(s, Main(ReapMove), why)
  {
  }

  lemma PcOf(s: State, m: MainAct)
    requires MainEnabled(s, m)
    ensures MainNext(s, m).pc == MainMove(s, m).pc
  {
    hide EffectOf, Apply, Noted, MainMove;
  }

  lemma WhyStep(s: State, a: Act, why: Ret)
    requires Enabled(s, a)
    ensures Why(Next(s, a).pc) == Some(why) <==> Why(s.pc) == Some(why) || Decides(s, a, why)
  {
    hide ForegroundDone, Served, MainNext, MainEnabled, Moved, Apply;
    match a {
      case Main(m) => WhyMain(s, m, why);
      case OnStep(t) => StepKeepsPc(s, t);
      case OnCmd(_, _) =>
      case Tick(_) =>
    }
  }

  lemma StepKeepsPc(s: State, t: StepAct)
    requires StepEnabled(s, t)
    ensures StepNext(s, t).pc == s.pc
  {
    hide ForegroundDone, Apply;
  }

  /**
   Over every run: the runner is leaving for a reason if and only if a move has decided so. It ends cleanly at an
   end of the stream between steps, and with an error at noise, at a frame that is not a daemon's, or at a
   failed write; what else arrives leaves it serving.
   */
  lemma {:induction false} LeavesIffDecided(s: State, acts: seq<Act>, why: Ret)
    requires IsRun(s, acts)
    ensures Why(After(s, acts).pc) == Some(why) <==> Why(s.pc) == Some(why) || Decided(s, acts, why)
    decreases |acts|
  {
    hide Next, Enabled, Decides;
    if acts != [] {
      WhyStep(s, acts[0], why);
      LeavesIffDecided(Next(s, acts[0]), acts[1..], why);
    }
  }

  // ---- Step discipline ----

  /** A signal read during a step cancels that step's context and no other; in time, it settles the exit. */
  lemma {:induction false} SignalMeetsItsStep(s: State, ok: bool)
    requires Reachable(s) && s.pc.Pump?
    ensures
      var t := Next(s, Main(PumpRecv(Got(Signal), ok)));
      && s.step.Step? && s.cancelOf == Some(s.step.id) && s.step.id == |s.accepted| - 1
      && t.groups.cancelled == s.groups.cancelled + {s.step.id}
      && t.step == (if BeforeEnd(s.step) then s.step.(inTime := true) else s.step)
      && t.(step := s.step, groups := s.groups) == s
  {
    ReachableInv(s);
  }

  /** The deadline of a step cancels its context and no other, and so reaches every command of the step that is armed. */
  lemma {:induction false} TimeoutCancels(s: State)
    requires StepEnabled(s, TimesOut)
    ensures
      var t, k := Next(s, OnStep(TimesOut)), s.step.id;
      && t.groups.cancelled == s.groups.cancelled + {k} && t.out == s.out && t.pc == s.pc
      && t.step == s.step.(inTime := s.step.inTime || s.step.phase.Setup? || s.step.phase.InBody?)
      && t.groups.cmds.Keys == s.groups.cmds.Keys
      && (forall p :: p in s.groups.cmds && s.groups.cmds[p].step == k && s.groups.cmds[p].life.Armed? ==> t.groups.cmds[p].due.Some?)
      && (forall p :: p in s.groups.cmds && s.groups.cmds[p].step != k ==> t.groups.cmds[p] == s.groups.cmds[p])
  {
  }

  /** A run, file or foreign frame read during a step. */
  predicate MidStep(a: Act)
  {
    a.Main? && a.m.PumpRecv? && a.m.item.Got? && (a.m.item.frame.Run? || a.m.item.frame.File? || a.m.item.frame.Foreign?)
  }

  lemma MidStepFramesIgnored(s: State, f: Frame, ok: bool)
    requires Reachable(s) && s.pc.Pump? && (f.Run? || f.File? || f.Foreign?)
    ensures Next(s, Main(PumpRecv(Got(f), ok))) == s
  {
  }

  ghost function WithoutMidStep(acts: seq<Act>): seq<Act>
  {
    if acts == [] then []
    else if MidStep(acts[0]) then WithoutMidStep(acts[1..])
    else [acts[0]] + WithoutMidStep(acts[1..])
  }

  /**
   Run, file and foreign frames that arrive during a step leave no trace: without them the rest of any run
   is still a run, answers the same steps with the same frames, and ends in the same state.
   */
  lemma {:induction false} MidStepFramesDropOut(s: State, acts: seq<Act>)
    requires Reachable(s) && IsRun(s, acts)
    ensures IsRun(s, WithoutMidStep(acts)) && After(s, WithoutMidStep(acts)) == After(s, acts)
    decreases |acts|
  {
    hide Reachable, Next, Enabled;
    if acts != [] {
      ReachableStep(s, acts[0]);
      MidStepFramesDropOut(Next(s, acts[0]), acts[1..]);
      if MidStep(acts[0]) {
        MidStepKeeps(s, acts[0]);
      } else {
        var rest := WithoutMidStep(acts[1..]);
        assert ([acts[0]] + rest)[0] == acts[0] && ([acts[0]] + rest)[1..] == rest;
      }
    }
  }

  lemma MidStepKeeps(s: State, a: Act)
    requires Reachable(s) && Enabled(s, a) && MidStep(a)
    ensures Next(s, a) == s
  {
    MidStepFramesIgnored(s, a.m.item.frame, a.m.ok);
  }

  /** Once the reader has reported its terminal error nobody reads from it again. */
  lemma {:induction false} NeverReadsPastTheEnd(s: State, item: Item, ok: bool)
    requires Reachable(s) && s.terminal
    ensures !Enabled(s, Main(Recv(item, ok))) && !Enabled(s, Main(PumpRecv(item, ok)))
  {
    ReachableInv(s);
  }

  ghost function ResultsOf(out: seq<Emit>, k: nat): nat
  {
    if out == [] then 0
    else ResultsOf(out[..|out| - 1], k) + if out[|out| - 1].ResultFrame? && out[|out| - 1].step == k then 1 else 0
  }

  ghost function OutputsOf(out: seq<Emit>, k: nat): nat
  {
    if out == [] then 0
    else OutputsOf(out[..|out| - 1], k) + if out[|out| - 1] == OutputFrame(k) then 1 else 0
  }

  lemma {:induction false} BlocksCount(out: seq<Emit>, n: nat, k: nat)
    requires Blocks(out, n)
    ensures ResultsOf(out, k) == (if k < n then 1 else 0)
    ensures OutputsOf(out, k) <= if k < n then 1 else 0
    decreases n
  {
    if n > 0 {
      var before := out[..|out| - 1];
      if Blocks(before, n - 1) {
        BlocksCount(before, n - 1, k);
      } else {
        BlocksCount(before[..|before| - 1], n - 1, k);
      }
    }
  }

  /**
   Between steps, and after a clean end, every accepted run frame has been answered by at most one
   output frame and then exactly one result frame, in the order of acceptance.
   */
  lemma {:induction false} OneAnswerPerStep(s: State)
    requires Reachable(s) && (s.pc.Idle? || (s.pc.Exited? && !Failed(s.pc.ret)))
    ensures Blocks(s.out, |s.accepted|)
    ensures forall k: nat :: k < |s.accepted| ==> ResultsOf(s.out, k) == 1 && OutputsOf(s.out, k) <= 1
  {
    ReachableInv(s);
    forall k: nat | k < |s.accepted| ensures ResultsOf(s.out, k) == 1 && OutputsOf(s.out, k) <= 1 {
      BlocksCount(s.out, |s.accepted|, k);
    }
  }

  /** Always: no step has two results, and no step is answered that was not accepted. */
  lemma {:induction false} AtMostOneResult(s: State, k: nat)
    requires Reachable(s)
    ensures ResultsOf(s.out, k) <= if k < |s.accepted| then 1 else 0
  {
    ReachableInv(s);
    var out, n := s.out, |s.accepted|;
    if Blocks(out, n) {
      BlocksCount(out, n, k);
    } else if Blocks(out, n - 1) {
      BlocksCount(out, n - 1, k);
    } else {
      BlocksCount(out[..|out| - 1], n - 1, k);
    }
  }

  /**
   A step cancelled before its body had finished reports 137 exactly if the body ran to its end: a
   step whose scratch setup or parse failed, or whose body panicked, keeps the exit 1 or 2 of that. A program
   that parses never fails to, and one that does not is never run.
   */
  lemma {:induction false} CancelledStepsReport137(s: State, e: Emit)
    requires Reachable(s) && e in s.out && e.ResultFrame? && e.inTime
    ensures e.exit == KILLED_EXIT <==> e.cause.Returned?
    ensures e.step < |s.accepted| && (e.cause.ParseFailed? <==> !e.cause.ScratchFailed? && !s.accepted[e.step].parses)
  {
    ReachableInv(s);
  }

  /** A step is cancelled before its program is parsed. */
  lemma CancelledSetup() returns (s: State)
    ensures Reachable(s) && s.pc == Pump && s.out == [] && |s.accepted| == 1 && s.step == Step(0, Setup, true)
    ensures !s.accepted[0].parses
  {
    hide Reachable;
    var s0 := Init();
    InitReachable();
    var s1 := Next(s0, Main(Shake(true)));
    ReachableStep(s0, Main(Shake(true)));
    var run, signal := Main(Recv(Got(Run(PLAIN.(parses := false))), true)), Main(PumpRecv(Got(Signal), true));
    var s2 := Next(s1, run);
    ReachableStep(s1, run);
    s := Next(s2, signal);
    ReachableStep(s2, signal);
  }

  /** The program then does not parse, and the step reports 2. */
  lemma {:induction false} CancelledParseFailureReports2() returns (s: State)
    ensures Reachable(s) && s.out == [ResultFrame(0, 2, ParseFailed, true)]
  {
    hide Reachable;
    var s0 := CancelledSetup();
    var s1 := Next(s0, OnStep(ParseFails));
    ReachableStep(s0, OnStep(ParseFails));
    s := Next(s1, OnStep(ResultSent(true)));
    ReachableStep(s1, OnStep(ResultSent(true)));
  }

  /**
   The exit of a body that ran to its end is its own, or 137: that exactly if the step's context was
   cancelled when the return was looked at, or the body's own exit is 137.
   */
  lemma {:induction false} UncancelledStepsReportTheirExit(s: State, e: Emit)
    requires Reachable(s) && e in s.out && e.ResultFrame? && e.cause.Returned?
    ensures e.exit == KILLED_EXIT <==> e.cause.cancelled || e.cause.code == KILLED_EXIT
    ensures !e.cause.cancelled ==> e.exit == e.cause.code && !e.inTime
  {
    ReachableInv(s);
  }

  /** The moves that cancel a step before it is over. */
  predicate Cancels(a: Act)
  {
    match a
    case Main(PumpRecv(item, ok)) => item.Broken? || item == Got(Signal) || (item == Got(Hello) && !ok)
    case Main(GraceTimeout) => true
    case OnStep(TimesOut) => true
    case _ => false
  }

  ghost predicate Uncancelled(s: State)
  {
    && (s.step.Step? ==> s.step.id !in s.groups.cancelled)
    && (s.step.Step? && (s.step.phase.Collect? || s.step.phase.Closing?) && s.step.phase.cause.Returned? ==>
          !s.step.phase.cause.cancelled)
    && (forall e :: e in s.out && e.ResultFrame? && e.cause.Returned? ==> !e.cause.cancelled)
    && !s.pc.Teardown?
  }

  lemma UncancelledMain(s: State, m: MainAct)
    requires Control(s) && Contexts(s) && Uncancelled(s) && MainEnabled(s, m) && !Cancels(Main(m))
    ensures Uncancelled(MainNext(s, m))
  {
    assert MainNext(s, m).out == s.out;
  }

  lemma UncancelledStep(s: State, a: Act)
    requires Control(s) && Contexts(s) && Uncancelled(s) && Enabled(s, a) && !Cancels(a)
    ensures Uncancelled(Next(s, a))
  {
    hide ForegroundDone, Served, MainNext, MainEnabled, Moved;
    match a {
      case Main(m) => UncancelledMain(s, m);
      case OnStep(_) =>
      case OnCmd(_, _) =>
      case Tick(_) =>
    }
  }

  lemma {:induction false} UncancelledAfter(s: State, acts: seq<Act>)
    requires Inv(s) && Uncancelled(s) && IsRun(s, acts) && (forall i :: 0 <= i < |acts| ==> !Cancels(acts[i]))
    ensures Uncancelled(After(s, acts))
    decreases |acts|
  {
    hide Uncancelled, Next, Enabled, Cancels, Answered, Exits, Kept, Supervised;
    if acts != [] {
      InvStep(s, acts[0]);
      UncancelledStep(s, acts[0]);
      UncancelledAfter(Next(s, acts[0]), acts[1..]);
    }
  }

  // ---- Whose exit it is ----

  /** The step carries the exit that its body returned. */
  predicate Carries(s: State, k: nat, code: int)
  {
    && s.step.Step? && s.step.id == k
    && match s.step.phase
       case Ended(c) => c == code
       case Collect(cause, _) => cause.Returned? && cause.code == code
       case Closing(cause, _) => cause.Returned? && cause.code == code
       case _ => false
  }

  /** In the course of the run the body of step `k` returns with the exit. */
  ghost predicate Returns(s: State, acts: seq<Act>, k: nat, code: int)
    requires IsRun(s, acts)
    decreases |acts|
  {
    acts != [] &&
    ((acts[0] == OnStep(BodyReturns(code)) && s.step.id == k) || Returns(Next(s, acts[0]), acts[1..], k, code))
  }

  lemma CarriesOnStep(s: State, t: StepAct, k: nat, code: int)
    requires StepEnabled(s, t) && Carries(StepNext(s, t), k, code)
    ensures Carries(s, k, code) || (t == BodyReturns(code) && s.step.id == k)
  {
    hide ForegroundDone, Apply;
  }

  lemma OutOnStep(s: State, t: StepAct, e: Emit)
    requires StepEnabled(s, t) && e in StepNext(s, t).out && e.ResultFrame? && e.cause.Returned?
    ensures e in s.out || Carries(s, e.step, e.cause.code)
  {
    hide ForegroundDone, Apply;
  }

  lemma CarriesStep(s: State, a: Act, e: Emit)
    requires Enabled(s, a) && e.ResultFrame? && e.cause.Returned?
    ensures e in Next(s, a).out ==> e in s.out || Carries(s, e.step, e.cause.code)
    ensures Carries(Next(s, a), e.step, e.cause.code) ==>
      Carries(s, e.step, e.cause.code) || (a == OnStep(BodyReturns(e.cause.code)) && s.step.id == e.step)
  {
    hide ForegroundDone, Served, StepEnabled, StepNext, Apply, Moved;
    match a {
      case Main(m) => assert MainNext(s, m).out == s.out;
      case OnStep(t) =>
        if e in StepNext(s, t).out {
          OutOnStep(s, t, e);
        }
        if Carries(StepNext(s, t), e.step, e.cause.code) {
          CarriesOnStep(s, t, e.step, e.cause.code);
        }
      case OnCmd(_, _) =>
      case Tick(_) =>
    }
  }

  lemma {:induction false} ReturnsAfter(s: State, acts: seq<Act>, e: Emit)
    requires IsRun(s, acts) && e in After(s, acts).out && e.ResultFrame? && e.cause.Returned?
    ensures e in s.out || Carries(s, e.step, e.cause.code) || Returns(s, acts, e.step, e.cause.code)
    decreases |acts|
  {
    hide Next, Enabled, Carries;
    if acts != [] {
      CarriesStep(s, acts[0], e);
      ReturnsAfter(Next(s, acts[0]), acts[1..], e);
    }
  }

  /** A result that stands for a returned body has the code with which that step's own body returned. */
  lemma {:induction false} ResultIsOfItsBody(acts: seq<Act>, e: Emit)
    requires IsRun(Init(), acts) && e in After(Init(), acts).out && e.ResultFrame? && e.cause.Returned?
    ensures Returns(Init(), acts, e.step, e.cause.code)
  {
    ReturnsAfter(Init(), acts, e);
  }

  /** In a run without a signal, a timeout or a dead wire every body that returns reports its own exit. */
  lemma {:induction false} WithoutCancelsExitsAreOwn(acts: seq<Act>, e: Emit)
    requires IsRun(Init(), acts) && (forall i :: 0 <= i < |acts| ==> !Cancels(acts[i]))
    requires e in After(Init(), acts).out && e.ResultFrame? && e.cause.Returned?
    ensures e.exit == e.cause.code && Returns(Init(), acts, e.step, e.exit)
  {
    ResultIsOfItsBody(acts, e);
    UncancelledAfter(Init(), acts);
    InvAfter(Init(), acts);
  }
}
