/**
 The remote runner as a state machine: the frame loop, the step goroutine it spawns, and the reap on
 exit, around the process supervisor. One action is one indivisible move of one goroutine, so every
 interleaving is a run.

 Goroutines that the interpreter does not join are those of backgrounded statements and no others. The runner
 looks for such statements in the parsed program; `eval` can make them where the program shows none.
 */
module Runner {
  import opened Supervisor

  const WIRE_DEATH_GRACE: nat := 2000
  const REAP_INTERVAL: nat := 20
  const REAP_WINDOW: nat := 1000
  const KILLED_EXIT: int := 137

  // ---- The wire ----

  /**
   `ticket` says who sent the body; `background`: the program contains a statement ended by `&`; `hidden`: it
   may background a command all the same, as `eval 'sleep 9 &'` does; `parses`: it parses, or is not parsed.
   */
  datatype Body = Body(ticket: nat, background: bool, hidden: bool, parses: bool)

  predicate MayBackground(b: Body)
  {
    b.background || b.hidden
  }

  /** A body that parses and backgrounds nothing. */
  const PLAIN := Body(0, false, false, true)

  /** Frames on stdin; `Foreign` stands for the four kinds that only a runner may send. */
  datatype Frame = Hello | Run(body: Body) | File | Signal | Foreign

  /** What one read from the reader goroutine delivers. */
  datatype Item = Got(frame: Frame) | Eof | Broken

  /** Frames that close a step. `cause` and `inTime` record why the exit is what it is; they are not sent. */
  datatype Emit =
    | OutputFrame(step: nat)
    | ResultFrame(step: nat, exit: int, cause: Cause, inTime: bool)

  // ---- The goroutines ----

  /** `cancelled` records whether the step's context was cancelled when the return was looked at. */
  datatype Cause = ScratchFailed | ParseFailed | Panicked | Returned(code: int, cancelled: bool)

  datatype Ret = CleanEof | StreamEnd | WireCut | Violation | WriteFailed

  datatype Reap = First | Check | Sleep(until: nat)

  datatype Pc =
    | Handshake
    | Idle
    | Pump
    | Grace(until: nat)
    | Teardown(why: Ret)
    | Reaping(ret: Ret, at: Reap)
    | Exited(ret: Ret, diedAt: nat)

  datatype Phase =
    | Setup
    | InBody
    | Ended(code: int)
    | Collect(cause: Cause, exit: int)
    | Closing(cause: Cause, exit: int)
    | Finished(ok: bool)

  /** The step goroutine; `inTime` records a cancel that arrived before the body had finished. */
  datatype Step = NoStep | Step(id: nat, phase: Phase, inTime: bool)

  /** `cancelOf` is the step whose cancel is registered with the supervisor. */
  datatype State = State(
    pc: Pc,
    terminal: bool,
    step: Step,
    cancelOf: Option<nat>,
    accepted: seq<Body>,
    begun: set<nat>,
    sawBackground: bool,
    out: seq<Emit>,
    deadline: nat,
    groups: Groups)

  function Init(): State
  {
    State(Handshake, false, NoStep, None, [], {}, false, [], 0, Groups({}, map[], 0, 0, {}))
  }

  // ---- The main goroutine ----

  /** `ok` says whether the write or the file operation that a frame asks for succeeds. */
  datatype MainAct =
    | Shake(ok: bool)
    | Recv(item: Item, ok: bool)
    | PumpRecv(item: Item, ok: bool)
    | StepDone
    | GraceDone
    | GraceTimeout
    | Joined
    | ReapMove

  predicate StepFinished(s: State)
  {
    s.step.Step? && s.step.phase.Finished?
  }

  predicate MainEnabled(s: State, a: MainAct)
  {
    match a
    case Shake(_) => s.pc == Handshake
    case Recv(_, _) => s.pc == Idle
    case PumpRecv(_, _) => s.pc == Pump
    case StepDone => s.pc == Pump && StepFinished(s)
    case GraceDone => s.pc.Grace? && StepFinished(s)
    case GraceTimeout => s.pc.Grace? && s.pc.until <= s.groups.now
    case Joined => s.pc.Teardown? && StepFinished(s)
    case ReapMove => s.pc.Reaping? && (s.pc.at.Sleep? ==> s.pc.at.until <= s.groups.now)
  }

  /** cancelStep, alone or followed by killAll: it reaches whatever step has registered its cancel. */
  function CancelStep(s: State, thenKill: bool): Effect
  {
    match s.cancelOf
    case None => if thenKill then Kill else Quiet
    case Some(id) => if thenKill then CancelThenKill(id) else Cancel(id)
  }

  /** What the move does to the process groups. */
  function EffectOf(s: State, a: MainAct): Effect
    requires MainEnabled(s, a)
  {
    match a
    case PumpRecv(Broken, _) => CancelStep(s, true)
    case PumpRecv(Got(Signal), _) => CancelStep(s, false)
    case PumpRecv(Got(Hello), ok) => if ok then Quiet else CancelStep(s, false)
    case GraceTimeout => CancelStep(s, true)
    case StepDone => Cancel(s.step.id)
    case GraceDone => Cancel(s.step.id)
    case Joined => Cancel(s.step.id)
    case ReapMove => if s.pc.at.Check? then Quiet else Kill
    case _ => Quiet
  }

  /** A cancel that arrives while the step's body has not finished is in time. */
  function Noted(step: Step, e: Effect): Step
  {
    if (e.Cancel? || e.CancelThenKill?) && step.Step? && step.id == e.id && (step.phase.Setup? || step.phase.InBody?)
    then step.(inTime := true) else step
  }

  /** The deferred calls of runStep clear its cancel; `EffectOf` cancels its context. */
  function LeaveStep(s: State, pc: Pc): State
  {
    s.(pc := pc, step := NoStep, cancelOf := None)
  }

  function MainMove(s: State, a: MainAct): State
    requires MainEnabled(s, a)
  {
    match a
    case Shake(ok) => s.(pc := if ok then Idle else Reaping(Violation, First))
    case Recv(item, ok) => ReceiveIdle(s, item, ok)
    case PumpRecv(item, ok) => ReceiveInStep(s, item, ok)
    case StepDone => LeaveStep(s, if s.step.phase.ok then Idle else Reaping(WriteFailed, First))
    case GraceDone => LeaveStep(s, Reaping(if s.step.phase.ok then StreamEnd else WriteFailed, First))
    case GraceTimeout => s.(pc := Teardown(WireCut))
    case Joined => LeaveStep(s, Reaping(s.pc.why, First))
    case ReapMove =>
      match s.pc.at
      case First =>
        if s.sawBackground then s.(deadline := s.groups.now + REAP_WINDOW, pc := Reaping(s.pc.ret, Check))
        else s.(pc := Exited(s.pc.ret, s.groups.now))
      case Check =>
        if s.groups.now < s.deadline then s.(pc := Reaping(s.pc.ret, Sleep(s.groups.now + REAP_INTERVAL)))
        else s.(pc := Exited(s.pc.ret, s.groups.now))
      case Sleep(_) => s.(pc := Reaping(s.pc.ret, Check))
  }

  /** One frame between steps. */
  function ReceiveIdle(s: State, item: Item, ok: bool): State
  {
    match item
    case Eof => s.(pc := Reaping(CleanEof, First), terminal := true)
    case Broken => s.(pc := Reaping(Violation, First), terminal := true)
    case Got(Run(body)) =>
      s.(pc := Pump, step := Step(|s.accepted|, Setup, false), cancelOf := Some(|s.accepted|), accepted := s.accepted + [body])
    case Got(Hello) => if ok then s else s.(pc := Reaping(WriteFailed, First))
    case Got(File) => if ok then s else s.(pc := Reaping(WriteFailed, First))
    case Got(Signal) => s
    case Got(Foreign) => s.(pc := Reaping(Violation, First))
  }

  /** One frame while a step runs; run, file and foreign frames are ignored. */
  function ReceiveInStep(s: State, item: Item, ok: bool): State
  {
    match item
    case Eof => s.(pc := Grace(s.groups.now + WIRE_DEATH_GRACE), terminal := true)
    case Broken => s.(pc := Teardown(Violation), terminal := true)
    case Got(Hello) => if ok then s else s.(pc := Teardown(WriteFailed))
    case Got(_) => s
  }

  function MainNext(s: State, a: MainAct): State
    requires MainEnabled(s, a)
  {
    var e := EffectOf(s, a);
    var t := MainMove(s, a);
    t.(step := Noted(t.step, e), groups := Apply(s.groups, e))
  }

  // ---- The step goroutine ----

  datatype StepAct =
    | SetupFails(ok: bool)
    | ParseFails
    | BodyStarts
    | BodyReturns(code: int)
    | BodyPanics
    | ContextChecked
    | OutputSent(ok: bool)
    | ResultSent(ok: bool)
    | TimesOut

  /** The interpreter returns only when the foreground commands have been waited for. */
  ghost predicate ForegroundDone(g: Groups)
  {
    forall p :: p in g.cmds && !g.cmds[p].background ==> g.cmds[p].life.Waited?
  }

  ghost predicate StepEnabled(s: State, a: StepAct)
  {
    && s.step.Step?
    && s.step.id < |s.accepted|
    && match a
       case SetupFails(_) => s.step.phase.Setup?
       case ParseFails => s.step.phase.Setup? && !s.accepted[s.step.id].parses
       case BodyStarts => s.step.phase.Setup? && s.accepted[s.step.id].parses
       case BodyReturns(_) => s.step.phase.InBody? && ForegroundDone(s.groups)
       case BodyPanics => s.step.phase.InBody? && ForegroundDone(s.groups)
       case ContextChecked => s.step.phase.Ended?
       case OutputSent(_) => s.step.phase.Collect?
       case ResultSent(_) => s.step.phase.Collect? || s.step.phase.Closing?
       case TimesOut => true
  }

  function At(s: State, phase: Phase): State
    requires s.step.Step?
  {
    s.(step := s.step.(phase := phase))
  }

  /** A write that fails ends the step with an error; one that succeeds appends its frame. */
  function Send(s: State, e: Emit, ok: bool, phase: Phase): State
    requires s.step.Step?
  {
    if ok then At(s.(out := s.out + [e]), phase) else At(s, Finished(false))
  }

  ghost function StepNext(s: State, a: StepAct): State
    requires StepEnabled(s, a)
  {
    match a
    case SetupFails(ok) => Send(s, ResultFrame(s.step.id, 1, ScratchFailed, s.step.inTime), ok, Finished(true))
    case ParseFails => At(s, Collect(ParseFailed, 2))
    case BodyStarts =>
      At(s, InBody).(sawBackground := s.sawBackground || s.accepted[s.step.id].background, begun := s.begun + {s.step.id})
    case BodyReturns(code) => At(s, Ended(code))
    case BodyPanics => At(s, Collect(Panicked, 2))
    case ContextChecked =>
      var cancelled := s.step.id in s.groups.cancelled;
      At(s, Collect(Returned(s.step.phase.code, cancelled), if cancelled then KILLED_EXIT else s.step.phase.code))
    case OutputSent(ok) => Send(s, OutputFrame(s.step.id), ok, Closing(s.step.phase.cause, s.step.phase.exit))
    case ResultSent(ok) =>
      Send(s, ResultFrame(s.step.id, s.step.phase.exit, s.step.phase.cause, s.step.inTime), ok, Finished(true))
    case TimesOut => s.(groups := Apply(s.groups, Cancel(s.step.id)), step := Noted(s.step, Cancel(s.step.id)))
  }

  // ---- Runs ----

  datatype Act = Main(m: MainAct) | OnStep(t: StepAct) | OnCmd(pgid: nat, c: CmdAct) | Tick(ms: nat)

  /** Foreground commands start under a running body; the goroutine of a `&` may start its command late. */
  predicate MaySpawn(s: State, a: CmdAct)
  {
    a.Spawn? ==>
      if a.background then a.step in s.begun && a.step < |s.accepted| && MayBackground(s.accepted[a.step])
      else s.step.Step? && s.step.id == a.step && s.step.phase.InBody?
  }

  /** The goroutines of the runner end with it: of its commands only the processes live on. */
  ghost predicate Enabled(s: State, a: Act)
  {
    match a
    case Main(m) => MainEnabled(s, m)
    case OnStep(t) => StepEnabled(s, t)
    case OnCmd(p, c) => CanMove(s.groups, p, c) && MaySpawn(s, c) && (s.pc.Exited? ==> c.Dies?)
    case Tick(ms) => s.pc.Exited? || Served(s.groups, ms)
  }

  ghost function Next(s: State, a: Act): State
    requires Enabled(s, a)
  {
    match a
    case Main(m) => MainNext(s, m)
    case OnStep(t) => StepNext(s, t)
    case OnCmd(p, c) => s.(groups := Move(s.groups, p, c))
    case Tick(ms) => s.(groups := Pass(s.groups, ms))
  }

  ghost predicate IsRun(s: State, acts: seq<Act>)
    decreases |acts|
  {
    acts == [] || (Enabled(s, acts[0]) && IsRun(Next(s, acts[0]), acts[1..]))
  }

  ghost function After(s: State, acts: seq<Act>): State
    requires IsRun(s, acts)
    decreases |acts|
  {
    if acts == [] then s else After(Next(s, acts[0]), acts[1..])
  }

  ghost predicate Reachable(s: State)
  {
    exists acts :: IsRun(Init(), acts) && After(Init(), acts) == s
  }
}
