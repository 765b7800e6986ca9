/**
 One connection: the daemon driving one step, the stream to the runner, and the runner.

 The daemon follows a plan: the frames it has for the runner, in order, of which some may be too long to
 be sent, and what the world will let it do. Module `Daemon` makes such a plan of a step and shows that
 the daemon here is `Client.RunStep`. The stream is a queue of lines. At any time it can be cut, which
 loses a tail and leaves the end of the stream or a torn line, and garbage lines can appear in it or
 destroy others; no garbage is a frame. What the runner sends is not tied to what the daemon reads, so
 that the theorems hold whatever that is.
 */
module Protocol {
  import R = Runner
  import S = Supervisor
  import P = RunnerProofs

  /**
   `shapes` are the daemon's frames as the runner sees them; `over` says which are too long for a line,
   `writable` how many can be written before stdin breaks, `welcome` whether the runner's greeting is
   accepted, and `back` whether the outcome of stopping after so many frames lets the caller fall back.
   */
  datatype Plan = Plan(shapes: seq<R.Frame>, over: nat -> bool, writable: nat, welcome: bool, back: nat -> bool)

  /** A step is: a hello, files, and the run frame last; and a run frame that breaks in the writing allows no falling back. */
  ghost predicate Sound(p: Plan)
  {
    && |p.shapes| > 1 && p.shapes[0] == R.Hello
    && (forall i :: 0 <= i < |p.shapes| ==> (p.shapes[i].Run? <==> i == |p.shapes| - 1) && p.shapes[i] != R.Signal)
    && (p.welcome && p.writable < |p.shapes| ==> !p.back(|p.shapes|))
  }

  /** Stopped short of the answer, or concluded by it. */
  datatype End = Stopped | Answered

  /** `sent` counts the frames handed to the encoder; `met`: the runner's hello has been accepted. */
  datatype Conn = Conn(
    plan: Plan, sent: nat, met: bool, ended: S.Option<End>,
    open: bool, cancelled: bool, termSent: bool, killSent: bool,
    disturbed: bool, pipe: seq<R.Item>, runner: R.State, starts: nat)

  function Init(plan: Plan): Conn
  {
    Conn(plan, 0, false, S.None, true, false, false, false, false, [], R.Init(), 0)
  }

  predicate RunSent(c: Conn)
  {
    c.sent == |c.plan.shapes|
  }

  /** The read loop runs, and the cancel watcher beside it. */
  predicate Driving(c: Conn)
  {
    c.ended.None? && RunSent(c)
  }

  /** The daemon is done, with an outcome after which the caller runs the body elsewhere. */
  predicate FellBack(c: Conn)
  {
    c.ended == S.Some(Stopped) && c.plan.back(c.sent)
  }

  /** `lands` says whether the line of a failed write reaches the stream all the same. */
  datatype Move =
    | SayHello(lands: bool)
    | ReadGreeting
    | SendNext(lands: bool)
    | Conclude
    | SendTerm
    | SendKill
    | CloseStdin

  datatype Act =
    | Daemon(m: Move)
    | CancelContext
    | Cut(keep: nat, torn: bool)
    | Garble(at: nat, destroys: bool)
    | Deliver(ok: bool)
    | Greeted
    | GreetingFails
    | SkipNoise
    | Inside(a: R.Act)

  /** The runner's own moves, apart from reading its stdin. */
  predicate ReadsNothing(a: R.Act)
  {
    !(a.Main? && (a.m.Shake? || a.m.Recv? || a.m.PumpRecv?))
  }

  predicate Listening(r: R.State)
  {
    r.pc.Idle? || r.pc.Pump?
  }

  function Read(r: R.State, item: R.Item, ok: bool): R.Act
  {
    R.Main(if r.pc.Idle? then R.Recv(item, ok) else R.PumpRecv(item, ok))
  }

  // ---- The daemon's moves ----

  predicate CanMove(c: Conn, m: Move)
  {
    match m
    case SayHello(_) => c.sent == 0 < |c.plan.shapes| && c.ended.None?
    case ReadGreeting => c.sent == 1 && !c.met && c.ended.None?
    case SendNext(_) => c.met && c.ended.None? && c.sent < |c.plan.shapes|
    case Conclude => Driving(c)
    case SendTerm => Driving(c) && c.cancelled && !c.termSent
    case SendKill => Driving(c) && c.termSent && !c.killSent
    case CloseStdin => c.ended.Some? && c.open
  }

  function Push(c: Conn, f: R.Frame): (n: Conn)
    ensures n.(pipe := c.pipe) == c
  {
    if c.open then c.(pipe := c.pipe + [R.Got(f)]) else c
  }

  /** The next frame is handed to the encoder; when stdin is broken the step is over. */
  function Written(c: Conn, lands: bool): Conn
    requires c.sent < |c.plan.shapes|
  {
    var t := c.(sent := c.sent + 1);
    var pushed := Push(t, c.plan.shapes[c.sent]);
    if t.sent <= c.plan.writable then pushed
    else (if lands then pushed else t).(ended := S.Some(Stopped), disturbed := true)
  }

  /** It touches neither the runner nor the context, and nothing but the stream once it is done. */
  function Moved(c: Conn, m: Move): (n: Conn)
    requires CanMove(c, m)
    ensures n.plan == c.plan && n.runner == c.runner && n.starts == c.starts && n.cancelled == c.cancelled
    ensures c.ended.Some? ==> n.ended == c.ended && n.sent == c.sent
    ensures c.disturbed ==> n.disturbed
  {
    match m
    case SayHello(lands) => Written(c, lands)
    case ReadGreeting => if c.plan.welcome then c.(met := true) else c.(ended := S.Some(Stopped))
    case SendNext(lands) => if c.plan.over(c.sent) then c.(ended := S.Some(Stopped)) else Written(c, lands)
    case Conclude => c.(ended := S.Some(Answered))
    case SendTerm => Push(c, R.Signal).(termSent := true)
    case SendKill => Push(c, R.Signal).(killSent := true)
    case CloseStdin => c.(pipe := c.pipe + [R.Eof], open := false)
  }

  // ---- Everybody's ----

  ghost predicate Enabled(c: Conn, a: Act)
  {
    match a
    case Daemon(m) => CanMove(c, m)
    case CancelContext => true
    case Cut(keep, _) => c.open && keep <= |c.pipe|
    case Garble(at, destroys) => at <= |c.pipe| && (destroys ==> at < |c.pipe|)
    case Deliver(_) => c.pipe != [] && Listening(c.runner)
    case Greeted => c.pipe != [] && c.pipe[0] == R.Got(R.Hello) && c.runner.pc.Handshake?
    case GreetingFails => c.pipe != [] && c.runner.pc.Handshake?
    case SkipNoise => c.pipe != [] && c.pipe[0].Broken? && c.runner.pc.Handshake?
    case Inside(r) => ReadsNothing(r) && R.Enabled(c.runner, r)
  }

  ghost function Next(c: Conn, a: Act): Conn
    requires Enabled(c, a)
  {
    match a
    case Daemon(m) => Moved(c, m)
    case CancelContext => c.(cancelled := true)
    case Cut(keep, torn) => c.(pipe := c.pipe[..keep] + [if torn then R.Broken else R.Eof], open := false, disturbed := true)
    case Garble(at, destroys) =>
      c.(pipe := c.pipe[..at] + [R.Broken] + c.pipe[if destroys then at + 1 else at..], disturbed := true)
    case Deliver(ok) => c.(pipe := c.pipe[1..], runner := R.Next(c.runner, Read(c.runner, c.pipe[0], ok)))
    case Greeted => c.(pipe := c.pipe[1..], runner := R.Next(c.runner, R.Main(R.Shake(true))))
    case GreetingFails => c.(runner := R.Next(c.runner, R.Main(R.Shake(false))))
    case SkipNoise => c.(pipe := c.pipe[1..])
    case Inside(r) =>
      c.(runner := R.Next(c.runner, r), starts := if r == R.OnStep(R.BodyStarts) then c.starts + 1 else c.starts)
  }

  ghost predicate IsRun(c: Conn, acts: seq<Act>)
    decreases |acts|
  {
    acts == [] || (Enabled(c, acts[0]) && IsRun(Next(c, acts[0]), acts[1..]))
  }

  ghost function After(c: Conn, acts: seq<Act>): Conn
    requires IsRun(c, acts)
    decreases |acts|
  {
    if acts == [] then c else After(Next(c, acts[0]), acts[1..])
  }

  ghost predicate Reachable(c: Conn)
  {
    exists acts :: IsRun(Init(c.plan), acts) && After(Init(c.plan), acts) == c
  }

  // ---- What every run keeps ----

  predicate IsBody(item: R.Item)
  {
    item.Got? && item.frame.Run?
  }

  function Bodies(pipe: seq<R.Item>): nat
  {
    if pipe == [] then 0 else (if IsBody(pipe[0]) then 1 else 0) + Bodies(pipe[1..])
  }

  lemma {:induction false} BodiesJoin(a: seq<R.Item>, b: seq<R.Item>)
    ensures Bodies(a + b) == Bodies(a) + Bodies(b)
    decreases |a|
  {
    if a == [] {
      assert a + b == b;
    } else {
      assert (a + b)[1..] == a[1..] + b;
      BodiesJoin(a[1..], b);
    }
  }

  lemma BodiesOne(item: R.Item)
    ensures Bodies([item]) == if IsBody(item) then 1 else 0
  {
    assert [item][1..] == [];
  }

  /** A body starts once for an accepted step that has left its setup. */
  ghost predicate Started(c: Conn)
  {
    c.starts + (if c.runner.step.Step? && c.runner.step.phase.Setup? then 1 else 0) <= |c.runner.accepted|
  }

  /** No more bodies are on their way or accepted than run frames were sent. */
  ghost predicate Counted(c: Conn)
  {
    Bodies(c.pipe) + |c.runner.accepted| <= if RunSent(c) then 1 else 0
  }

  /** Where the daemon can stop short, having handed over `n` frames. */
  predicate StopsAt(p: Plan, n: nat)
  {
    && 1 <= n <= |p.shapes|
    && (n > 1 ==> p.welcome && n - 1 <= p.writable)
    && (n <= p.writable && p.welcome ==> n < |p.shapes| && p.over(n))
  }

  /** The frames handed over fit, and the daemon has not got further than it could. */
  ghost predicate Told(c: Conn)
  {
    && c.sent <= |c.plan.shapes|
    && (forall i :: 1 <= i < c.sent ==> !c.plan.over(i))
    && (c.met ==> c.sent > 0 && c.plan.welcome)
    && (c.sent > 1 ==> c.met)
    && (c.termSent ==> RunSent(c)) && (c.killSent ==> c.termSent)
    && match c.ended
       case None => c.sent <= c.plan.writable
       case Some(Stopped) => StopsAt(c.plan, c.sent)
       case Some(Answered) => RunSent(c) && c.sent <= c.plan.writable && c.plan.welcome
  }

  /** Only reading accepts a body, and only a body's own move starts it. */
  lemma RunnerAccepts(r: R.State, a: R.Act)
    requires P.Control(r) && R.Enabled(r, a)
    ensures
      var t := R.Next(r, a);
      && |t.accepted| <= |r.accepted| + (if a.Main? && a.m.Recv? && IsBody(a.m.item) then 1 else 0)
      && |r.accepted| <= |t.accepted|
      && (a != R.OnStep(R.BodyStarts) && |t.accepted| == |r.accepted| && t.step.Step? && t.step.phase.Setup?
          ==> r.step.Step? && r.step.phase.Setup?)
      && (a == R.OnStep(R.BodyStarts) ==>
          r.step.Step? && r.step.phase.Setup? && |t.accepted| == |r.accepted| && !(t.step.Step? && t.step.phase.Setup?))
  {
    hide P.Control, S.Apply, R.ForegroundDone;
    match a {
      case Main(m) =>
      case OnStep(t) =>
      case OnCmd(_, _) =>
      case Tick(_) =>
    }
  }

  ghost predicate Safe(c: Conn)
  {
    Sound(c.plan) && P.Inv(c.runner) && Started(c) && Counted(c) && Told(c)
  }

  /** The move the connection makes in the runner, if any. */
  ghost function RunnerMove(c: Conn, a: Act): S.Option<R.Act>
    requires Enabled(c, a)
  {
    match a
    case Deliver(ok) => S.Some(Read(c.runner, c.pipe[0], ok))
    case Greeted => S.Some(R.Main(R.Shake(true)))
    case GreetingFails => S.Some(R.Main(R.Shake(false)))
    case Inside(r) => S.Some(r)
    case _ => S.None
  }

  lemma RunnerMoves(c: Conn, a: Act)
    requires Enabled(c, a)
    ensures
      match RunnerMove(c, a)
      case None => Next(c, a).runner == c.runner && Next(c, a).starts == c.starts
      case Some(r) =>
        && R.Enabled(c.runner, r) && Next(c, a).runner == R.Next(c.runner, r)
        && Next(c, a).starts == c.starts + if r == R.OnStep(R.BodyStarts) then 1 else 0
  {
    hide R.Next, Moved, CanMove;
  }

  lemma StartedStep(c: Conn, a: Act)
    requires P.Inv(c.runner) && Started(c) && Enabled(c, a)
    ensures Started(Next(c, a))
  {
    RunnerMoves(c, a);
    var r := RunnerMove(c, a);
    if r.Some? {
      RunnerAccepts(c.runner, r.value);
    }
    hide Next, Enabled, RunnerMove, R.Next, R.Enabled, P.Inv;
  }

  /** The line a move of the daemon puts on the stream. */
  function LineOf(c: Conn, m: Move): R.Item
    requires m.SendNext? ==> c.sent < |c.plan.shapes|
  {
    match m
    case SayHello(_) => R.Got(R.Hello)
    case SendNext(_) => R.Got(c.plan.shapes[c.sent])
    case CloseStdin => R.Eof
    case _ => R.Got(R.Signal)
  }

  predicate Sends(m: Move)
  {
    !m.ReadGreeting? && !m.Conclude?
  }

  /** A move of the daemon puts at most its line on the stream. */
  lemma MoveStep(c: Conn, m: Move)
    requires Sound(c.plan) && CanMove(c, m)
    ensures Moved(c, m).pipe == c.pipe || (Sends(m) && Moved(c, m).pipe == c.pipe + [LineOf(c, m)])
    ensures c.sent <= Moved(c, m).sent <= c.sent + if m.SayHello? || m.SendNext? then 1 else 0
    ensures Moved(c, m).pipe != c.pipe && m.SendNext? ==> Moved(c, m).sent == c.sent + 1
  {
    assert c.plan.shapes[0] == R.Hello;
    hide Sound;
    match m {
      case SayHello(lands) => WrittenStep(c, lands);
      case SendNext(lands) => WrittenStep(c, lands);
      case _ =>
    }
  }

  lemma WrittenStep(c: Conn, lands: bool)
    requires c.sent < |c.plan.shapes|
    ensures
      var n := Written(c, lands);
      && n.sent == c.sent + 1
      && (n.pipe == c.pipe || n.pipe == c.pipe + [R.Got(c.plan.shapes[c.sent])])
  {
  }

  /** What an act does to the queue of lines. */
  lemma PipeStep(c: Conn, a: Act)
    requires Enabled(c, a)
    ensures
      var n := Next(c, a);
      match a
      case Daemon(m) => n == Moved(c, m)
      case Cut(keep, torn) => n.pipe == c.pipe[..keep] + [if torn then R.Broken else R.Eof]
      case Garble(at, destroys) => n.pipe == c.pipe[..at] + [R.Broken] + c.pipe[if destroys then at + 1 else at..]
      case Deliver(_) => n.pipe == c.pipe[1..]
      case Greeted => n.pipe == c.pipe[1..]
      case SkipNoise => n.pipe == c.pipe[1..]
      case _ => n.pipe == c.pipe
    ensures !a.Daemon? ==> Next(c, a).sent == c.sent
  {
    hide R.Next, R.Enabled, Moved, CanMove;
  }

  lemma SliceBodies(pipe: seq<R.Item>, keep: nat, from: nat)
    requires keep <= from <= |pipe|
    ensures Bodies(pipe[..keep]) + Bodies(pipe[from..]) <= Bodies(pipe)
  {
    assert pipe == pipe[..keep] + (pipe[keep..from] + pipe[from..]);
    BodiesJoin(pipe[..keep], pipe[keep..from] + pipe[from..]);
    BodiesJoin(pipe[keep..from], pipe[from..]);
  }

  /** A body is pushed only by the frame that completes the plan. */
  lemma LineBodies(c: Conn, m: Move)
    requires Sound(c.plan) && CanMove(c, m) && Sends(m)
    ensures Bodies([LineOf(c, m)]) == if m.SendNext? && c.sent == |c.plan.shapes| - 1 then 1 else 0
  {
    BodiesOne(LineOf(c, m));
  }

  /** Once it is done the daemon hands over nothing more, and its end stays. */
  lemma EndedStays(c: Conn, a: Act)
    requires Enabled(c, a)
    ensures c.ended.Some? ==> Next(c, a).ended == c.ended && Next(c, a).sent == c.sent
    ensures Next(c, a).plan == c.plan
  {
    hide R.Next, R.Enabled, Read, Moved, CanMove;
  }

  lemma CutBodies(pipe: seq<R.Item>, keep: nat, from: nat, item: R.Item)
    requires keep <= from <= |pipe| && !IsBody(item)
    ensures Bodies(pipe[..keep] + [item]) <= Bodies(pipe)
    ensures Bodies(pipe[..keep] + [item] + pipe[from..]) <= Bodies(pipe)
  {
    BodiesJoin(pipe[..keep] + [item], pipe[from..]);
    BodiesJoin(pipe[..keep], [item]);
    BodiesOne(item);
    SliceBodies(pipe, keep, from);
  }

  lemma RestBodies(pipe: seq<R.Item>)
    requires pipe != []
    ensures Bodies(pipe) == Bodies(pipe[1..]) + if IsBody(pipe[0]) then 1 else 0
  {
  }

  /** A move of the daemon adds a body only by the frame after which its run frame counts as sent, and only once. */
  lemma MoveBodies(c: Conn, m: Move)
    requires Sound(c.plan) && CanMove(c, m)
    ensures
      var n := Moved(c, m);
      Bodies(n.pipe) <= Bodies(c.pipe) + if !RunSent(c) && RunSent(n) then 1 else 0
    ensures RunSent(c) ==> RunSent(Moved(c, m))
  {
    MoveStep(c, m);
    if Sends(m) {
      BodiesJoin(c.pipe, [LineOf(c, m)]);
      LineBodies(c, m);
    }
    hide Moved, LineOf, Bodies;
  }

  lemma QueueStep(c: Conn, a: Act)
    requires Sound(c.plan) && Enabled(c, a)
    ensures Bodies(Next(c, a).pipe) + (if a.Deliver? && IsBody(c.pipe[0]) then 1 else 0)
      <= Bodies(c.pipe) + if !RunSent(c) && RunSent(Next(c, a)) then 1 else 0
    ensures RunSent(c) ==> RunSent(Next(c, a))
  {
    PipeStep(c, a);
    EndedStays(c, a);
    match a {
      case Daemon(m) => MoveBodies(c, m);
      case Cut(keep, torn) => CutBodies(c.pipe, keep, |c.pipe|, if torn then R.Broken else R.Eof);
      case Garble(at, destroys) => CutBodies(c.pipe, at, if destroys then at + 1 else at, R.Broken);
      case Deliver(_) => RestBodies(c.pipe);
      case Greeted => RestBodies(c.pipe);
      case SkipNoise => RestBodies(c.pipe);
      case _ =>
    }
    hide Next, R.Next, R.Enabled, Moved, Bodies, Sound;
  }

  lemma CountedStep(c: Conn, a: Act)
    requires Safe(c) && Enabled(c, a)
    ensures Counted(Next(c, a))
  {
    QueueStep(c, a);
    RunnerMoves(c, a);
    var r := RunnerMove(c, a);
    if r.Some? {
      RunnerAccepts(c.runner, r.value);
      OnlyDeliveryReads(c, a);
    }
    hide Next, Enabled, RunnerMove, R.Next, R.Enabled, P.Inv, Bodies, Told, RunSent, Sound;
  }

  lemma OnlyDeliveryReads(c: Conn, a: Act)
    requires Enabled(c, a) && RunnerMove(c, a).Some?
    ensures
      var r := RunnerMove(c, a).value;
      r.Main? && r.m.Recv? && IsBody(r.m.item) ==> a.Deliver? && IsBody(c.pipe[0])
  {
    hide R.Enabled;
  }

  lemma MoveTold(c: Conn, m: Move)
    requires Sound(c.plan) && Told(c) && CanMove(c, m)
    ensures Told(Moved(c, m))
  {
  }

  lemma ToldStep(c: Conn, a: Act)
    requires Sound(c.plan) && Told(c) && Enabled(c, a)
    ensures Told(Next(c, a))
  {
    hide R.Next, R.Enabled, Moved, CanMove;
    if a.Daemon? {
      MoveTold(c, a.m);
    }
  }

  lemma SafeStep(c: Conn, a: Act)
    requires Safe(c) && Enabled(c, a)
    ensures Safe(Next(c, a))
  {
    RunnerMoves(c, a);
    var r := RunnerMove(c, a);
    if r.Some? {
      P.InvStep(c.runner, r.value);
    }
    StartedStep(c, a);
    CountedStep(c, a);
    ToldStep(c, a);
    hide Next, Enabled, RunnerMove, R.Next, R.Enabled, P.Inv, Started, Counted, Told;
  }

  // ---- Cancellation over an undisturbed stream ----

  const SIGNAL := R.Got(R.Signal)

  /** A signal in the queue follows the run frame, in the queue or already accepted. */
  ghost predicate Follows(pipe: seq<R.Item>, accepted: bool)
  {
    forall i :: 0 <= i < |pipe| && pipe[i] == SIGNAL ==> accepted || Bodies(pipe[..i]) > 0
  }

  /** The run frame is not lost, and a TERM that was sent is still on its way or has cancelled the step. */
  ghost predicate Tracked(c: Conn)
  {
    && Follows(c.pipe, c.runner.accepted != [])
    && (RunSent(c) && c.open ==> c.runner.accepted != [] || Bodies(c.pipe) > 0)
    && (c.open || c.ended.Some?)
    && (c.termSent ==> SIGNAL in c.pipe || 0 in c.runner.groups.cancelled)
  }

  lemma FollowsAppend(pipe: seq<R.Item>, accepted: bool, item: R.Item)
    requires Follows(pipe, accepted) && (item == SIGNAL ==> accepted || Bodies(pipe) > 0)
    ensures Follows(pipe + [item], accepted)
  {
    var longer := pipe + [item];
    forall i | 0 <= i < |longer| && longer[i] == SIGNAL ensures accepted || Bodies(longer[..i]) > 0 {
      if i < |pipe| {
        assert longer[..i] == pipe[..i];
      } else {
        assert longer[..i] == pipe;
      }
    }
  }

  lemma FollowsRest(pipe: seq<R.Item>, accepted: bool)
    requires pipe != [] && Follows(pipe, accepted)
    ensures Follows(pipe[1..], accepted || IsBody(pipe[0]))
  {
    var rest := pipe[1..];
    forall i | 0 <= i < |rest| && rest[i] == SIGNAL ensures accepted || IsBody(pipe[0]) || Bodies(rest[..i]) > 0 {
      assert pipe[i + 1] == SIGNAL && pipe[..i + 1][1..] == rest[..i] && pipe[..i + 1][0] == pipe[0];
    }
  }

  /** Nothing the runner does forgets a cancel. */
  lemma CancelsStay(r: R.State, a: R.Act)
    requires P.Control(r) && R.Enabled(r, a)
    ensures r.groups.cancelled <= R.Next(r, a).groups.cancelled
    ensures r.accepted != [] ==> R.Next(r, a).accepted != []
  {
    match a {
      case Main(m) => P.CancelledBy(r, m);
      case OnStep(_) =>
      case OnCmd(_, _) =>
      case Tick(_) =>
    }
  }

  /** A signal that is read cancels the one step there is, whether it is running or already over. */
  lemma SignalRead(c: Conn, ok: bool)
    requires Safe(c) && Follows(c.pipe, c.runner.accepted != [])
    requires c.pipe != [] && c.pipe[0] == SIGNAL && Listening(c.runner)
    ensures 0 in R.Next(c.runner, Read(c.runner, SIGNAL, ok)).groups.cancelled
  {
    var r := c.runner;
    assert c.pipe[..0] == [] && r.accepted != [];
    assert |r.accepted| == 1;
    assert R.Enabled(r, Read(r, SIGNAL, ok));
    if r.pc.Pump? {
      assert r.step.Step? && r.step.id == 0 && r.cancelOf == S.Some(0);
      assert R.EffectOf(r, R.PumpRecv(SIGNAL, ok)) == S.Cancel(0);
    } else {
      assert r.step.NoStep?;
      CancelsStay(r, Read(r, SIGNAL, ok));
    }
  }

  /** A run frame that is read is accepted: no step runs yet. */
  lemma BodyRead(c: Conn, ok: bool)
    requires Safe(c) && c.pipe != [] && IsBody(c.pipe[0]) && Listening(c.runner)
    ensures R.Next(c.runner, Read(c.runner, c.pipe[0], ok)).accepted != []
  {
    assert Bodies(c.pipe) > 0 && c.runner.accepted == [];
    assert !c.runner.pc.Pump?;
  }

  lemma TrackedDeliver(c: Conn, ok: bool)
    requires Safe(c) && Tracked(c) && Enabled(c, Deliver(ok))
    ensures Tracked(Next(c, Deliver(ok)))
  {
    hide Told, Started, R.Next;
    var head := c.pipe[0];
    var act := Read(c.runner, head, ok);
    RunnerMoves(c, Deliver(ok));
    var r := R.Next(c.runner, act);
    hide R.Enabled;
    assert Next(c, Deliver(ok)) == c.(pipe := c.pipe[1..], runner := r);
    CancelsStay(c.runner, act);
    FollowsRest(c.pipe, c.runner.accepted != []);
    if head == SIGNAL {
      SignalRead(c, ok);
    } else if IsBody(head) {
      BodyRead(c, ok);
    }
    assert head != SIGNAL && SIGNAL in c.pipe ==> SIGNAL in c.pipe[1..] by {
      assert c.pipe == [head] + c.pipe[1..];
    }
    hide Next, Read, Safe;
    assert Follows(c.pipe[1..], r.accepted != []);
  }

  /** A line of the daemon's reaches an undisturbed stream, and what it is. */
  lemma SendLands(c: Conn, m: Move)
    requires Sound(c.plan) && Told(c) && CanMove(c, m) && Sends(m) && (c.open || c.ended.Some?) && !Moved(c, m).disturbed
    ensures
      var n := Moved(c, m);
      && (if m.SendNext? && n.ended.Some? then n.pipe == c.pipe && n.sent == c.sent else n.pipe == c.pipe + [LineOf(c, m)])
      && (IsBody(LineOf(c, m)) <==> m.SendNext? && c.sent == |c.plan.shapes| - 1)
      && (LineOf(c, m) == SIGNAL <==> m.SendTerm? || m.SendKill?)
      && (!m.SendNext? && !m.SayHello? ==> n.sent == c.sent)
      && (m.SayHello? ==> !RunSent(n))
      && (m.SendNext? && n.ended.None? ==> n.sent == c.sent + 1)
      && n.termSent == (c.termSent || m.SendTerm?)
      && n.open == (c.open && !m.CloseStdin?)
  {
  }

  lemma TrackedSend(c: Conn, m: Move)
    requires Safe(c) && Tracked(c) && CanMove(c, m) && Sends(m) && !Moved(c, m).disturbed
    ensures Tracked(Moved(c, m))
  {
    SendLands(c, m);
    var item := LineOf(c, m);
    assert item == SIGNAL ==> RunSent(c) && c.open;
    hide Moved, CanMove, LineOf, Told, Started, Counted, P.Inv, Sound;
    if Moved(c, m).pipe != c.pipe {
      FollowsAppend(c.pipe, c.runner.accepted != [], item);
      BodiesJoin(c.pipe, [item]);
      BodiesOne(item);
      assert SIGNAL in c.pipe ==> SIGNAL in c.pipe + [item];
    }
  }

  lemma TrackedQuiet(c: Conn, m: Move)
    requires Tracked(c) && CanMove(c, m) && !Sends(m)
    ensures Tracked(Moved(c, m))
  {
    hide Bodies;
  }

  lemma TrackedOther(c: Conn, a: Act)
    requires Safe(c) && Tracked(c) && Enabled(c, a)
    requires !a.Cut? && !a.Garble? && !a.Deliver? && !a.Daemon?
    ensures Tracked(Next(c, a))
  {
    RunnerMoves(c, a);
    PipeStep(c, a);
    var r := RunnerMove(c, a);
    if r.Some? {
      CancelsStay(c.runner, r.value);
    }
    if a.Greeted? || a.SkipNoise? {
      FollowsRest(c.pipe, c.runner.accepted != []);
      assert c.pipe == [c.pipe[0]] + c.pipe[1..];
    }
    EndedStays(c, a);
    assert Next(c, a).open == c.open && Next(c, a).termSent == c.termSent && Next(c, a).ended == c.ended by {
      hide R.Next, R.Enabled;
    }
    hide Next, Enabled, RunnerMove, R.Next, R.Enabled, Safe;
  }

  lemma TrackedStep(c: Conn, a: Act)
    requires Safe(c) && Tracked(c) && Enabled(c, a) && !Next(c, a).disturbed
    ensures Tracked(Next(c, a))
  {
    hide Safe, Tracked, Sends, Moved, CanMove, R.Next, R.Enabled, Read;
    match a {
      case Daemon(m) =>
        if Sends(m) {
          TrackedSend(c, m);
        } else {
          TrackedQuiet(c, m);
        }
      case Deliver(ok) => TrackedDeliver(c, ok);
      case Cut(_, _) => assert false;
      case Garble(_, _) => assert false;
      case _ => TrackedOther(c, a);
    }
  }

  // ---- Theorems ----

  lemma DisturbedStays(c: Conn, a: Act)
    requires Enabled(c, a)
    ensures c.disturbed || a.Cut? || a.Garble? ==> Next(c, a).disturbed
  {
    hide R.Next, R.Enabled, Read, Moved, CanMove;
  }

  lemma {:induction false} AlwaysSafe(c: Conn, acts: seq<Act>)
    requires Safe(c) && (c.disturbed || Tracked(c)) && IsRun(c, acts)
    ensures Safe(After(c, acts)) && (After(c, acts).disturbed || Tracked(After(c, acts)))
    decreases |acts|
  {
    hide Safe, Tracked, Enabled, Next;
    if acts != [] {
      SafeStep(c, acts[0]);
      DisturbedStays(c, acts[0]);
      if !Next(c, acts[0]).disturbed {
        TrackedStep(c, acts[0]);
      }
      AlwaysSafe(Next(c, acts[0]), acts[1..]);
    }
  }

  lemma InitIsSafe(plan: Plan)
    requires Sound(plan)
    ensures Safe(Init(plan)) && Tracked(Init(plan))
  {
  }

  lemma {:induction false} PlanStays(c: Conn, acts: seq<Act>)
    requires IsRun(c, acts)
    ensures After(c, acts).plan == c.plan
    ensures c.ended.Some? ==> After(c, acts).ended == c.ended && After(c, acts).sent == c.sent
    decreases |acts|
  {
    hide Next, Enabled;
    if acts != [] {
      EndedStays(c, acts[0]);
      PlanStays(Next(c, acts[0]), acts[1..]);
    }
  }

  lemma ReachableSafe(c: Conn)
    requires Reachable(c) && Sound(c.plan)
    ensures Safe(c) && (c.disturbed || Tracked(c))
  {
    hide Safe, Tracked, Sound;
    InitIsSafe(c.plan);
    var acts :| IsRun(Init(c.plan), acts) && After(Init(c.plan), acts) == c;
    AlwaysSafe(Init(c.plan), acts);
  }

  /** Whatever the wire does and whenever the cancel comes: the body starts at most once, and only if a run frame was sent. */
  lemma {:induction false} AtMostOneBody(c: Conn)
    requires Reachable(c) && Sound(c.plan)
    ensures c.starts <= if RunSent(c) then 1 else 0
  {
    hide P.Inv, Told;
    ReachableSafe(c);
  }

  /** How a daemon ends: short of its run frame or in the writing of it, where it must, or with the answer to it. */
  lemma {:induction false} EndsByPlan(c: Conn)
    requires Reachable(c) && Sound(c.plan) && c.ended.Some?
    ensures forall i :: 1 <= i < c.sent ==> !c.plan.over(i)
    ensures if c.ended.value.Stopped? then StopsAt(c.plan, c.sent)
      else RunSent(c) && c.sent <= c.plan.writable && c.plan.welcome
  {
    hide P.Inv, Started, Counted;
    ReachableSafe(c);
  }

  lemma NoStartYet(c: Conn)
    requires Reachable(c) && Sound(c.plan) && FellBack(c)
    ensures c.starts == 0 && !RunSent(c)
  {
    EndsByPlan(c);
    hide Reachable;
    AtMostOneBody(c);
  }

  /** Once the daemon has fallen back, the runner has not started the body and never does, however long it lives on. */
  lemma {:induction false} FallbackIsSafe(c: Conn, acts: seq<Act>)
    requires Reachable(c) && Sound(c.plan) && FellBack(c) && IsRun(c, acts)
    ensures c.starts == 0 && After(c, acts).starts == 0 && FellBack(After(c, acts))
  {
    NoStartYet(c);
    hide Reachable, IsRun, After, Sound;
    PlanStays(c, acts);
    RunJoins(c, acts);
    NoStartYet(After(c, acts));
  }

  lemma RunJoins(c: Conn, acts: seq<Act>)
    requires Reachable(c) && IsRun(c, acts)
    ensures Reachable(After(c, acts)) && After(c, acts).plan == c.plan
  {
    hide Next, Enabled;
    PlanStays(c, acts);
    var first :| IsRun(Init(c.plan), first) && After(Init(c.plan), first) == c;
    RunConcat(Init(c.plan), first, acts);
  }

  lemma {:induction false} RunConcat(s: Conn, first: seq<Act>, acts: seq<Act>)
    requires IsRun(s, first) && IsRun(After(s, first), acts)
    ensures IsRun(s, first + acts) && After(s, first + acts) == After(After(s, first), acts)
    decreases |first|
  {
    hide Next, Enabled;
    if first == [] {
      assert first + acts == acts;
    } else {
      assert (first + acts)[1..] == first[1..] + acts;
      RunConcat(Next(s, first[0]), first[1..], acts);
    }
  }

  /** No cancel is lost on an undisturbed stream: once a TERM has been read, the step's context is cancelled. */
  lemma {:induction false} DeliveredTermCancels(c: Conn)
    requires Reachable(c) && Sound(c.plan) && !c.disturbed && c.termSent && SIGNAL !in c.pipe
    ensures 0 in c.runner.groups.cancelled
  {
    hide Safe;
    ReachableSafe(c);
  }

  /** And on any stream, disturbed or not, a runner that has exited has cancelled every step it accepted. */
  lemma {:induction false} ExitedRunnerCancelled(c: Conn)
    requires Reachable(c) && Sound(c.plan) && c.runner.pc.Exited?
    ensures forall k :: 0 <= k < |c.runner.accepted| ==> k in c.runner.groups.cancelled
  {
    ReachableSafe(c);
    hide Tracked, Counted, Started;
  }

  lemma ReachableStep(c: Conn, a: Act)
    requires Reachable(c) && Enabled(c, a)
    ensures Reachable(Next(c, a))
  {
    assert [a][1..] == [] && IsRun(c, [a]);
    RunJoins(c, [a]);
  }

  lemma InitReachable(plan: Plan)
    ensures Reachable(Init(plan))
  {
    assert IsRun(Init(plan), []) && After(Init(plan), []) == Init(plan);
  }

  // ---- Every way to end is taken ----

  /** The daemon gets through the handshake and hands over its first `n` frames. */
  lemma {:induction false} Progress(plan: Plan, n: nat) returns (c: Conn)
    requires 1 <= n <= plan.writable && n <= |plan.shapes| && plan.welcome && forall i :: 1 <= i < n ==> !plan.over(i)
    ensures Reachable(c) && c.plan == plan && c.met && c.ended.None? && c.sent == n
    decreases n
  {
    hide Reachable, R.Next, R.Enabled;
    if n == 1 {
      InitReachable(plan);
      ReachableStep(Init(plan), Daemon(SayHello(true)));
      var c1 := Next(Init(plan), Daemon(SayHello(true)));
      ReachableStep(c1, Daemon(ReadGreeting));
      c := Next(c1, Daemon(ReadGreeting));
    } else {
      var c1 := Progress(plan, n - 1);
      ReachableStep(c1, Daemon(SendNext(true)));
      c := Next(c1, Daemon(SendNext(true)));
    }
  }

  lemma {:induction false} Concluded(plan: Plan) returns (c: Conn)
    requires 1 <= |plan.shapes| <= plan.writable && plan.welcome && forall i :: 1 <= i < |plan.shapes| ==> !plan.over(i)
    ensures Reachable(c) && c.plan == plan && RunSent(c) && c.ended == S.Some(Answered)
  {
    hide Reachable, R.Next, R.Enabled;
    var c1 := Progress(plan, |plan.shapes|);
    ReachableStep(c1, Daemon(Conclude));
    c := Next(c1, Daemon(Conclude));
  }

  /** Stopped by a broken stdin, by the greeting, or before a frame that is too long. */
  lemma {:induction false} StoppedShort(plan: Plan, n: nat) returns (c: Conn)
    requires StopsAt(plan, n) && forall i :: 1 <= i < n ==> !plan.over(i)
    ensures Reachable(c) && c.plan == plan && c.sent == n && c.ended == S.Some(Stopped)
  {
    hide Reachable, R.Next, R.Enabled;
    if n > 1 || (plan.welcome && 1 <= plan.writable) {
      var c1 := Progress(plan, if n > plan.writable then n - 1 else n);
      ReachableStep(c1, Daemon(SendNext(true)));
      c := Next(c1, Daemon(SendNext(true)));
    } else {
      InitReachable(plan);
      ReachableStep(Init(plan), Daemon(SayHello(true)));
      c := Next(Init(plan), Daemon(SayHello(true)));
      if 1 <= plan.writable {
        ReachableStep(c, Daemon(ReadGreeting));
        c := Next(c, Daemon(ReadGreeting));
      }
    }
  }

  // ---- Why a cut is not retried ----

  /** A step without files that nothing keeps from being sent. */
  ghost predicate Plain(p: Plan)
  {
    p.shapes == [R.Hello, R.Run(R.PLAIN)] && p.writable >= 2 && p.welcome && !p.over(1)
  }

  lemma HelloDelivered(plan: Plan) returns (c: Conn)
    requires Plain(plan)
    ensures Reachable(c) && c.plan == plan && c.met && c.ended.None? && c.sent == 1 && c.open && c.pipe == [] && c.starts == 0
    ensures c.runner == R.Next(R.Init(), R.Main(R.Shake(true)))
  {
    hide Reachable;
    var s0 := Init(plan);
    InitReachable(plan);
    ReachableStep(s0, Daemon(SayHello(true)));
    var s1 := Next(s0, Daemon(SayHello(true)));
    assert s1.pipe == [R.Got(R.Hello)];
    ReachableStep(s1, Greeted);
    var s2 := Next(s1, Greeted);
    ReachableStep(s2, Daemon(ReadGreeting));
    c := Next(s2, Daemon(ReadGreeting));
  }

  /** The run frame has reached the runner. */
  lemma RunFrameDelivered(plan: Plan) returns (c: Conn)
    requires Plain(plan)
    ensures Reachable(c) && c.plan == plan && Driving(c) && c.open && c.pipe == [] && c.starts == 0
    ensures c.runner.step == R.Step(0, R.Setup, false) && c.runner.accepted == [R.PLAIN]
  {
    var s2 := HelloDelivered(plan);
    hide Reachable;
    ReachableStep(s2, Daemon(SendNext(true)));
    var s3 := Next(s2, Daemon(SendNext(true)));
    assert s3.pipe == [R.Got(R.Run(R.PLAIN))];
    ReachableStep(s3, Deliver(true));
    c := Next(s3, Deliver(true));
  }

  /** The body starts, and then the wire is cut: a second run elsewhere would be one too many. */
  lemma {:induction false} CutAfterTheStart(plan: Plan) returns (c: Conn)
    requires Plain(plan)
    ensures Reachable(c) && c.plan == plan && c.disturbed && !c.open && c.ended == S.Some(Answered) && c.starts == 1
  {
    var s4 := RunFrameDelivered(plan);
    var begin := Inside(R.OnStep(R.BodyStarts));
    ReachableStep(s4, begin);
    var s5 := Next(s4, begin);
    hide R.Next, R.Enabled, Reachable, Plain;
    ReachableStep(s5, Cut(0, false));
    var s6 := Next(s5, Cut(0, false));
    ReachableStep(s6, Daemon(Conclude));
    c := Next(s6, Daemon(Conclude));
  }
}
