/**
 The process supervisor of the remote runner: every external command leads a process group, a
 cancelled context drives each group through SIGTERM, a grace period and SIGKILL, and a snapshot
 kills whatever is registered.

 One action is one indivisible move of one goroutine. Time is counted in milliseconds and moves only
 by `Pass`; a due escalation is served before the clock passes it. `Waited` means that the leader of
 the group has exited and been waited for.
 */
module Supervisor {

  datatype Option<T> = None | Some(value: T)

  const KILL_GRACE: nat := 5000

  datatype Life = Checked | Started | Registered | Armed | Waited

  /** One command of step `step`. `due` is when its escalation was armed and its context cancelled. */
  datatype Cmd = Cmd(
    step: nat, background: bool, life: Life, alive: bool, killed: bool,
    regAt: nat, due: Option<nat>, termAt: Option<nat>)

  /** `cancelled` holds the steps whose context is cancelled; `snapped` what was registered at `snapAt`. */
  datatype Groups = Groups(cancelled: set<nat>, cmds: map<nat, Cmd>, now: nat, snapAt: nat, snapped: set<nat>)

  predicate Listed(c: Cmd)
  {
    c.life.Registered? || c.life.Armed?
  }

  // ---- What the frame loop asks of the supervisor ----

  datatype Effect = Quiet | Cancel(id: nat) | Kill | CancelThenKill(id: nat)

  /** Cancelling a context makes the armed escalations of its step due. */
  function Cancelled(g: Groups, id: nat): Groups
  {
    g.(cancelled := g.cancelled + {id},
       cmds := map p | p in g.cmds ::
         if g.cmds[p].step == id && g.cmds[p].life.Armed? && g.cmds[p].due.None?
         then g.cmds[p].(due := Some(g.now)) else g.cmds[p])
  }

  /** SIGKILL to every registered group. */
  function KillAll(g: Groups): Groups
  {
    g.(cmds := map p | p in g.cmds :: if Listed(g.cmds[p]) then g.cmds[p].(killed := true) else g.cmds[p],
       snapAt := g.now,
       snapped := set p | p in g.cmds && !g.cmds[p].life.Checked? && !g.cmds[p].life.Started?)
  }

  function Apply(g: Groups, e: Effect): Groups
  {
    match e
    case Quiet => g
    case Cancel(id) => Cancelled(g, id)
    case Kill => KillAll(g)
    case CancelThenKill(id) => KillAll(Cancelled(g, id))
  }

  // ---- What the commands do themselves ----

  datatype CmdAct =
    | Spawn(step: nat, background: bool)
    | Start
    | StartFails
    | Register
    | Arm
    | Term
    | KillLate
    | Dies
    | Wait

  predicate CanMove(g: Groups, p: nat, a: CmdAct)
  {
    match a
    case Spawn(k, _) => p !in g.cmds && k !in g.cancelled
    case Start => p in g.cmds && g.cmds[p].life.Checked?
    case StartFails => p in g.cmds && g.cmds[p].life.Checked?
    case Register => p in g.cmds && g.cmds[p].life.Started?
    case Arm => p in g.cmds && g.cmds[p].life.Registered?
    case Term => p in g.cmds && g.cmds[p].life.Armed? && g.cmds[p].due.Some? && g.cmds[p].termAt.None?
    case KillLate => p in g.cmds && g.cmds[p].life.Armed? && g.cmds[p].termAt.Some? && g.cmds[p].termAt.value + KILL_GRACE <= g.now
    case Dies => p in g.cmds && g.cmds[p].alive
    case Wait => p in g.cmds && g.cmds[p].life.Armed? && !g.cmds[p].alive
  }

  function Moved(g: Groups, p: nat, a: CmdAct): Cmd
    requires CanMove(g, p, a)
  {
    match a
    case Spawn(k, background) => Cmd(k, background, Checked, false, false, 0, None, None)
    case Start => g.cmds[p].(life := Started, alive := true)
    case StartFails => g.cmds[p].(life := Waited)
    case Register => g.cmds[p].(life := Registered, regAt := g.now)
    case Arm => g.cmds[p].(life := Armed, due := if g.cmds[p].step in g.cancelled then Some(g.now) else None)
    case Term => g.cmds[p].(termAt := Some(g.now))
    case KillLate => g.cmds[p].(killed := true)
    case Dies => g.cmds[p].(alive := false)
    case Wait => g.cmds[p].(life := Waited)
  }

  function Move(g: Groups, p: nat, a: CmdAct): Groups
    requires CanMove(g, p, a)
  {
    g.(cmds := g.cmds[p := Moved(g, p, a)])
  }

  /** No escalation is overdue after `ms` more milliseconds. */
  ghost predicate Served(g: Groups, ms: nat)
  {
    forall p :: p in g.cmds && g.cmds[p].life.Armed? && g.cmds[p].due.Some? ==>
      g.cmds[p].termAt.Some? && (g.cmds[p].killed || g.now + ms <= g.cmds[p].termAt.value + KILL_GRACE)
  }

  function Pass(g: Groups, ms: nat): Groups
  {
    g.(now := g.now + ms)
  }

  // ---- What the supervisor keeps ----

  // `clock` is the time up to which the runner has lived: now, or the instant at which it exited.

  /** An armed command whose context is cancelled is TERM'd at once and killed within the grace period. */
  ghost predicate OnTime(g: Groups, c: Cmd, clock: nat)
  {
    && (c.life.Armed? ==> (c.due.Some? <==> c.step in g.cancelled))
    && (c.life.Checked? || c.life.Started? || c.life.Registered? ==> c.due.None? && c.termAt.None?)
    && (c.termAt.Some? ==> c.due == c.termAt)
    && (c.life.Armed? && c.due.Some? ==>
      && c.due.value <= clock
      && (c.termAt.None? ==> clock == c.due.value)
      && (c.killed || clock <= c.due.value + KILL_GRACE))
  }

  /** The grace period of the command had passed at `clock`. */
  predicate RanOut(c: Cmd, clock: nat)
  {
    c.termAt.Some? && c.termAt.value + KILL_GRACE <= clock
  }

  /**
   What the last snapshot saw is killed or waited for; what is registered and was not seen came later;
   and nothing is killed but by a snapshot or at the end of its grace period.
   */
  ghost predicate Reaped(g: Groups, p: nat, clock: nat)
    requires p in g.cmds
  {
    && (p in g.snapped ==> (g.cmds[p].killed || g.cmds[p].life.Waited?) && g.cmds[p].regAt <= g.snapAt)
    && (Listed(g.cmds[p]) && p !in g.snapped ==> g.snapAt <= g.cmds[p].regAt)
    && (g.cmds[p].life.Checked? || g.cmds[p].life.Started? ==> p !in g.snapped && g.cmds[p].regAt == 0)
    && (g.cmds[p].killed ==> p in g.snapped || RanOut(g.cmds[p], clock))
    && g.cmds[p].regAt <= clock
  }

  ghost predicate Kept(g: Groups, clock: nat)
  {
    && g.snapAt <= clock <= g.now
    && (forall p :: p in g.cmds ==> OnTime(g, g.cmds[p], clock) && Reaped(g, p, clock))
    && (forall p :: p in g.snapped ==> p in g.cmds)
  }

  lemma CancelKeeps(g: Groups, id: nat)
    requires Kept(g, g.now)
    ensures Kept(Cancelled(g, id), g.now)
  {
    var t := Cancelled(g, id);
    forall p | p in t.cmds ensures OnTime(t, t.cmds[p], g.now) && Reaped(t, p, g.now) {
      assert OnTime(g, g.cmds[p], g.now) && Reaped(g, p, g.now);
    }
  }

  lemma KillKeeps(g: Groups)
    requires Kept(g, g.now)
    ensures Kept(KillAll(g), g.now)
  {
    var t := KillAll(g);
    forall p | p in t.cmds ensures OnTime(t, t.cmds[p], g.now) && Reaped(t, p, g.now) {
      assert OnTime(g, g.cmds[p], g.now) && Reaped(g, p, g.now);
    }
  }

  lemma {:induction false} ApplyKeeps(g: Groups, e: Effect)
    requires Kept(g, g.now)
    ensures Kept(Apply(g, e), g.now)
  {
    match e {
      case Quiet =>
      case Cancel(id) => CancelKeeps(g, id);
      case Kill => KillKeeps(g);
      case CancelThenKill(id) =>
        CancelKeeps(g, id);
        KillKeeps(Cancelled(g, id));
    }
  }

  lemma MovedKeeps(g: Groups, p: nat, a: CmdAct, clock: nat)
    requires Kept(g, clock) && CanMove(g, p, a) && (clock == g.now || a.Dies?)
    ensures OnTime(Move(g, p, a), Move(g, p, a).cmds[p], clock) && Reaped(Move(g, p, a), p, clock)
  {
    if p in g.cmds {
      assert OnTime(g, g.cmds[p], clock) && Reaped(g, p, clock);
    }
  }

  /** A process may die at any time; everything else is a move of a living runner. */
  lemma {:induction false} MoveKeeps(g: Groups, p: nat, a: CmdAct, clock: nat)
    requires Kept(g, clock) && CanMove(g, p, a) && (clock == g.now || a.Dies?)
    ensures Kept(Move(g, p, a), clock)
  {
    var t := Move(g, p, a);
    hide Moved;
    forall q | q in t.cmds ensures OnTime(t, t.cmds[q], clock) && Reaped(t, q, clock) {
      if q == p {
        MovedKeeps(g, p, a, clock);
      } else {
        assert OnTime(g, g.cmds[q], clock) && Reaped(g, q, clock);
      }
    }
  }

  lemma PassKeeps(g: Groups, ms: nat)
    requires Kept(g, g.now) && Served(g, ms)
    ensures Kept(Pass(g, ms), g.now + ms)
  {
    var t := Pass(g, ms);
    forall p | p in t.cmds ensures OnTime(t, t.cmds[p], t.now) && Reaped(t, p, t.now) {
      assert OnTime(g, g.cmds[p], g.now) && Reaped(g, p, g.now);
    }
  }

  /** Effects change neither the life of a command nor whose it is, and take a snapshot now if any. */
  lemma ApplyKeepsIdentity(g: Groups, e: Effect)
    ensures Apply(g, e).cmds.Keys == g.cmds.Keys && Apply(g, e).now == g.now
    ensures Apply(g, e).snapAt == if e.Kill? || e.CancelThenKill? then g.now else g.snapAt
    ensures forall p :: p in g.cmds ==>
      && Apply(g, e).cmds[p].step == g.cmds[p].step
      && Apply(g, e).cmds[p].background == g.cmds[p].background
      && Apply(g, e).cmds[p].life == g.cmds[p].life
  {
  }
}
