/**
 The live view of one call: a reducer over its events, and the control machine that it refines.

 Instants and durations are in milliseconds, and instant 0 is the absence of one.
 */
module Live {
  import Operators

  type Operand = Operators.Operand

  type Time = int

  datatype Brief = Brief(name: string, action: string, hosts: seq<string>, params: map<string, string>)

  datatype Event =
    | CallStart(ts: Time, sessionID: string, input: string, pid: int, steps: seq<Brief>)
    | StepStart(ts: Time, step: int, name: string, action: string, hosts: seq<string>)
    | StepEnd(ts: Time, step: int, exitCode: int, durationMs: int)
    | CallEnd(ts: Time, status: string, error: string, durationMs: int)
    | Executing(ts: Time, step: int, host: string, cmd: string, elapsedSec: int, lineNo: int)
    | Stdout(ts: Time, step: int, host: string, line: string)
    | Stderr(ts: Time, step: int, host: string, line: string)
    | Unknown(ts: Time)

  /** The events that must reach the view. */
  predicate IsControl(e: Event)
  {
    e.CallStart? || e.StepStart? || e.StepEnd? || e.CallEnd? || e.Executing?
  }

  datatype Status = Status(
    name: string, action: string, hosts: seq<string>, params: map<string, string>,
    started: bool, ended: bool, exitCode: int, durationMs: int)

  // ---- The control machine: what control events alone determine ----

  datatype CSub = CSub(cmd: string, startTs: Time, host: string, operandIdx: int)

  datatype CLine = CLine(lineNo: int, text: string, skipped: bool, operands: seq<Operand>, done: bool, subs: seq<CSub>)

  datatype Head = Head(
    name: string, action: string, hosts: seq<string>, params: map<string, string>, configLine: string,
    started: bool, ended: bool, exitCode: int, durationMs: int)

  /** A step with its script lines, and the line that is executing, -1 before the first. */
  datatype CStep = CStep(head: Head, lines: seq<CLine>, at: int)

  /** The call as its start event announced it. */
  datatype Info = Info(sessionID: string, input: string, steps: seq<Brief>, pid: int)

  /** The command that fired last. */
  datatype Running = Running(cmd: string, host: string, elapsedSec: int)

  datatype Ending = Ending(done: bool, status: string)

  datatype Control = Control(
    info: Info, currentStep: int, statuses: seq<Status>, running: Running, ending: Ending, waterfall: seq<CStep>)

  /** A source line as the script parser delivers it. */
  datatype Source = Source(lineNo: int, text: string, skipped: bool, operands: seq<Operand>)

  /** The parsers of the call's input, and the match of a fired command to an operand. */
  datatype Parsing = Parsing(
    bodies: string -> seq<seq<Source>>, config: string -> seq<string>, operand: (seq<Operand>, string) -> int)

  const FRESH: Control := Control(Info("", "", [], 0), -1, [], Running("", "", 0), Ending(false, ""), [])

  function StatusOf(b: Brief): Status
  {
    Status(b.name, b.action, b.hosts, b.params, false, false, 0, 0)
  }

  function HeadOf(p: Parsing, input: string, b: Brief, i: nat): Head
  {
    Head(b.name, b.action, b.hosts, b.params, if i < |p.config(input)| then p.config(input)[i] else "", false, false, 0, 0)
  }

  function FreshLine(s: Source): CLine
  {
    CLine(s.lineNo, s.text, s.skipped, s.operands, false, [])
  }

  function FreshLines(sources: seq<Source>): seq<CLine>
  {
    seq(|sources|, i requires 0 <= i < |sources| => FreshLine(sources[i]))
  }

  function BodyAt(p: Parsing, input: string, i: nat): seq<Source>
  {
    if i < |p.bodies(input)| then p.bodies(input)[i] else []
  }

  function FreshStep(p: Parsing, input: string, b: Brief, i: nat): CStep
  {
    CStep(HeadOf(p, input, b, i), FreshLines(BodyAt(p, input, i)), -1)
  }

  function FreshSteps(p: Parsing, input: string, steps: seq<Brief>): seq<CStep>
  {
    seq(|steps|, i requires 0 <= i < |steps| => FreshStep(p, input, steps[i], i))
  }

  function Renamed(h: Head, name: string, action: string, hosts: seq<string>): Head
  {
    h.(started := true,
       name := if name != "" then name else h.name,
       action := if action != "" then action else h.action,
       hosts := if hosts != [] then hosts else h.hosts)
  }

  function Restarted(s: Status, name: string, action: string, hosts: seq<string>): Status
  {
    s.(started := true,
       name := if name != "" then name else s.name,
       action := if action != "" then action else s.action,
       hosts := if hosts != [] then hosts else s.hosts)
  }

  /** The line at the step's position is done. */
  function MarkDone(s: CStep): CStep
  {
    if 0 <= s.at < |s.lines| then s.(lines := s.lines[s.at := s.lines[s.at].(done := true)]) else s
  }

  /** The first line from `i` on with the number; -1 if there is none. */
  function ByNumber(lines: seq<CLine>, lineNo: int, i: nat): (r: int)
    ensures r == -1 || (i <= r < |lines| && lines[r].lineNo == lineNo)
    ensures forall k :: i <= k < |lines| && (r < 0 || k < r) ==> lines[k].lineNo != lineNo
    decreases |lines| - i
  {
    if i >= |lines| then -1 else if lines[i].lineNo == lineNo then i else ByNumber(lines, lineNo, i + 1)
  }

  /** The first line from `i` on that is executed at all; -1 if there is none. */
  function Runnable(lines: seq<CLine>, i: nat): (r: int)
    ensures r == -1 || (i <= r < |lines| && !lines[r].skipped)
    ensures forall k :: i <= k < |lines| && (r < 0 || k < r) ==> lines[k].skipped
    decreases |lines| - i
  {
    if i >= |lines| then -1 else if !lines[i].skipped then i else Runnable(lines, i + 1)
  }

  /** The line a fired command belongs to: by its number, else where the step stands, else the first that runs. */
  function LineFor(s: CStep, lineNo: int): int
  {
    var n := if lineNo == 0 then -1 else ByNumber(s.lines, lineNo, 0);
    if n >= 0 then n else if s.at >= 0 then s.at else Runnable(s.lines, 0)
  }

  /** A command fires on a line: the line left behind is done, and the command is added to the new one. */
  function Fire(s: CStep, p: Parsing, e: Event): CStep
    requires e.Executing?
  {
    var i := LineFor(s, e.lineNo);
    if !(0 <= i < |s.lines|) then s
    else
      var left := if s.at >= 0 && s.at != i then MarkDone(s) else s;
      var line := left.lines[i];
      var sub := CSub(e.cmd, e.ts, e.host, p.operand(line.operands, e.cmd));
      left.(lines := left.lines[i := line.(subs := line.subs + [sub])], at := i)
  }

  function StartCall(c: Control, p: Parsing, info: Info): Control
  {
    c.(info := info, currentStep := -1, statuses := FreshStatuses(info.steps), waterfall := FreshSteps(p, info.input, info.steps))
  }

  function FreshStatuses(steps: seq<Brief>): seq<Status>
  {
    seq(|steps|, i requires 0 <= i < |steps| => StatusOf(steps[i]))
  }

  /** Starting a step also closes the last line of an ended step before it. */
  function StartStep(c: Control, step: int, name: string, action: string, hosts: seq<string>): Control
  {
    c.(currentStep := step, running := c.running.(cmd := "", host := ""),
       statuses := if 0 <= step < |c.statuses| then c.statuses[step := Restarted(c.statuses[step], name, action, hosts)] else c.statuses,
       waterfall := Entered(c.waterfall, step, name, action, hosts))
  }

  function Entered(w: seq<CStep>, step: int, name: string, action: string, hosts: seq<string>): seq<CStep>
  {
    if !(0 <= step < |w|) then w
    else
      var v := w[step := w[step].(head := Renamed(w[step].head, name, action, hosts))];
      if step > 0 && v[step - 1].head.ended then v[step - 1 := MarkDone(v[step - 1])] else v
  }

  function EndStep(c: Control, step: int, exitCode: int, durationMs: int): Control
  {
    c.(statuses :=
         if 0 <= step < |c.statuses|
         then c.statuses[step := c.statuses[step].(ended := true, exitCode := exitCode, durationMs := durationMs)]
         else c.statuses,
       waterfall := Ended(c.waterfall, step, exitCode, durationMs))
  }

  function Ended(w: seq<CStep>, step: int, exitCode: int, durationMs: int): seq<CStep>
  {
    if !(0 <= step < |w|) then w
    else w[step := MarkDone(w[step].(head := w[step].head.(ended := true, exitCode := exitCode, durationMs := durationMs)))]
  }

  function Execute(c: Control, p: Parsing, e: Event): Control
    requires e.Executing?
  {
    c.(running := Running(e.cmd, e.host, e.elapsedSec), waterfall := Fired(c.waterfall, p, e))
  }

  function Fired(w: seq<CStep>, p: Parsing, e: Event): seq<CStep>
    requires e.Executing?
  {
    if 0 <= e.step < |w| then w[e.step := Fire(w[e.step], p, e)] else w
  }

  function Next(c: Control, p: Parsing, e: Event): Control
  {
    match e
    case CallStart(_, sessionID, input, pid, steps) => StartCall(c, p, Info(sessionID, input, steps, pid))
    case StepStart(_, step, name, action, hosts) => StartStep(c, step, name, action, hosts)
    case StepEnd(_, step, exitCode, durationMs) => EndStep(c, step, exitCode, durationMs)
    case CallEnd(_, status, _, _) => c.(ending := Ending(true, status))
    case Executing(_, _, _, _, _, _) => Execute(c, p, e)
    case _ => c
  }

  function After(c: Control, p: Parsing, events: seq<Event>): Control
  {
    if events == [] then c else Next(After(c, p, events[..|events| - 1]), p, events[|events| - 1])
  }

  // ---- The full view ----

  datatype Sub = Sub(cmd: string, startTs: Time, endTs: Time, host: string, operandIdx: int)

  datatype Out = Out(stream: string, text: string, host: string, ts: Time)

  datatype SrcLine = SrcLine(
    lineNo: int, text: string, skipped: bool, operands: seq<Operand>, subs: seq<Sub>,
    startTs: Time, endTs: Time, started: bool, done: bool, output: seq<Out>)

  datatype WfStep = WfStep(head: Head, lines: seq<SrcLine>)

  /** The steps with, for each, the line that is executing and its first and latest time stamps. */
  datatype Wf = Wf(steps: seq<WfStep>, at: seq<int>, first: seq<Time>, last: seq<Time>)

  datatype TailLine = TailLine(stream: string, step: int, host: string, text: string, ts: Time, lineNo: int)

  const MAX_TAIL: nat := 500
  const MAX_OUTPUT: nat := 200

  /** Every step has a position, in range or -1, and its time stamps. */
  predicate WfOk(w: Wf)
  {
    && |w.at| == |w.first| == |w.last| == |w.steps|
    && forall i :: 0 <= i < |w.steps| ==> -1 <= w.at[i] < |w.steps[i].lines|
  }

  function OwnLine(s: Source): SrcLine
  {
    SrcLine(s.lineNo, s.text, s.skipped, s.operands, [], 0, 0, false, false, [])
  }

  /** A copy of the parsed lines, to be filled in. */
  function OwnLines(sources: seq<Source>): seq<SrcLine>
  {
    seq(|sources|, i requires 0 <= i < |sources| => OwnLine(sources[i]))
  }

  function OwnStep(p: Parsing, input: string, b: Brief, i: nat): WfStep
  {
    WfStep(HeadOf(p, input, b, i), OwnLines(BodyAt(p, input, i)))
  }

  function OwnSteps(p: Parsing, input: string, steps: seq<Brief>): seq<WfStep>
  {
    seq(|steps|, i requires 0 <= i < |steps| => OwnStep(p, input, steps[i], i))
  }

  function InitWf(p: Parsing, info: Info): Wf
  {
    var n := |info.steps|;
    Wf(OwnSteps(p, info.input, info.steps), seq(n, _ => -1), seq(n, _ => 0), seq(n, _ => 0))
  }

  function WithStep(w: Wf, si: nat, s: WfStep, at: int): Wf
    requires WfOk(w) && si < |w.steps|
  {
    w.(steps := w.steps[si := s], at := w.at[si := at])
  }

  /** Instant 0 counts for nothing. */
  function Stamped(w: Wf, si: nat, ts: Time): Wf
    requires WfOk(w) && si < |w.steps|
  {
    if ts == 0 then w
    else w.(first := if w.first[si] == 0 then w.first[si := ts] else w.first,
            last := if ts > w.last[si] then w.last[si := ts] else w.last)
  }

  function DoneLine(s: WfStep, at: int): WfStep
  {
    if 0 <= at < |s.lines| then s.(lines := s.lines[at := s.lines[at].(done := true)]) else s
  }

  /** Starting a step also closes the last line of an ended step before it. */
  function EnterWf(w: Wf, step: int, name: string, action: string, hosts: seq<string>): Wf
    requires WfOk(w)
  {
    if !(0 <= step < |w.steps|) then w
    else
      var v := w.(steps := w.steps[step := w.steps[step].(head := Renamed(w.steps[step].head, name, action, hosts))]);
      if step > 0 && v.steps[step - 1].head.ended
      then v.(steps := v.steps[step - 1 := DoneLine(v.steps[step - 1], v.at[step - 1])]) else v
  }

  /** The last command's interval is closed, or only if it is still open. */
  function CloseLast(subs: seq<Sub>, end: Time, onlyOpen: bool): seq<Sub>
  {
    if subs == [] || (onlyOpen && subs[|subs| - 1].endTs != 0) then subs
    else subs[|subs| - 1 := subs[|subs| - 1].(endTs := end)]
  }

  function Closed(line: SrcLine, end: Time, onlyOpen: bool): SrcLine
  {
    line.(done := true, endTs := end, subs := CloseLast(line.subs, end, onlyOpen))
  }

  /** When a step ends: after its duration if it is known, else with its latest event, else when its last line began. */
  function EndOf(first: Time, last: Time, durationMs: int, line: SrcLine): Time
  {
    if first != 0 && durationMs > 0 then first + durationMs else if last != 0 then last else line.startTs
  }

  function EndWf(w: Wf, step: int, exitCode: int, durationMs: int): Wf
    requires WfOk(w)
  {
    if !(0 <= step < |w.steps|) then w
    else
      var s := w.steps[step].(head := w.steps[step].head.(ended := true, exitCode := exitCode, durationMs := durationMs));
      var at := w.at[step];
      if at < 0 then w.(steps := w.steps[step := s])
      else
        var end := EndOf(w.first[step], w.last[step], durationMs, s.lines[at]);
        w.(steps := w.steps[step := s.(lines := s.lines[at := Closed(s.lines[at], end, true)])])
  }

  /** A command fires on a line, which starts with it, and ends the command before it. */
  function FiredLine(line: SrcLine, p: Parsing, e: Event): SrcLine
    requires e.Executing?
  {
    var sub := Sub(e.cmd, e.ts, 0, e.host, p.operand(line.operands, e.cmd));
    line.(started := true, startTs := if line.started then line.startTs else e.ts, subs := CloseLast(line.subs, e.ts, false) + [sub])
  }

  /** The line left behind is closed. */
  function FiredStep(s: WfStep, at: int, i: nat, p: Parsing, e: Event): WfStep
    requires e.Executing? && -1 <= at < |s.lines| && i < |s.lines|
  {
    var lines := if at >= 0 && at != i then s.lines[at := Closed(s.lines[at], e.ts, false)] else s.lines;
    s.(lines := lines[i := FiredLine(lines[i], p, e)])
  }

  function FireWf(w: Wf, p: Parsing, e: Event): Wf
    requires WfOk(w) && e.Executing?
  {
    if !(0 <= e.step < |w.steps|) then w
    else
      var v := Stamped(w, e.step, e.ts);
      var s, at := w.steps[e.step], w.at[e.step];
      var i := LineFor(ForgetStep(s, at), e.lineNo);
      if i < 0 then v else WithStep(v, e.step, FiredStep(s, at, i, p, e), i)
  }

  /** The first output starts a line that no command has; the rest is collected up to a limit. */
  function AddOutput(line: SrcLine, o: Out): (l: SrcLine)
    ensures Forget(l) == Forget(line)
  {
    var l := if line.started then line else line.(started := true, startTs := if line.startTs == 0 then o.ts else line.startTs);
    if |l.output| < MAX_OUTPUT then l.(output := l.output + [o]) else l
  }

  function OutputWf(w: Wf, step: int, o: Out): Wf
    requires WfOk(w)
  {
    if !(0 <= step < |w.steps|) then w
    else
      var v := Stamped(w, step, o.ts);
      var s, at := w.steps[step], w.at[step];
      var i := if at >= 0 then at else Runnable(ForgetLines(s.lines), 0);
      if i < 0 then v else v.(steps := v.steps[step := s.(lines := s.lines[i := AddOutput(s.lines[i], o)])])
  }

  function NextWf(w: Wf, p: Parsing, e: Event): Wf
    requires WfOk(w)
  {
    match e
    case CallStart(_, sessionID, input, pid, steps) => InitWf(p, Info(sessionID, input, steps, pid))
    case StepStart(_, step, name, action, hosts) => EnterWf(w, step, name, action, hosts)
    case StepEnd(_, step, exitCode, durationMs) => EndWf(w, step, exitCode, durationMs)
    case Executing(_, _, _, _, _, _) => FireWf(w, p, e)
    case Stdout(ts, step, host, line) => OutputWf(w, step, Out("stdout", line, host, ts))
    case Stderr(ts, step, host, line) => OutputWf(w, step, Out("stderr", line, host, ts))
    case _ => w
  }

  /** The tail line of an event, if it has one. */
  function TailOf(e: Event): seq<TailLine>
  {
    match e
    case Executing(ts, step, host, cmd, _, lineNo) => [TailLine("executing", step, host, cmd, ts, lineNo)]
    case Stdout(ts, step, host, line) => [TailLine("stdout", step, host, line, ts, 0)]
    case Stderr(ts, step, host, line) => [TailLine("stderr", step, host, line, ts, 0)]
    case _ => []
  }

  /** The latest lines. */
  function Latest(tail: seq<TailLine>, unlimited: bool): seq<TailLine>
  {
    if !unlimited && |tail| > MAX_TAIL then tail[|tail| - MAX_TAIL..] else tail
  }

  /** Cutting the tail at every line keeps the same lines as cutting it once. */
  lemma {:induction false} TailIsLatest(all: seq<TailLine>, t: TailLine, unlimited: bool)
    ensures Latest(Latest(all, unlimited) + [t], unlimited) == Latest(all + [t], unlimited)
  {
    if !unlimited && |all| > MAX_TAIL {
      assert (all[|all| - MAX_TAIL..] + [t])[1..] == (all + [t])[|all| + 1 - MAX_TAIL..];
    }
  }

  // ---- Forgetting what output can touch ----

  function ForgetSub(s: Sub): CSub
  {
    CSub(s.cmd, s.startTs, s.host, s.operandIdx)
  }

  function ForgetSubs(subs: seq<Sub>): seq<CSub>
  {
    seq(|subs|, i requires 0 <= i < |subs| => ForgetSub(subs[i]))
  }

  function Forget(l: SrcLine): CLine
  {
    CLine(l.lineNo, l.text, l.skipped, l.operands, l.done, ForgetSubs(l.subs))
  }

  function ForgetLines(lines: seq<SrcLine>): (r: seq<CLine>)
    ensures |r| == |lines|
  {
    seq(|lines|, i requires 0 <= i < |lines| => Forget(lines[i]))
  }

  function ForgetStep(s: WfStep, at: int): CStep
  {
    CStep(s.head, ForgetLines(s.lines), at)
  }

  function ForgetWf(w: Wf): (r: seq<CStep>)
    requires WfOk(w)
    ensures |r| == |w.steps|
  {
    seq(|w.steps|, i requires 0 <= i < |w.steps| => ForgetStep(w.steps[i], w.at[i]))
  }

  lemma ForgetUpdate(lines: seq<SrcLine>, i: nat, l: SrcLine)
    requires i < |lines|
    ensures ForgetLines(lines[i := l]) == ForgetLines(lines)[i := Forget(l)]
  {
  }

  lemma ForgetWithStep(w: Wf, si: nat, s: WfStep, at: int)
    requires WfOk(w) && si < |w.steps| && -1 <= at < |s.lines|
    ensures WfOk(WithStep(w, si, s, at)) && ForgetWf(WithStep(w, si, s, at)) == ForgetWf(w)[si := ForgetStep(s, at)]
  {
  }

  lemma ForgetSameAt(w: Wf, si: nat, s: WfStep)
    requires WfOk(w) && si < |w.steps| && |s.lines| == |w.steps[si].lines|
    ensures
      var v := w.(steps := w.steps[si := s]);
      WfOk(v) && ForgetWf(v) == ForgetWf(w)[si := ForgetStep(s, w.at[si])]
  {
  }

  lemma ForgetStamped(w: Wf, si: nat, ts: Time)
    requires WfOk(w) && si < |w.steps|
    ensures WfOk(Stamped(w, si, ts)) && ForgetWf(Stamped(w, si, ts)) == ForgetWf(w)
    ensures Stamped(w, si, ts).steps == w.steps && Stamped(w, si, ts).at == w.at
  {
  }

  lemma CloseForgotten(subs: seq<Sub>, end: Time, onlyOpen: bool)
    ensures ForgetSubs(CloseLast(subs, end, onlyOpen)) == ForgetSubs(subs)
  {
  }

  lemma ForgetClosed(line: SrcLine, end: Time, onlyOpen: bool)
    ensures Forget(Closed(line, end, onlyOpen)) == Forget(line).(done := true)
  {
    CloseForgotten(line.subs, end, onlyOpen);
  }

  lemma ForgetAppend(subs: seq<Sub>, sub: Sub)
    ensures ForgetSubs(subs + [sub]) == ForgetSubs(subs) + [ForgetSub(sub)]
  {
  }

  // ---- The view refines the control machine ----

  lemma InitRefines(p: Parsing, info: Info)
    ensures WfOk(InitWf(p, info)) && ForgetWf(InitWf(p, info)) == FreshSteps(p, info.input, info.steps)
  {
    var w := InitWf(p, info);
    forall i | 0 <= i < |info.steps|
      ensures ForgetStep(w.steps[i], -1) == FreshStep(p, info.input, info.steps[i], i)
    {
      OwnIsFresh(BodyAt(p, info.input, i));
    }
  }

  lemma OwnIsFresh(sources: seq<Source>)
    ensures ForgetLines(OwnLines(sources)) == FreshLines(sources)
  {
    forall i | 0 <= i < |sources| ensures Forget(OwnLine(sources[i])) == FreshLine(sources[i]) {
      assert ForgetSubs([]) == [];
    }
  }

  lemma DoneRefines(s: WfStep, at: int)
    requires -1 <= at < |s.lines|
    ensures |DoneLine(s, at).lines| == |s.lines| && ForgetStep(DoneLine(s, at), at) == MarkDone(ForgetStep(s, at))
  {
    if at >= 0 {
      ForgetUpdate(s.lines, at, s.lines[at].(done := true));
    }
  }

  lemma EnterRefines(w: Wf, step: int, name: string, action: string, hosts: seq<string>)
    requires WfOk(w)
    ensures
      var v := EnterWf(w, step, name, action, hosts);
      WfOk(v) && ForgetWf(v) == Entered(ForgetWf(w), step, name, action, hosts)
  {
    hide ForgetWf, ForgetLines, MarkDone, DoneLine;
    if 0 <= step < |w.steps| {
      var s := w.steps[step].(head := Renamed(w.steps[step].head, name, action, hosts));
      StepAt(w, step);
      ForgetSameAt(w, step, s);
      var v := w.(steps := w.steps[step := s]);
      if step > 0 {
        StepAt(v, step - 1);
        if v.steps[step - 1].head.ended {
          DoneRefines(v.steps[step - 1], v.at[step - 1]);
          ForgetSameAt(v, step - 1, DoneLine(v.steps[step - 1], v.at[step - 1]));
        }
      }
    }
  }

  lemma StepAt(w: Wf, i: nat)
    requires WfOk(w) && i < |w.steps|
    ensures ForgetWf(w)[i] == ForgetStep(w.steps[i], w.at[i])
  {
  }

  lemma {:induction false} EndRefines(w: Wf, step: int, exitCode: int, durationMs: int)
    requires WfOk(w)
    ensures
      var v := EndWf(w, step, exitCode, durationMs);
      WfOk(v) && ForgetWf(v) == Ended(ForgetWf(w), step, exitCode, durationMs)
  {
    hide ForgetWf, ForgetLines, EndOf, Closed;
    if 0 <= step < |w.steps| {
      StepAt(w, step);
      var s := w.steps[step].(head := w.steps[step].head.(ended := true, exitCode := exitCode, durationMs := durationMs));
      var at := w.at[step];
      if at < 0 {
        ForgetSameAt(w, step, s);
      } else {
        var line := Closed(s.lines[at], EndOf(w.first[step], w.last[step], durationMs, s.lines[at]), true);
        ForgetClosed(s.lines[at], EndOf(w.first[step], w.last[step], durationMs, s.lines[at]), true);
        ForgetUpdate(s.lines, at, line);
        LineAt(s.lines, at);
        ForgetSameAt(w, step, s.(lines := s.lines[at := line]));
      }
    }
  }

  lemma LineAt(lines: seq<SrcLine>, i: nat)
    requires i < |lines|
    ensures ForgetLines(lines)[i] == Forget(lines[i])
  {
  }

  lemma FiredLineRefines(line: SrcLine, p: Parsing, e: Event)
    requires e.Executing?
    ensures
      var sub := CSub(e.cmd, e.ts, e.host, p.operand(line.operands, e.cmd));
      Forget(FiredLine(line, p, e)) == Forget(line).(subs := Forget(line).subs + [sub])
  {
    CloseForgotten(line.subs, e.ts, false);
    ForgetAppend(CloseLast(line.subs, e.ts, false), Sub(e.cmd, e.ts, 0, e.host, p.operand(line.operands, e.cmd)));
    hide CloseLast, ForgetSubs;
  }

  lemma FiredStepRefines(s: WfStep, at: int, p: Parsing, e: Event)
    requires e.Executing? && -1 <= at < |s.lines| && LineFor(ForgetStep(s, at), e.lineNo) >= 0
    ensures
      var i := LineFor(ForgetStep(s, at), e.lineNo);
      && i < |s.lines| && |FiredStep(s, at, i, p, e).lines| == |s.lines|
      && ForgetStep(FiredStep(s, at, i, p, e), i) == Fire(ForgetStep(s, at), p, e)
  {
    var i := LineFor(ForgetStep(s, at), e.lineNo);
    assert i < |s.lines|;
    hide LineFor, ForgetLines, Closed, FiredLine, Forget;
    var lines := s.lines;
    if at >= 0 && at != i {
      LineAt(s.lines, at);
      ForgetClosed(s.lines[at], e.ts, false);
      ForgetUpdate(s.lines, at, Closed(s.lines[at], e.ts, false));
      lines := s.lines[at := Closed(s.lines[at], e.ts, false)];
    }
    LineAt(lines, i);
    assert Forget(lines[i]).operands == lines[i].operands by {
      OperandsStay(lines[i]);
    }
    FiredLineRefines(lines[i], p, e);
    ForgetUpdate(lines, i, FiredLine(lines[i], p, e));
  }

  lemma OperandsStay(line: SrcLine)
    ensures Forget(line).operands == line.operands
  {
  }

  lemma {:induction false} FireRefines(w: Wf, p: Parsing, e: Event)
    requires WfOk(w) && e.Executing?
    ensures WfOk(FireWf(w, p, e)) && ForgetWf(FireWf(w, p, e)) == Fired(ForgetWf(w), p, e)
  {
    hide ForgetWf, ForgetStep, LineFor, Stamped;
    if 0 <= e.step < |w.steps| {
      var s, at := w.steps[e.step], w.at[e.step];
      StepAt(w, e.step);
      ForgetStamped(w, e.step, e.ts);
      if LineFor(ForgetStep(s, at), e.lineNo) < 0 {
        assert Fire(ForgetStep(s, at), p, e) == ForgetStep(s, at);
      } else {
        FiredStepRefines(s, at, p, e);
        var i := LineFor(ForgetStep(s, at), e.lineNo);
        ForgetWithStep(Stamped(w, e.step, e.ts), e.step, FiredStep(s, at, i, p, e), i);
      }
    }
  }

  lemma {:induction false} OutputRefines(w: Wf, step: int, o: Out)
    requires WfOk(w)
    ensures WfOk(OutputWf(w, step, o)) && ForgetWf(OutputWf(w, step, o)) == ForgetWf(w)
  {
    hide ForgetWf, Stamped, Runnable, AddOutput, ForgetLines;
    if 0 <= step < |w.steps| {
      var s, at := w.steps[step], w.at[step];
      var i := if at >= 0 then at else Runnable(ForgetLines(s.lines), 0);
      ForgetStamped(w, step, o.ts);
      if i >= 0 {
        var line := AddOutput(s.lines[i], o);
        ForgetUpdate(s.lines, i, line);
        LineAt(s.lines, i);
        StepAt(w, step);
        ForgetSameAt(Stamped(w, step, o.ts), step, s.(lines := s.lines[i := line]));
        assert ForgetLines(s.lines)[i := ForgetLines(s.lines)[i]] == ForgetLines(s.lines);
        assert ForgetWf(w)[step := ForgetWf(w)[step]] == ForgetWf(w);
      }
    }
  }

  /** Every event keeps the positions in range, and moves what control events determine as the machine does. */
  lemma {:induction false} WfRefines(w: Wf, c: Control, p: Parsing, e: Event)
    requires WfOk(w) && c.waterfall == ForgetWf(w)
    ensures WfOk(NextWf(w, p, e)) && ForgetWf(NextWf(w, p, e)) == Next(c, p, e).waterfall
  {
    hide WfOk, ForgetWf, InitWf, EnterWf, EndWf, FireWf, OutputWf, Entered, Ended, Fired, FreshSteps;
    match e {
      case CallStart(_, sessionID, input, pid, steps) => InitRefines(p, Info(sessionID, input, steps, pid));
      case StepStart(_, step, name, action, hosts) => EnterRefines(w, step, name, action, hosts);
      case StepEnd(_, step, exitCode, durationMs) => EndRefines(w, step, exitCode, durationMs);
      case CallEnd(_, _, _, _) =>
      case Executing(_, _, _, _, _, _) => FireRefines(w, p, e);
      case Stdout(ts, step, host, line) => OutputRefines(w, step, Out("stdout", line, host, ts));
      case Stderr(ts, step, host, line) => OutputRefines(w, step, Out("stderr", line, host, ts));
      case Unknown(_) =>
    }
  }

  // ---- The reducer ----

  method FindLineByLineNo(lines: seq<SrcLine>, lineNo: int) returns (r: int)
    ensures r == if lineNo == 0 then -1 else ByNumber(ForgetLines(lines), lineNo, 0)
  {
    if lineNo == 0 {
      return -1;
    }
    for i := 0 to |lines|
      invariant ByNumber(ForgetLines(lines), lineNo, 0) == ByNumber(ForgetLines(lines), lineNo, i)
    {
      if lines[i].lineNo == lineNo {
        return i;
      }
    }
    return -1;
  }

  method FirstNonSkipped(lines: seq<SrcLine>) returns (r: int)
    ensures r == Runnable(ForgetLines(lines), 0)
  {
    for i := 0 to |lines|
      invariant Runnable(ForgetLines(lines), 0) == Runnable(ForgetLines(lines), i)
    {
      if !lines[i].skipped {
        return i;
      }
    }
    return -1;
  }

  method InitSteps(parsing: Parsing, input: string, steps: seq<Brief>) returns (made: seq<WfStep>)
    ensures made == OwnSteps(parsing, input, steps)
  {
    hide OwnLines;
    var bodies := parsing.bodies(input);
    var configLines := parsing.config(input);
    made := [];
    for i := 0 to |steps|
      invariant |made| == i
      invariant forall k :: 0 <= k < i ==> made[k] == OwnStep(parsing, input, steps[k], k)
    {
      var b := steps[i];
      var config := if i < |configLines| then configLines[i] else "";
      var lines := OwnLines(if i < |bodies| then bodies[i] else []);
      made := made + [WfStep(Head(b.name, b.action, b.hosts, b.params, config, false, false, 0, 0), lines)];
    }
  }

  method InitStatuses(steps: seq<Brief>) returns (made: seq<Status>)
    ensures made == FreshStatuses(steps)
  {
    made := [];
    for i := 0 to |steps|
      invariant |made| == i && forall k :: 0 <= k < i ==> made[k] == StatusOf(steps[k])
    {
      var b := steps[i];
      made := made + [Status(b.name, b.action, b.hosts, b.params, false, false, 0, 0)];
    }
  }

  class ActiveCall {
    const parsing: Parsing
    const unlimitedTail: bool
    var info: Info
    var startedAt: Time
    var currentStep: int
    var statuses: seq<Status>
    var running: Running
    var ending: Ending
    var tail: seq<TailLine>
    var waterfall: seq<WfStep>
    var lineIdx: seq<int>
    var firstAnyTs: seq<Time>
    var lastTs: seq<Time>
    var version: nat

    ghost function W(): Wf
      reads this`waterfall, this`lineIdx, this`firstAnyTs, this`lastTs
    {
      Wf(waterfall, lineIdx, firstAnyTs, lastTs)
    }

    ghost predicate Valid()
      reads this`waterfall, this`lineIdx, this`firstAnyTs, this`lastTs
    {
      WfOk(W())
    }

    /** What control events determine. */
    ghost function View(): Control
      reads this`waterfall, this`lineIdx, this`firstAnyTs, this`lastTs
      reads this`info, this`currentStep, this`statuses, this`running, this`ending
      requires Valid()
    {
      Control(info, currentStep, statuses, running, ending, ForgetWf(W()))
    }

    constructor (parsing: Parsing, unlimitedTail: bool)
      ensures Valid() && View() == FRESH && tail == [] && startedAt == 0 && version == 0
      ensures this.parsing == parsing && this.unlimitedTail == unlimitedTail
    {
      this.parsing, this.unlimitedTail := parsing, unlimitedTail;
      info, startedAt, currentStep, statuses := Info("", "", [], 0), 0, -1, [];
      running, ending := Running("", "", 0), Ending(false, "");
      tail, waterfall, lineIdx, firstAnyTs, lastTs, version := [], [], [], [], [], 0;
    }

    method AppendTail(t: TailLine)
      modifies this`tail
      ensures tail == Latest(old(tail) + [t], unlimitedTail)
    {
      tail := tail + [t];
      if !unlimitedTail && |tail| > MAX_TAIL {
        tail := tail[|tail| - MAX_TAIL..];
      }
    }

    method WfTrackTs(si: nat, ts: Time)
      requires Valid() && si < |waterfall|
      modifies this`firstAnyTs, this`lastTs
      ensures W() == Stamped(old(W()), si, ts)
    {
      if ts == 0 {
        return;
      }
      if firstAnyTs[si] == 0 {
        firstAnyTs := firstAnyTs[si := ts];
      }
      if ts > lastTs[si] {
        lastTs := lastTs[si := ts];
      }
    }

    method WfInitWaterfall()
      modifies this`waterfall, this`lineIdx, this`firstAnyTs, this`lastTs
      ensures W() == InitWf(parsing, info)
    {
      var n := |info.steps|;
      waterfall := InitSteps(parsing, info.input, info.steps);
      lineIdx := seq(n, _ => -1);
      firstAnyTs := seq(n, _ => 0);
      lastTs := seq(n, _ => 0);
    }

    method WfStepStart(e: Event)
      requires e.StepStart? && Valid()
      modifies this`waterfall
      ensures W() == EnterWf(old(W()), e.step, e.name, e.action, e.hosts)
    {
      var si := e.step;
      if si < 0 || si >= |waterfall| {
        return;
      }
      waterfall := waterfall[si := waterfall[si].(head := Renamed(waterfall[si].head, e.name, e.action, e.hosts))];
      if si > 0 && waterfall[si - 1].head.ended {
        var prev := lineIdx[si - 1];
        if prev >= 0 && prev < |waterfall[si - 1].lines| {
          var ws := waterfall[si - 1];
          waterfall := waterfall[si - 1 := ws.(lines := ws.lines[prev := ws.lines[prev].(done := true)])];
        } else {
          assert waterfall[si - 1 := waterfall[si - 1]] == waterfall;
        }
      }
    }

    method WfStepEnd(e: Event)
      requires e.StepEnd? && Valid()
      modifies this`waterfall
      ensures W() == EndWf(old(W()), e.step, e.exitCode, e.durationMs)
    {
      var si := e.step;
      if si < 0 || si >= |waterfall| {
        return;
      }
      var ws := waterfall[si].(head := waterfall[si].head.(ended := true, exitCode := e.exitCode, durationMs := e.durationMs));
      var at := lineIdx[si];
      if at < 0 || at >= |ws.lines| {
        waterfall := waterfall[si := ws];
        return;
      }
      var line := ws.lines[at].(done := true);
      var end;
      if firstAnyTs[si] != 0 && ws.head.durationMs > 0 {
        end := firstAnyTs[si] + ws.head.durationMs;
      } else if lastTs[si] != 0 {
        end := lastTs[si];
      } else {
        end := line.startTs;
      }
      line := line.(endTs := end);
      var n := |line.subs|;
      if n > 0 && line.subs[n - 1].endTs == 0 {
        line := line.(subs := line.subs[n - 1 := line.subs[n - 1].(endTs := end)]);
      }
      assert line == Closed(ws.lines[at], end, true);
      waterfall := waterfall[si := ws.(lines := ws.lines[at := line])];
    }

    method WfExecuting(e: Event)
      requires e.Executing? && Valid()
      modifies this`waterfall, this`lineIdx, this`firstAnyTs, this`lastTs
      ensures W() == FireWf(old(W()), parsing, e)
    {
      hide ForgetLines, ByNumber, Runnable, Stamped;
      var si := e.step;
      if si < 0 || si >= |waterfall| {
        return;
      }
      WfTrackTs(si, e.ts);
      ForgetStamped(old(W()), si, e.ts);
      var step := waterfall[si];
      var prev := lineIdx[si];
      var i := FindLineByLineNo(step.lines, e.lineNo);
      if i < 0 {
        i := prev;
        if i < 0 {
          i := FirstNonSkipped(step.lines);
        }
        if i < 0 {
          return;
        }
      }
      var lines := step.lines;
      if prev >= 0 && prev != i {
        lines := lines[prev := Closed(lines[prev], e.ts, false)];
      }
      lines := lines[i := FiredLine(lines[i], parsing, e)];
      waterfall := waterfall[si := step.(lines := lines)];
      lineIdx := lineIdx[si := i];
    }

    method WfOutput(si: int, host: string, ts: Time, stream: string, text: string)
      requires Valid()
      modifies this`waterfall, this`firstAnyTs, this`lastTs
      ensures W() == OutputWf(old(W()), si, Out(stream, text, host, ts))
    {
      hide ForgetLines, Runnable, Stamped;
      if si < 0 || si >= |waterfall| {
        return;
      }
      WfTrackTs(si, ts);
      ForgetStamped(old(W()), si, ts);
      var step := waterfall[si];
      var i := lineIdx[si];
      if i < 0 {
        i := FirstNonSkipped(step.lines);
      }
      if i < 0 {
        return;
      }
      var line := step.lines[i];
      if !line.started {
        line := line.(started := true);
        if line.startTs == 0 {
          line := line.(startTs := ts);
        }
      }
      if |line.output| < MAX_OUTPUT {
        line := line.(output := line.output + [Out(stream, text, host, ts)]);
      }
      assert line == AddOutput(step.lines[i], Out(stream, text, host, ts));
      waterfall := waterfall[si := step.(lines := step.lines[i := line])];
    }

    /** The fields besides the waterfall and the tail. */
    method ApplyHeader(e: Event, now: Time)
      requires Valid()
      modifies this`info, this`startedAt, this`currentStep, this`statuses, this`running, this`ending
      ensures
        var c := Next(old(View()), parsing, e);
        info == c.info && currentStep == c.currentStep && statuses == c.statuses && running == c.running && ending == c.ending
      ensures startedAt == if e.CallStart? then (if e.ts != 0 then e.ts else now) else old(startedAt)
    {
      hide ForgetWf, Entered, Ended, Fired, FreshSteps;
      match e {
        case CallStart(ts, sessionID, input, pid, steps) =>
          info := Info(sessionID, input, steps, pid);
          statuses := InitStatuses(steps);
          currentStep := -1;
          startedAt := if ts != 0 then ts else now;
        case StepStart(_, step, name, action, hosts) =>
          currentStep := step;
          if 0 <= step < |statuses| {
            statuses := statuses[step := Restarted(statuses[step], name, action, hosts)];
          }
          running := running.(cmd := "", host := "");
        case StepEnd(_, step, exitCode, durationMs) =>
          if 0 <= step < |statuses| {
            statuses := statuses[step := statuses[step].(ended := true, exitCode := exitCode, durationMs := durationMs)];
          }
        case CallEnd(_, status, _, _) =>
          ending := Ending(true, status);
        case Executing(_, _, host, cmd, elapsedSec, _) =>
          running := Running(cmd, host, elapsedSec);
        case _ =>
      }
    }

    /** The waterfall. */
    method ApplyWaterfall(e: Event)
      requires Valid() && (e.CallStart? ==> info == Info(e.sessionID, e.input, e.steps, e.pid))
      modifies this`waterfall, this`lineIdx, this`firstAnyTs, this`lastTs
      ensures W() == NextWf(old(W()), parsing, e)
    {
      hide InitWf, EnterWf, EndWf, FireWf, OutputWf;
      match e {
        case CallStart(_, _, _, _, _) => WfInitWaterfall();
        case StepStart(_, _, _, _, _) => WfStepStart(e);
        case StepEnd(_, _, _, _) => WfStepEnd(e);
        case Executing(_, _, _, _, _, _) => WfExecuting(e);
        case Stdout(ts, step, host, line) => WfOutput(step, host, ts, "stdout", line);
        case Stderr(ts, step, host, line) => WfOutput(step, host, ts, "stderr", line);
        case _ =>
      }
    }

    /** One event. What control events determine moves as the control machine does; output leaves it where it is. */
    method Apply(e: Event, now: Time)
      requires Valid()
      modifies this
      ensures Valid() && View() == Next(old(View()), parsing, e)
      ensures W() == NextWf(old(W()), parsing, e)
      ensures tail == if TailOf(e) == [] then old(tail) else Latest(old(tail) + TailOf(e), unlimitedTail)
      ensures startedAt == if e.CallStart? then (if e.ts != 0 then e.ts else now) else old(startedAt)
      ensures version == old(version) + 1
    {
      hide Next, NextWf, WfOk, ForgetWf;
      NextInfo(View(), parsing, e);
      WfRefines(W(), View(), parsing, e);
      ApplyHeader(e, now);
      if TailOf(e) != [] {
        AppendTail(TailOf(e)[0]);
        assert TailOf(e) == [TailOf(e)[0]];
      }
      ApplyWaterfall(e);
      version := version + 1;
    }
  }

  lemma NextInfo(c: Control, p: Parsing, e: Event)
    ensures e.CallStart? ==> Next(c, p, e).info == Info(e.sessionID, e.input, e.steps, e.pid)
  {
  }

  /** Replays a whole event file, as the history view does. */
  method LoadStaticWaterfall(parsing: Parsing, events: seq<Event>, now: Time) returns (a: ActiveCall)
    ensures fresh(a) && a.Valid() && a.View() == After(FRESH, parsing, events)
  {
    a := new ActiveCall(parsing, true);
    for i := 0 to |events|
      invariant fresh(a) && a.Valid() && a.parsing == parsing && a.View() == After(FRESH, parsing, events[..i])
    {
      assert events[..i + 1][..i] == events[..i];
      a.Apply(events[i], now);
    }
    assert events[..|events|] == events;
  }

  // ---- Output may be dropped ----

  function ControlOf(events: seq<Event>): seq<Event>
  {
    if events == [] then []
    else ControlOf(events[..|events| - 1]) + if IsControl(events[|events| - 1]) then [events[|events| - 1]] else []
  }

  lemma OutputIsInvisible(c: Control, p: Parsing, e: Event)
    requires !IsControl(e)
    ensures Next(c, p, e) == c
  {
  }

  lemma {:induction false} OnlyControlMatters(c: Control, p: Parsing, events: seq<Event>)
    ensures After(c, p, events) == After(c, p, ControlOf(events))
  {
    hide Next;
    if events != [] {
      var front, e := events[..|events| - 1], events[|events| - 1];
      OnlyControlMatters(c, p, front);
      if IsControl(e) {
        assert ControlOf(events)[..|ControlOf(events)| - 1] == ControlOf(front);
      } else {
        OutputIsInvisible(After(c, p, front), p, e);
        assert ControlOf(events) == ControlOf(front);
      }
    }
  }

  /**
   Whatever output events are dropped on the way, the live view and a full replay agree on everything
   that control events determine: step states, the executing command, and of every line its commands
   and whether it is done.
   */
  lemma {:induction false} LiveAgreesWithReplay(p: Parsing, delivered: seq<Event>, all: seq<Event>)
    requires ControlOf(delivered) == ControlOf(all)
    ensures After(FRESH, p, delivered) == After(FRESH, p, all)
  {
    OnlyControlMatters(FRESH, p, delivered);
    OnlyControlMatters(FRESH, p, all);
  }
}
