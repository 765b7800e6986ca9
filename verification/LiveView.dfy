/**
 What the live view shows, by the numbers, positions and time stamps of lines, and by the events themselves.
 */
module LiveView {
  import opened Live

  // ---- Where a fired command goes ----

  /** The first line with the event's number, where it carries one. */
  predicate Numbered(numbers: seq<int>, lineNo: int, i: nat)
  {
    lineNo != 0 && i < |numbers| && numbers[i] == lineNo && forall k :: 0 <= k < i ==> numbers[k] != lineNo
  }

  /** The first line that is executed at all. */
  predicate FirstRun(skipped: seq<bool>, i: nat)
  {
    i < |skipped| && !skipped[i] && forall k :: 0 <= k < i ==> skipped[k]
  }

  /**
   The line of a command that fires: the first with its number; else, where no line has it, the line at the
   step's position; else, before any position, the first that is executed.
   */
  ghost predicate Belongs(numbers: seq<int>, skipped: seq<bool>, at: int, lineNo: int, i: nat)
    requires |numbers| == |skipped|
  {
    || Numbered(numbers, lineNo, i)
    || ((lineNo == 0 || lineNo !in numbers) && (i == at || (at < 0 && FirstRun(skipped, i))))
  }

  function NumbersOf(lines: seq<CLine>): (r: seq<int>)
    ensures |r| == |lines|
  {
    seq(|lines|, i requires 0 <= i < |lines| => lines[i].lineNo)
  }

  function SkippedOf(lines: seq<CLine>): (r: seq<bool>)
    ensures |r| == |lines|
  {
    seq(|lines|, i requires 0 <= i < |lines| => lines[i].skipped)
  }

  /** Line `i` gains the command and no other; the line left behind is done; the position moves. */
  ghost predicate Gains(s: CStep, t: CStep, i: nat, p: Parsing, e: Event)
    requires e.Executing? && i < |s.lines|
  {
    && t.head == s.head && t.at == i && |t.lines| == |s.lines|
    && t.lines[i] == s.lines[i].(subs := s.lines[i].subs + [CSub(e.cmd, e.ts, e.host, p.operand(s.lines[i].operands, e.cmd))])
    && forall j :: 0 <= j < |s.lines| && j != i ==> t.lines[j] == if j == s.at then s.lines[j].(done := true) else s.lines[j]
  }

  lemma {:induction false} LineForBelongs(s: CStep, lineNo: int, i: nat)
    requires -1 <= s.at < |s.lines| && i < |s.lines|
    ensures LineFor(s, lineNo) < |s.lines|
    ensures Belongs(NumbersOf(s.lines), SkippedOf(s.lines), s.at, lineNo, i) <==> LineFor(s, lineNo) == i
  {
    var numbers, skipped := NumbersOf(s.lines), SkippedOf(s.lines);
    assert forall k :: 0 <= k < |s.lines| ==> numbers[k] == s.lines[k].lineNo && skipped[k] == s.lines[k].skipped;
    if lineNo in numbers {
      var k :| 0 <= k < |numbers| && numbers[k] == lineNo;
      assert s.lines[k].lineNo == lineNo;
    }
  }

  /** A fired command goes to the line it belongs to, and to no other; where there is none, nothing changes. */
  lemma {:induction false} FiresWhereItBelongs(s: CStep, p: Parsing, e: Event)
    requires e.Executing? && -1 <= s.at < |s.lines|
    ensures forall i: nat :: i < |s.lines| && Belongs(NumbersOf(s.lines), SkippedOf(s.lines), s.at, e.lineNo, i) ==>
      Gains(s, Fire(s, p, e), i, p, e)
    ensures (forall i: nat :: i < |s.lines| ==> !Belongs(NumbersOf(s.lines), SkippedOf(s.lines), s.at, e.lineNo, i)) ==>
      Fire(s, p, e) == s
  {
    hide LineFor, Belongs, NumbersOf, SkippedOf;
    var n := LineFor(s, e.lineNo);
    if 0 <= n < |s.lines| {
      LineForBelongs(s, e.lineNo, n);
    }
    forall i: nat | i < |s.lines|
      ensures Belongs(NumbersOf(s.lines), SkippedOf(s.lines), s.at, e.lineNo, i) <==> n == i
    {
      LineForBelongs(s, e.lineNo, i);
    }
  }

  /** The same of the full view: `i` is the line that the command goes to, `at` the one it leaves. */
  ghost predicate Shows(s: WfStep, at: int, t: WfStep, i: nat, p: Parsing, e: Event)
    requires e.Executing? && i < |s.lines|
  {
    && t.head == s.head && |t.lines| == |s.lines|
    && GainsSub(s.lines[i], t.lines[i], p, e)
    && (forall j :: 0 <= j < |s.lines| && j != i && j != at ==> t.lines[j] == s.lines[j])
    && (0 <= at < |s.lines| && at != i ==> Leaves(s.lines[at], t.lines[at], e.ts))
  }

  /** The commands before the last one are as they were, and the last one has ended. */
  ghost predicate LastEnds(before: seq<Sub>, after: seq<Sub>, end: Time)
  {
    && |before| <= |after|
    && forall k :: 0 <= k < |before| ==> after[k] == if k == |before| - 1 then before[k].(endTs := end) else before[k]
  }

  /** The line starts if it had not, its last command ends, and the new one begins. */
  ghost predicate GainsSub(before: SrcLine, after: SrcLine, p: Parsing, e: Event)
    requires e.Executing?
  {
    && after == before.(started := true, startTs := after.startTs, subs := after.subs)
    && after.startTs == (if before.started then before.startTs else e.ts)
    && LastEnds(before.subs, after.subs, e.ts)
    && |after.subs| == |before.subs| + 1
    && after.subs[|before.subs|] == Sub(e.cmd, e.ts, 0, e.host, p.operand(before.operands, e.cmd))
  }

  /** The line left behind is done and ends, as its last command does. */
  ghost predicate Leaves(before: SrcLine, after: SrcLine, end: Time)
  {
    && after == before.(done := true, endTs := end, subs := after.subs)
    && |after.subs| == |before.subs| && LastEnds(before.subs, after.subs, end)
  }

  lemma LineLeaves(line: SrcLine, end: Time)
    ensures Leaves(line, Closed(line, end, false), end)
  {
  }

  lemma LineGains(line: SrcLine, p: Parsing, e: Event)
    requires e.Executing?
    ensures GainsSub(line, FiredLine(line, p, e), p, e)
  {
  }

  /** The first and the latest instant at which anything happened in a step; instant 0 counts for nothing. */
  ghost predicate Stamps(w: Wf, v: Wf, si: nat, ts: Time)
    requires WfOk(w) && WfOk(v) && si < |w.steps| == |v.steps|
  {
    && (forall j :: 0 <= j < |w.steps| && j != si ==> v.first[j] == w.first[j] && v.last[j] == w.last[j])
    && v.first[si] == (if w.first[si] == 0 then ts else w.first[si])
    && v.last[si] == (if ts != 0 && ts > w.last[si] then ts else w.last[si])
  }

  lemma StampedStamps(w: Wf, si: nat, ts: Time)
    requires WfOk(w) && si < |w.steps|
    ensures
      var v := Stamped(w, si, ts);
      WfOk(v) && v.steps == w.steps && v.at == w.at && Stamps(w, v, si, ts)
  {
  }

  /** Of the view's lines, which is meant. */
  ghost predicate LineMeant(s: WfStep, at: int, lineNo: int, i: nat)
  {
    Belongs(NumbersOf(ForgetLines(s.lines)), SkippedOf(ForgetLines(s.lines)), at, lineNo, i)
  }

  lemma MeantByLines(s: WfStep, at: int, lineNo: int, i: nat)
    ensures
      var numbers := seq(|s.lines|, k requires 0 <= k < |s.lines| => s.lines[k].lineNo);
      var skipped := seq(|s.lines|, k requires 0 <= k < |s.lines| => s.lines[k].skipped);
      LineMeant(s, at, lineNo, i) <==> Belongs(numbers, skipped, at, lineNo, i)
  {
    assert NumbersOf(ForgetLines(s.lines)) == seq(|s.lines|, k requires 0 <= k < |s.lines| => s.lines[k].lineNo);
    assert SkippedOf(ForgetLines(s.lines)) == seq(|s.lines|, k requires 0 <= k < |s.lines| => s.lines[k].skipped);
  }

  lemma MeantIsLineFor(s: WfStep, at: int, lineNo: int, i: nat)
    requires -1 <= at < |s.lines| && i < |s.lines|
    ensures LineFor(ForgetStep(s, at), lineNo) < |s.lines|
    ensures LineMeant(s, at, lineNo, i) <==> LineFor(ForgetStep(s, at), lineNo) == i
  {
    LineForBelongs(ForgetStep(s, at), lineNo, i);
  }

  lemma MeantExists(s: WfStep, at: int, lineNo: int)
    requires -1 <= at < |s.lines| && LineFor(ForgetStep(s, at), lineNo) >= 0
    ensures LineFor(ForgetStep(s, at), lineNo) < |s.lines| && LineMeant(s, at, lineNo, LineFor(ForgetStep(s, at), lineNo))
  {
    var n := LineFor(ForgetStep(s, at), lineNo);
    LineForBelongs(ForgetStep(s, at), lineNo, n);
  }

  lemma FiredStepShows(s: WfStep, at: int, n: nat, p: Parsing, e: Event)
    requires e.Executing? && -1 <= at < |s.lines| && n < |s.lines|
    ensures Shows(s, at, FiredStep(s, at, n, p, e), n, p, e)
  {
    LineGains(s.lines[n], p, e);
    if at >= 0 {
      LineLeaves(s.lines[at], e.ts);
    }
    hide Closed, FiredLine, Leaves, GainsSub;
  }

  /** The same of the view: a fired command is shown on the line it belongs to, its step is stamped, and nothing else changes. */
  lemma {:induction false} FiredIsShown(w: Wf, p: Parsing, e: Event)
    requires WfOk(w) && e.Executing? && 0 <= e.step < |w.steps|
    ensures
      var v, s, at := NextWf(w, p, e), w.steps[e.step], w.at[e.step];
      && WfOk(v) && |v.steps| == |w.steps| && Stamps(w, v, e.step, e.ts)
      && (forall j :: 0 <= j < |w.steps| && j != e.step ==> v.steps[j] == w.steps[j] && v.at[j] == w.at[j])
      && (forall i: nat :: i < |s.lines| && LineMeant(s, at, e.lineNo, i) ==> v.at[e.step] == i && Shows(s, at, v.steps[e.step], i, p, e))
      && ((forall i: nat :: i < |s.lines| ==> !LineMeant(s, at, e.lineNo, i)) ==> v.steps == w.steps && v.at == w.at)
  {
    FireRefines(w, p, e);
    StampedStamps(w, e.step, e.ts);
    hide LineFor, Belongs, NumbersOf, SkippedOf, ForgetWf, ForgetStep, Stamped, Stamps, Shows, FiredStep, LineMeant;
    var s, at := w.steps[e.step], w.at[e.step];
    var n := LineFor(ForgetStep(s, at), e.lineNo);
    forall i: nat | i < |s.lines| ensures n < |s.lines| && (LineMeant(s, at, e.lineNo, i) <==> n == i) {
      MeantIsLineFor(s, at, e.lineNo, i);
    }
    if 0 <= n {
      MeantExists(s, at, e.lineNo);
      FiredStepShows(s, at, n, p, e);
    }
  }

  // ---- Where output goes ----

  /** Output goes to the line at the position, or before any to the first that is executed; where there is none, nothing shows. */
  ghost predicate OutputMeant(s: WfStep, at: int, i: nat)
  {
    i == at || (at < 0 && FirstRun(SkippedOf(ForgetLines(s.lines)), i))
  }

  lemma RunnableIsFirst(lines: seq<SrcLine>, i: nat)
    requires i < |lines|
    ensures Runnable(ForgetLines(lines), 0) < |lines|
    ensures FirstRun(SkippedOf(ForgetLines(lines)), i) <==> Runnable(ForgetLines(lines), 0) == i
  {
    var skipped := SkippedOf(ForgetLines(lines));
    assert forall k :: 0 <= k < |lines| ==> skipped[k] == ForgetLines(lines)[k].skipped;
  }

  /** It starts a line that no command has started, and is kept up to 200 pieces. */
  ghost predicate GainsOutput(before: SrcLine, after: SrcLine, o: Out)
  {
    && after == before.(started := true, startTs := after.startTs, output := after.output)
    && after.startTs == (if before.started || before.startTs != 0 then before.startTs else o.ts)
    && after.output == if |before.output| < 200 then before.output + [o] else before.output
  }

  ghost predicate ShowsOutput(w: Wf, v: Wf, step: nat, o: Out)
    requires WfOk(w) && step < |w.steps|
  {
    var s, at := w.steps[step], w.at[step];
    && WfOk(v) && |v.steps| == |w.steps| && v.at == w.at && Stamps(w, v, step, o.ts)
    && (forall j :: 0 <= j < |w.steps| && j != step ==> v.steps[j] == w.steps[j])
    && v.steps[step].head == s.head && |v.steps[step].lines| == |s.lines|
    && forall i: nat :: i < |s.lines| ==>
      if OutputMeant(s, at, i) then GainsOutput(s.lines[i], v.steps[step].lines[i], o)
      else v.steps[step].lines[i] == s.lines[i]
  }

  lemma OutputWfShows(w: Wf, step: nat, o: Out)
    requires WfOk(w) && step < |w.steps|
    ensures ShowsOutput(w, OutputWf(w, step, o), step, o)
  {
    OutputRefines(w, step, o);
    StampedStamps(w, step, o.ts);
    var s, at := w.steps[step], w.at[step];
    forall i: nat | i < |s.lines|
      ensures Runnable(ForgetLines(s.lines), 0) < |s.lines|
      ensures FirstRun(SkippedOf(ForgetLines(s.lines)), i) <==> Runnable(ForgetLines(s.lines), 0) == i
    {
      RunnableIsFirst(s.lines, i);
    }
    hide ForgetWf, Stamped, Stamps, Runnable, FirstRun, SkippedOf, ForgetLines;
  }

  /** Output is shown on its line, its step is stamped, and nothing else changes. */
  lemma {:induction false} OutputIsShown(w: Wf, p: Parsing, e: Event)
    requires WfOk(w) && (e.Stdout? || e.Stderr?) && 0 <= e.step < |w.steps|
    ensures ShowsOutput(w, NextWf(w, p, e), e.step, Out(if e.Stdout? then "stdout" else "stderr", e.line, e.host, e.ts))
  {
    OutputWfShows(w, e.step, Out(if e.Stdout? then "stdout" else "stderr", e.line, e.host, e.ts));
    hide ShowsOutput, OutputWf, WfOk;
  }

  // ---- The end and the start of a step ----

  /** The line ends `end`, and so does its last command unless it has ended. */
  ghost predicate Ends(before: SrcLine, after: SrcLine, end: Time)
  {
    var n := |before.subs|;
    && after == before.(done := true, endTs := end, subs := after.subs)
    && (if n > 0 && before.subs[n - 1].endTs == 0 then LastEnds(before.subs, after.subs, end) && |after.subs| == n else after.subs == before.subs)
  }

  /**
   A step's end closes its line: at the step's first instant plus its duration if both are known, else at its
   latest instant, else when the line began.
   */
  lemma {:induction false} EndIsShown(w: Wf, p: Parsing, e: Event)
    requires WfOk(w) && e.StepEnd? && 0 <= e.step < |w.steps|
    ensures
      var v, step, s, at := NextWf(w, p, e), e.step, w.steps[e.step], w.at[e.step];
      && WfOk(v) && |v.steps| == |w.steps| && v.at == w.at && v.first == w.first && v.last == w.last
      && (forall j :: 0 <= j < |w.steps| && j != step ==> v.steps[j] == w.steps[j])
      && v.steps[step].head == s.head.(ended := true, exitCode := e.exitCode, durationMs := e.durationMs)
      && |v.steps[step].lines| == |s.lines|
      && (forall j :: 0 <= j < |s.lines| && j != at ==> v.steps[step].lines[j] == s.lines[j])
      && (at >= 0 ==> Ends(s.lines[at], v.steps[step].lines[at],
            if w.first[step] != 0 && e.durationMs > 0 then w.first[step] + e.durationMs
            else if w.last[step] != 0 then w.last[step]
            else s.lines[at].startTs))
  {
    EndRefines(w, e.step, e.exitCode, e.durationMs);
  }

  predicate Untouched(line: SrcLine, s: Source)
  {
    line == SrcLine(s.lineNo, s.text, s.skipped, s.operands, [], 0, 0, false, false, [])
  }

  /** The start of a call lays out its steps as announced, with the lines that the parser found for each, all untouched. */
  lemma {:induction false} CallStartIsShown(w: Wf, p: Parsing, e: Event, i: nat)
    requires WfOk(w) && e.CallStart? && i < |e.steps|
    ensures
      var v, b, config := NextWf(w, p, e), e.steps[i], p.config(e.input);
      var lines := if i < |p.bodies(e.input)| then p.bodies(e.input)[i] else [];
      && WfOk(v) && |v.steps| == |e.steps| && v.at[i] == -1 && v.first[i] == 0 && v.last[i] == 0
      && v.steps[i].head == Head(b.name, b.action, b.hosts, b.params, if i < |config| then config[i] else "", false, false, 0, 0)
      && |v.steps[i].lines| == |lines|
      && forall k :: 0 <= k < |lines| ==> Untouched(v.steps[i].lines[k], lines[k])
  {
    InitRefines(p, Info(e.sessionID, e.input, e.steps, e.pid));
  }

  /** The step starts under the names that its start gives it, if any. */
  ghost predicate Starts(before: Head, after: Head, name: string, action: string, hosts: seq<string>)
  {
    && after == before.(started := true, name := after.name, action := after.action, hosts := after.hosts)
    && after.name == (if name == "" then before.name else name)
    && after.action == (if action == "" then before.action else action)
    && after.hosts == (if hosts == [] then before.hosts else hosts)
  }

  /** The start of a step marks its predecessor's line done, if that has ended, and nothing else. */
  lemma {:induction false} StartIsShown(w: Wf, p: Parsing, e: Event)
    requires WfOk(w) && e.StepStart? && 0 <= e.step < |w.steps|
    ensures
      var v, step := NextWf(w, p, e), e.step;
      && WfOk(v) && |v.steps| == |w.steps| && v.at == w.at && v.first == w.first && v.last == w.last
      && Starts(w.steps[step].head, v.steps[step].head, e.name, e.action, e.hosts) && v.steps[step].lines == w.steps[step].lines
      && (forall j :: 0 <= j < |w.steps| && j != step && j != step - 1 ==> v.steps[j] == w.steps[j])
      && (step > 0 ==>
           var s, t, at := w.steps[step - 1], v.steps[step - 1], w.at[step - 1];
           if s.head.ended && at >= 0 then t == s.(lines := s.lines[at := s.lines[at].(done := true)]) else t == s)
  {
    EnterRefines(w, e.step, e.name, e.action, e.hosts);
  }

  // ---- The tail ----

  /** The tail keeps the latest 500 lines, or all of them where it is unlimited. */
  lemma LatestKept(all: seq<TailLine>, unlimited: bool)
    ensures
      var tail := Live.Latest(all, unlimited);
      |tail| == (if unlimited || |all| <= 500 then |all| else 500) && tail == all[|all| - |tail|..]
  {
  }

  /** Commands and output have a line in the tail, and nothing else has. */
  lemma TailShows(e: Event)
    ensures |TailOf(e)| == if e.Executing? || e.Stdout? || e.Stderr? then 1 else 0
    ensures TailOf(e) != [] ==>
      var t := TailOf(e)[0];
      && (t.stream, t.text) == (if e.Executing? then ("executing", e.cmd) else (if e.Stdout? then "stdout" else "stderr", e.line))
      && t.step == e.step && t.host == e.host && t.ts == e.ts && t.lineNo == if e.Executing? then e.lineNo else 0
  {
  }

  // ---- The state by the events ----

  /** The events after the latest start of the call. */
  ghost function Since(events: seq<Event>): seq<Event>
  {
    if events == [] then []
    else if events[|events| - 1].CallStart? then []
    else Since(events[..|events| - 1]) + [events[|events| - 1]]
  }

  /** The latest event of a kind, or -1. */
  ghost function Latest(events: seq<Event>, kind: Event -> bool): (k: int)
    ensures -1 <= k < |events| && (k >= 0 ==> kind(events[k]))
    ensures forall j :: k < j < |events| ==> !kind(events[j])
  {
    if events == [] then -1
    else if kind(events[|events| - 1]) then |events| - 1
    else Latest(events[..|events| - 1], kind)
  }

  ghost const CALL_START: Event -> bool := (e: Event) => e.CallStart?
  ghost const CALL_END: Event -> bool := (e: Event) => e.CallEnd?
  ghost const STEP_START: Event -> bool := (e: Event) => e.StepStart?

  ghost function StartsStep(i: nat): Event -> bool
  {
    (e: Event) => e.StepStart? && e.step == i
  }

  ghost function EndsStep(i: nat): Event -> bool
  {
    (e: Event) => e.StepEnd? && e.step == i
  }

  ghost function NamesStep(i: nat): Event -> bool
  {
    (e: Event) => e.StepStart? && e.step == i && e.name != ""
  }

  lemma SinceSnoc(events: seq<Event>, e: Event)
    ensures Since(events + [e]) == if e.CallStart? then [] else Since(events) + [e]
  {
    assert (events + [e])[..|events|] == events;
  }

  lemma LatestSnoc(events: seq<Event>, e: Event, kind: Event -> bool)
    ensures Latest(events + [e], kind) == if kind(e) then |events| else Latest(events, kind)
  {
    assert (events + [e])[..|events|] == events;
  }

  /** The call is what its latest start announced. */
  lemma {:induction false} InfoByEvents(p: Parsing, events: seq<Event>)
    ensures
      var c, k := After(FRESH, p, events), Latest(events, CALL_START);
      && c.info == (if k < 0 then Info("", "", [], 0) else Info(events[k].sessionID, events[k].input, events[k].steps, events[k].pid))
      && |c.statuses| == |c.waterfall| == |c.info.steps|
  {
    if events != [] {
      var front, e := events[..|events| - 1], events[|events| - 1];
      InfoByEvents(p, front);
      hide FreshSteps, FreshStatuses, Fired, Entered, Ended, MarkDone;
      SizesStay(After(FRESH, p, front), p, e);
    }
  }

  lemma SizesStay(c: Control, p: Parsing, e: Event)
    ensures
      var d := Next(c, p, e);
      if e.CallStart? then |d.statuses| == |d.waterfall| == |e.steps|
      else |d.statuses| == |c.statuses| && |d.waterfall| == |c.waterfall|
  {
  }

  /** The state of a step, by the events since the call started: in the list of statuses and in the waterfall alike. */
  ghost predicate StepBy(events: seq<Event>, i: nat, name: string, started: bool, ended: bool, exitCode: int, durationMs: int, announced: string)
  {
    var s := Since(events);
    var end, naming := Latest(s, EndsStep(i)), Latest(s, NamesStep(i));
    && (started <==> Latest(s, StartsStep(i)) >= 0)
    && (ended <==> end >= 0)
    && exitCode == (if end >= 0 then s[end].exitCode else 0)
    && durationMs == (if end >= 0 then s[end].durationMs else 0)
    && name == (if naming >= 0 then s[naming].name else announced)
  }

  lemma StepByStart(events: seq<Event>, e: Event, i: nat, name: string)
    requires e.CallStart?
    ensures StepBy(events + [e], i, name, false, false, 0, 0, name)
  {
    SinceSnoc(events, e);
  }

  /** How the state of a step moves with an event that does not start the call. */
  lemma StepByNext(events: seq<Event>, e: Event, i: nat, name: string, started: bool, ended: bool, exitCode: int, durationMs: int,
      announced: string)
    requires !e.CallStart? && StepBy(events, i, name, started, ended, exitCode, durationMs, announced)
    ensures
      var starts, ends := e.StepStart? && e.step == i, e.StepEnd? && e.step == i;
      StepBy(events + [e], i, if starts && e.name != "" then e.name else name, started || starts, ended || ends,
        if ends then e.exitCode else exitCode, if ends then e.durationMs else durationMs, announced)
  {
    SinceSnoc(events, e);
    var s := Since(events);
    LatestSnoc(s, e, StartsStep(i));
    LatestSnoc(s, e, EndsStep(i));
    LatestSnoc(s, e, NamesStep(i));
    hide Latest, Since;
    assert (s + [e])[|s|] == e && forall k :: 0 <= k < |s| ==> (s + [e])[k] == s[k];
  }

  /** What one event does to a status and to the head of the step in the waterfall. */
  lemma OneStatus(c: Control, p: Parsing, e: Event, i: nat)
    requires !e.CallStart? && i < |c.statuses| == |c.waterfall|
    ensures
      var d := Next(c, p, e);
      var s, t, h, g := c.statuses[i], d.statuses[i], c.waterfall[i].head, d.waterfall[i].head;
      var starts, ends := e.StepStart? && e.step == i, e.StepEnd? && e.step == i;
      && t.name == (if starts && e.name != "" then e.name else s.name) && t.started == (s.started || starts)
      && t.ended == (s.ended || ends) && t.exitCode == (if ends then e.exitCode else s.exitCode)
      && t.durationMs == (if ends then e.durationMs else s.durationMs)
      && g.name == (if starts && e.name != "" then e.name else h.name) && g.started == (h.started || starts)
      && g.ended == (h.ended || ends) && g.exitCode == (if ends then e.exitCode else h.exitCode)
      && g.durationMs == (if ends then e.durationMs else h.durationMs)
  {
    hide Fire, MarkDone, FreshSteps, FreshStatuses;
    FireKeepsHead(c, p, e);
    MarkKeepsHeads();
  }

  lemma FireKeepsHead(c: Control, p: Parsing, e: Event)
    ensures e.Executing? ==> forall j :: 0 <= j < |c.waterfall| ==> Fire(c.waterfall[j], p, e).head == c.waterfall[j].head
  {
    hide LineFor;
  }

  lemma MarkKeepsHeads()
    ensures forall s: CStep :: MarkDone(s).head == s.head
  {
  }

  ghost predicate StepIs(c: Control, events: seq<Event>, i: nat)
    requires i < |c.statuses| == |c.waterfall| == |c.info.steps|
  {
    var s, h, announced := c.statuses[i], c.waterfall[i].head, c.info.steps[i].name;
    && StepBy(events, i, s.name, s.started, s.ended, s.exitCode, s.durationMs, announced)
    && StepBy(events, i, h.name, h.started, h.ended, h.exitCode, h.durationMs, announced)
  }

  /**
   Whether a step has started or ended, with which exit and duration, and under which name: by the latest events
   of that step since the call started, and in the two lists alike.
   */
  lemma {:induction false} StepsByEvents(p: Parsing, events: seq<Event>, i: nat)
    requires i < |After(FRESH, p, events).statuses|
    ensures
      var c := After(FRESH, p, events);
      |c.statuses| == |c.waterfall| == |c.info.steps| && StepIs(c, events, i)
  {
    InfoByEvents(p, events);
    var front, e := events[..|events| - 1], events[|events| - 1];
    var c := After(FRESH, p, front);
    assert events == front + [e];
    InfoByEvents(p, front);
    hide StepBy, Since, Latest;
    if e.CallStart? {
      StepByStart(front, e, i, e.steps[i].name);
    } else {
      SizesStay(c, p, e);
      StepsByEvents(p, front, i);
      var s, h, announced := c.statuses[i], c.waterfall[i].head, c.info.steps[i].name;
      StepByNext(front, e, i, s.name, s.started, s.ended, s.exitCode, s.durationMs, announced);
      StepByNext(front, e, i, h.name, h.started, h.ended, h.exitCode, h.durationMs, announced);
      OneStatus(c, p, e, i);
      assert Next(c, p, e).info == c.info;
      hide Next;
    }
  }

  /** The two lists of steps say the same. */
  lemma {:induction false} StatusesAreHeads(p: Parsing, events: seq<Event>, i: nat)
    requires i < |After(FRESH, p, events).statuses|
    ensures
      var c := After(FRESH, p, events);
      |c.statuses| == |c.waterfall| && Same(c.statuses[i], c.waterfall[i].head)
  {
    InfoByEvents(p, events);
    var front, e := events[..|events| - 1], events[|events| - 1];
    var c := After(FRESH, p, front);
    InfoByEvents(p, front);
    if !e.CallStart? {
      SizesStay(c, p, e);
      StatusesAreHeads(p, front, i);
      SameNext(c, p, e, i);
      hide Next;
    }
  }

  ghost predicate Same(s: Status, h: Head)
  {
    s == Status(h.name, h.action, h.hosts, h.params, h.started, h.ended, h.exitCode, h.durationMs)
  }

  lemma SameNext(c: Control, p: Parsing, e: Event, i: nat)
    requires !e.CallStart? && i < |c.statuses| == |c.waterfall| && Same(c.statuses[i], c.waterfall[i].head)
    ensures Same(Next(c, p, e).statuses[i], Next(c, p, e).waterfall[i].head)
  {
    hide Fire, MarkDone, FreshSteps, FreshStatuses;
    FireKeepsHead(c, p, e);
    MarkKeepsHeads();
  }

  ghost const EXECUTING: Event -> bool := (e: Event) => e.Executing?

  /** The step that started last, of those after the call's start. */
  ghost function LastStarted(since: seq<Event>): int
  {
    var k := Latest(since, STEP_START);
    if k < 0 then -1 else since[k].step
  }

  lemma StartedSnoc(since: seq<Event>, e: Event)
    ensures LastStarted(since + [e]) == if e.StepStart? then e.step else LastStarted(since)
    ensures LastStarted([]) == -1
  {
    LatestSnoc(since, e, STEP_START);
    hide Latest;
  }

  lemma CurrentNext(c: Control, p: Parsing, e: Event)
    ensures Next(c, p, e).currentStep == if e.CallStart? then -1 else if e.StepStart? then e.step else c.currentStep
  {
  }

  /** Where the call stands: at the step that started last. */
  lemma {:induction false} CurrentByEvents(p: Parsing, events: seq<Event>)
    ensures After(FRESH, p, events).currentStep == LastStarted(Since(events))
  {
    if events == [] {
      StartedSnoc([], CallEnd(0, "", "", 0));
    } else {
      var front, e := events[..|events| - 1], events[|events| - 1];
      CurrentByEvents(p, front);
      assert events == front + [e];
      SinceSnoc(front, e);
      StartedSnoc(Since(front), e);
      CurrentNext(After(FRESH, p, front), p, e);
      hide Since, LastStarted, Next;
    }
  }

  lemma EndingNext(c: Control, p: Parsing, e: Event)
    ensures Next(c, p, e).ending == if e.CallEnd? then Ending(true, e.status) else c.ending
    ensures Next(c, p, e).running ==
      if e.Executing? then Running(e.cmd, e.host, e.elapsedSec) else if e.StepStart? then c.running.(cmd := "", host := "") else c.running
  {
    hide Fired, Entered, Ended, FreshSteps;
  }

  /** Whether it is over: with the status of its latest end. */
  lemma {:induction false} EndingByEvents(p: Parsing, events: seq<Event>)
    ensures
      var k := Latest(events, CALL_END);
      After(FRESH, p, events).ending == if k < 0 then Ending(false, "") else Ending(true, events[k].status)
  {
    if events != [] {
      var front, e := events[..|events| - 1], events[|events| - 1];
      EndingByEvents(p, front);
      assert events == front + [e];
      LatestSnoc(front, e, CALL_END);
      EndingNext(After(FRESH, p, front), p, e);
      hide Latest, Next;
    }
  }

  /** What runs: the command that fired last, until a step starts. */
  lemma {:induction false} RunningByEvents(p: Parsing, events: seq<Event>)
    ensures
      var k, r := Latest(events, EXECUTING), After(FRESH, p, events).running;
      && r.elapsedSec == (if k < 0 then 0 else events[k].elapsedSec)
      && r.cmd == (if k >= 0 && k > Latest(events, STEP_START) then events[k].cmd else "")
      && r.host == (if k >= 0 && k > Latest(events, STEP_START) then events[k].host else "")
  {
    if events != [] {
      var front, e := events[..|events| - 1], events[|events| - 1];
      RunningByEvents(p, front);
      assert events == front + [e];
      LatestSnoc(front, e, STEP_START);
      LatestSnoc(front, e, EXECUTING);
      EndingNext(After(FRESH, p, front), p, e);
      hide Latest, Next;
    }
  }

  /** Of a step's lines only the one at the position can have commands and not be done. */
  ghost predicate LinesLeftAreDone(s: CStep)
  {
    && -1 <= s.at < |s.lines|
    && forall i :: 0 <= i < |s.lines| && i != s.at && s.lines[i].subs != [] ==> s.lines[i].done
  }

  lemma FireLeavesDone(s: CStep, p: Parsing, e: Event)
    requires e.Executing? && LinesLeftAreDone(s)
    ensures LinesLeftAreDone(Fire(s, p, e))
  {
    if LineFor(s, e.lineNo) >= 0 {
      LineForBelongs(s, e.lineNo, 0);
    }
    hide LineFor;
  }

  lemma NextLeavesDone(c: Control, p: Parsing, e: Event)
    requires forall j :: 0 <= j < |c.waterfall| ==> LinesLeftAreDone(c.waterfall[j])
    ensures forall j :: 0 <= j < |Next(c, p, e).waterfall| ==> LinesLeftAreDone(Next(c, p, e).waterfall[j])
  {
    if e.Executing? && 0 <= e.step < |c.waterfall| {
      FireLeavesDone(c.waterfall[e.step], p, e);
    }
    hide Fire;
  }

  /** Whatever happens, commands that the step has moved on from stand on lines that are done. */
  lemma {:induction false} LeftLinesAreDone(p: Parsing, events: seq<Event>)
    ensures forall j :: 0 <= j < |After(FRESH, p, events).waterfall| ==> LinesLeftAreDone(After(FRESH, p, events).waterfall[j])
  {
    if events != [] {
      LeftLinesAreDone(p, events[..|events| - 1]);
      NextLeavesDone(After(FRESH, p, events[..|events| - 1]), p, events[|events| - 1]);
      hide LinesLeftAreDone, Next;
    }
  }
}
