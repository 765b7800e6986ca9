/**
 The per-command trace: the runner numbers commands and emits start and end frames, the client folds
 them into lines. Concurrent commands interleave.
 */
module Tracing {
  import opened Bytes
  import opened Wire

  datatype TraceLine = TraceLine(number: int, command: seq<byte>, lineNo: int, durationNS: int, exit: Option<int>)

  // ---- What the lines should be ----

  /** The latest start with number `q`. */
  function Owner(ev: seq<TraceFrame>, q: int): (k: Option<nat>)
    ensures k.Some? ==> k.value < |ev| && ev[k.value].CmdStart? && ev[k.value].number == q
  {
    if ev == [] then None
    else if ev[|ev| - 1].CmdStart? && ev[|ev| - 1].number == q then Some(|ev| - 1)
    else Owner(ev[..|ev| - 1], q)
  }

  /** The frame opens a line: a start does, and an end whose start was never seen. */
  predicate Opens(before: seq<TraceFrame>, t: TraceFrame)
  {
    t.CmdStart? || (t.CmdEnd? && Owner(before, t.number).None?)
  }

  /** The positions of the frames that open a line, in order. */
  function Opened(ev: seq<TraceFrame>): seq<nat>
  {
    if ev == [] then []
    else Opened(ev[..|ev| - 1]) + if Opens(ev[..|ev| - 1], ev[|ev| - 1]) then [|ev| - 1] else []
  }

  /** A command on one line: its words with a space between any two. */
  function Words(argv: seq<seq<byte>>): seq<byte>
  {
    if argv == [] then []
    else if |argv| == 1 then argv[0]
    else argv[0] + [0x20] + Words(argv[1..])
  }

  /** One space between any two words, and none elsewhere. */
  lemma {:induction false} WordsJoin(a: seq<seq<byte>>, b: seq<seq<byte>>)
    requires a != [] && b != []
    ensures Words(a + b) == Words(a) + [0x20] + Words(b)
    ensures |a| == 1 ==> Words(a) == a[0]
    decreases |a|
  {
    if |a| > 1 {
      assert (a + b)[1..] == a[1..] + b;
      WordsJoin(a[1..], b);
      assert a[0] + [0x20] + (Words(a[1..]) + [0x20] + Words(b)) == a[0] + [0x20] + Words(a[1..]) + [0x20] + Words(b);
    } else {
      assert (a + b)[1..] == b;
    }
  }

  function OpenLine(t: TraceFrame): TraceLine
  {
    match t
    case CmdStart(q, argv, line) => TraceLine(q, Words(argv), line, 0, None)
    case CmdEnd(q, exit, dur) => TraceLine(q, [], 0, dur, Some(exit))
    case OtherEvent(q) => TraceLine(q, [], 0, 0, None)
  }

  /** The line that frame `k` opened, filled in by every later end that it owned when the end arrived. */
  function LineOf(ev: seq<TraceFrame>, k: nat): TraceLine
    requires k < |ev|
    decreases |ev|
  {
    var last := ev[|ev| - 1];
    if k == |ev| - 1 then OpenLine(last)
    else
      var line := LineOf(ev[..|ev| - 1], k);
      if last.CmdEnd? && Owner(ev[..|ev| - 1], last.number) == Some(k) then line.(durationNS := last.durNS, exit := Some(last.exit))
      else line
  }

  lemma {:induction false} OpenedInOrder(ev: seq<TraceFrame>)
    ensures forall i :: 0 <= i < |Opened(ev)| ==> Opened(ev)[i] < |ev|
    ensures forall i, j :: 0 <= i < j < |Opened(ev)| ==> Opened(ev)[i] < Opened(ev)[j]
  {
    if ev != [] {
      OpenedInOrder(ev[..|ev| - 1]);
    }
  }

  ghost predicate TraceIs(trace: seq<TraceLine>, ev: seq<TraceFrame>)
  {
    && |trace| == |Opened(ev)|
    && forall i :: 0 <= i < |trace| ==> Opened(ev)[i] < |ev| && trace[i] == LineOf(ev, Opened(ev)[i])
  }

  /** The index knows for every number seen the line of its latest start. */
  ghost predicate Indexed(index: map<int, nat>, ev: seq<TraceFrame>)
  {
    && (forall q :: q in index <==> Owner(ev, q).Some?)
    && (forall q :: q in index ==> index[q] < |Opened(ev)| && Owner(ev, q) == Some(Opened(ev)[index[q]]))
  }

  lemma Unsnoc(ev: seq<TraceFrame>, t: TraceFrame)
    ensures (ev + [t])[..|ev|] == ev && (ev + [t])[|ev|] == t
  {
  }

  lemma {:induction false} OpenedStep(ev: seq<TraceFrame>, t: TraceFrame)
    ensures Opened(ev + [t]) == Opened(ev) + if Opens(ev, t) then [|ev|] else []
    ensures LineOf(ev + [t], |ev|) == OpenLine(t)
    ensures forall q :: Owner(ev + [t], q) == if t.CmdStart? && t.number == q then Some(|ev|) else Owner(ev, q)
  {
    Unsnoc(ev, t);
  }

  lemma {:induction false} LineStep(ev: seq<TraceFrame>, t: TraceFrame, k: nat)
    requires k < |ev|
    ensures LineOf(ev + [t], k) ==
      if t.CmdEnd? && Owner(ev, t.number) == Some(k) then LineOf(ev, k).(durationNS := t.durNS, exit := Some(t.exit))
      else LineOf(ev, k)
  {
    Unsnoc(ev, t);
  }

  /** A frame that opens a line leaves the others alone. */
  lemma TraceOpens(trace: seq<TraceLine>, ev: seq<TraceFrame>, t: TraceFrame)
    requires TraceIs(trace, ev) && Opens(ev, t)
    ensures TraceIs(trace + [OpenLine(t)], ev + [t])
  {
    hide LineOf, Opened, Owner;
    OpenedStep(ev, t);
    forall i | 0 <= i < |trace| ensures LineOf(ev + [t], Opened(ev)[i]) == trace[i] {
      LineStep(ev, t, Opened(ev)[i]);
    }
  }

  /** An event of another kind changes no line. */
  lemma TraceIgnores(trace: seq<TraceLine>, ev: seq<TraceFrame>, t: TraceFrame)
    requires TraceIs(trace, ev) && t.OtherEvent?
    ensures TraceIs(trace, ev + [t])
  {
    hide LineOf, Opened, Owner;
    OpenedStep(ev, t);
    forall i | 0 <= i < |trace| ensures LineOf(ev + [t], Opened(ev)[i]) == trace[i] {
      LineStep(ev, t, Opened(ev)[i]);
    }
  }

  /** A paired end fills in its own line and no other. */
  lemma TraceFills(trace: seq<TraceLine>, ev: seq<TraceFrame>, t: TraceFrame, i: nat)
    requires TraceIs(trace, ev) && t.CmdEnd? && i < |trace| && Owner(ev, t.number) == Some(Opened(ev)[i])
    ensures TraceIs(trace[i := trace[i].(durationNS := t.durNS, exit := Some(t.exit))], ev + [t])
  {
    OpenedInOrder(ev);
    hide LineOf, Opened, Owner;
    OpenedStep(ev, t);
    forall j | 0 <= j < |trace| ensures
      LineOf(ev + [t], Opened(ev)[j]) == if i == j then trace[i].(durationNS := t.durNS, exit := Some(t.exit)) else trace[j]
    {
      LineStep(ev, t, Opened(ev)[j]);
    }
  }

  class Collector {
    var trace: seq<TraceLine>
    var seqIndex: map<int, nat>
    ghost var ev: seq<TraceFrame>

    ghost predicate Valid()
      reads this
    {
      TraceIs(trace, ev) && Indexed(seqIndex, ev)
    }

    constructor ()
      ensures Valid() && ev == []
    {
      trace, seqIndex, ev := [], map[], [];
    }

    method HandleTrace(t: TraceFrame)
      requires Valid()
      modifies this
      ensures Valid() && ev == old(ev) + [t]
    {
      OpenedStep(ev, t);
      hide LineOf, Opened, Owner;
      if t.CmdStart? {
        TraceOpens(trace, ev, t);
        trace := trace + [TraceLine(t.number, Words(t.argv), t.line, 0, None)];
        seqIndex := seqIndex[t.number := |trace| - 1];
      } else if t.CmdEnd? && t.number in seqIndex {
        var i := seqIndex[t.number];
        TraceFills(trace, ev, t, i);
        trace := trace[i := trace[i].(durationNS := t.durNS, exit := Some(t.exit))];
      } else if t.CmdEnd? {
        TraceOpens(trace, ev, t);
        trace := trace + [TraceLine(t.number, [], 0, t.durNS, Some(t.exit))];
      } else {
        TraceIgnores(trace, ev, t);
      }
      ev := ev + [t];
    }
  }

  // ---- What that means ----

  ghost predicate StartedBefore(ev: seq<TraceFrame>, m: nat, q: int)
    requires m <= |ev|
  {
    exists j :: 0 <= j < m && ev[j].CmdStart? && ev[j].number == q
  }

  ghost function Starts(ev: seq<TraceFrame>): nat
  {
    if ev == [] then 0 else Starts(ev[..|ev| - 1]) + if ev[|ev| - 1].CmdStart? then 1 else 0
  }

  /** The ends with no start of their number before them. */
  ghost function LoneEnds(ev: seq<TraceFrame>): nat
  {
    if ev == [] then 0
    else
      var n := |ev| - 1;
      LoneEnds(ev[..n]) + if ev[n].CmdEnd? && !StartedBefore(ev, n, ev[n].number) then 1 else 0
  }

  lemma {:induction false} OwnerIffStarted(ev: seq<TraceFrame>, q: int)
    ensures Owner(ev, q).Some? <==> StartedBefore(ev, |ev|, q)
  {
    if ev != [] && !(ev[|ev| - 1].CmdStart? && ev[|ev| - 1].number == q) {
      var front := ev[..|ev| - 1];
      OwnerIffStarted(front, q);
      if StartedBefore(ev, |ev|, q) {
        var j :| 0 <= j < |ev| && ev[j].CmdStart? && ev[j].number == q;
        assert front[j] == ev[j];
      }
      if StartedBefore(front, |front|, q) {
        var j :| 0 <= j < |front| && front[j].CmdStart? && front[j].number == q;
        assert front[j] == ev[j];
      }
    }
  }

  /** Over arbitrary streams: one line for every start and for every end without an earlier start. */
  lemma {:induction false} TraceLength(ev: seq<TraceFrame>)
    ensures |Opened(ev)| == Starts(ev) + LoneEnds(ev)
  {
    if ev != [] {
      var n := |ev| - 1;
      TraceLength(ev[..n]);
      OwnerIffStarted(ev[..n], ev[n].number);
      assert StartedBefore(ev, n, ev[n].number) <==> StartedBefore(ev[..n], n, ev[n].number) by {
        assert forall j :: 0 <= j < n ==> ev[..n][j] == ev[j];
      }
    }
  }

  /** Over arbitrary streams, an end belongs to the latest start of its number before it. */
  ghost predicate Belongs(ev: seq<TraceFrame>, k: nat, m: nat)
    requires k < |ev|
  {
    && k < m < |ev| && ev[k].CmdStart? && ev[m].CmdEnd? && ev[m].number == ev[k].number
    && forall j :: k < j < m && ev[j].CmdStart? ==> ev[j].number != ev[k].number
  }

  lemma {:induction false} OwnerIsLatest(ev: seq<TraceFrame>, q: int, k: nat)
    requires k < |ev|
    ensures Owner(ev, q) == Some(k) <==>
      ev[k].CmdStart? && ev[k].number == q && forall j :: k < j < |ev| && ev[j].CmdStart? ==> ev[j].number != q
  {
    var n := |ev| - 1;
    assert forall j :: 0 <= j < n ==> ev[..n][j] == ev[j];
    if k < n {
      OwnerIsLatest(ev[..n], q, k);
    }
  }

  lemma BelongsFront(ev: seq<TraceFrame>, k: nat)
    requires k + 1 < |ev|
    ensures forall m: nat :: m < |ev| - 1 ==> (Belongs(ev, k, m) <==> Belongs(ev[..|ev| - 1], k, m))
  {
    var front := ev[..|ev| - 1];
    assert forall j :: 0 <= j < |front| ==> front[j] == ev[j];
  }

  lemma BelongsLast(ev: seq<TraceFrame>, k: nat)
    requires k + 1 < |ev| && ev[k].CmdStart?
    ensures
      var n := |ev| - 1;
      Belongs(ev, k, n) <==> ev[n].CmdEnd? && Owner(ev[..n], ev[n].number) == Some(k)
  {
    var n := |ev| - 1;
    assert forall j :: 0 <= j < n ==> ev[..n][j] == ev[j];
    OwnerIsLatest(ev[..n], ev[n].number, k);
    hide Owner;
  }

  /** So each start's line has its command, and the exit and duration of the latest end `m` that belongs to it; none if `m` is -1. */
  lemma {:induction false} LineByFrames(ev: seq<TraceFrame>, k: nat) returns (m: int)
    requires k < |ev| && ev[k].CmdStart?
    ensures -1 <= m < |ev| && (m >= 0 ==> Belongs(ev, k, m)) && forall j: nat :: j > m ==> !Belongs(ev, k, j)
    ensures LineOf(ev, k) ==
      TraceLine(ev[k].number, Words(ev[k].argv), ev[k].line, if m >= 0 then ev[m].durNS else 0, if m >= 0 then Some(ev[m].exit) else None)
    decreases |ev|
  {
    m := -1;
    var n := |ev| - 1;
    if k < n {
      m := LineByFrames(ev[..n], k);
      BelongsFront(ev, k);
      BelongsLast(ev, k);
      hide Belongs, Owner;
      if Belongs(ev, k, n) {
        m := n;
      }
    }
  }

  /** Distinct starts, and for every end an earlier start and no other end. */
  ghost predicate WellPaired(ev: seq<TraceFrame>)
  {
    && (forall j, k :: 0 <= j < k < |ev| && ev[j].CmdStart? && ev[k].CmdStart? ==> ev[j].number != ev[k].number)
    && (forall j, k :: 0 <= j < k < |ev| && ev[j].CmdEnd? && ev[k].CmdEnd? ==> ev[j].number != ev[k].number)
    && (forall m :: 0 <= m < |ev| && ev[m].CmdEnd? ==> StartedBefore(ev, m, ev[m].number))
  }

  lemma WellPairedFront(ev: seq<TraceFrame>)
    requires WellPaired(ev) && ev != []
    ensures WellPaired(ev[..|ev| - 1])
  {
    var front := ev[..|ev| - 1];
    forall m | 0 <= m < |front| && front[m].CmdEnd? ensures StartedBefore(front, m, front[m].number) {
      assert StartedBefore(ev, m, ev[m].number);
      var j :| 0 <= j < m && ev[j].CmdStart? && ev[j].number == ev[m].number;
      assert front[j] == ev[j];
    }
  }

  /** An end whose start was never seen has a line of its own, with its exit and duration and no command. */
  lemma {:induction false} LoneEndIsShown(ev: seq<TraceFrame>, k: nat)
    requires k < |ev| && ev[k].CmdEnd? && !StartedBefore(ev, k, ev[k].number)
    ensures k in Opened(ev) && LineOf(ev, k) == TraceLine(ev[k].number, [], 0, ev[k].durNS, Some(ev[k].exit))
    decreases |ev|
  {
    var n := |ev| - 1;
    assert forall j :: 0 <= j < n ==> ev[..n][j] == ev[j];
    if k < n {
      LoneEndIsShown(ev[..n], k);
    } else {
      OwnerIffStarted(ev[..n], ev[k].number);
    }
  }

  /** In a well-paired stream the lines are the starts in order of arrival. */
  lemma {:induction false} LinesAreStarts(ev: seq<TraceFrame>)
    requires WellPaired(ev)
    ensures forall i :: 0 <= i < |Opened(ev)| ==> Opened(ev)[i] < |ev| && ev[Opened(ev)[i]].CmdStart?
    ensures |Opened(ev)| == Starts(ev)
  {
    if ev != [] {
      var n := |ev| - 1;
      var front := ev[..n];
      WellPairedFront(ev);
      LinesAreStarts(front);
      if ev[n].CmdEnd? {
        assert StartedBefore(ev, n, ev[n].number);
        var j :| 0 <= j < n && ev[j].CmdStart? && ev[j].number == ev[n].number;
        assert front[j] == ev[j];
        OwnerIffStarted(front, ev[n].number);
      }
    }
  }

  /** The end of the command that frame `k` started. */
  ghost predicate EndsAt(ev: seq<TraceFrame>, k: nat, m: nat)
    requires k < |ev|
  {
    m < |ev| && ev[m].CmdEnd? && ev[m].number == ev[k].number
  }

  lemma EndAfterStart(ev: seq<TraceFrame>, k: nat, m: nat)
    requires WellPaired(ev) && k < |ev| && ev[k].CmdStart? && EndsAt(ev, k, m)
    ensures k < m
  {
    assert StartedBefore(ev, m, ev[m].number);
    var j :| 0 <= j < m && ev[j].CmdStart? && ev[j].number == ev[m].number;
    assert !(j < k) && !(k < j);
  }

  /** Each line carries its own command's duration and exit, and none if no end came. */
  lemma {:induction false} LineIsOwn(ev: seq<TraceFrame>, k: nat)
    requires WellPaired(ev) && k < |ev| && ev[k].CmdStart?
    ensures
      var line := LineOf(ev, k);
      && line.number == ev[k].number && line.command == Words(ev[k].argv) && line.lineNo == ev[k].line
      && (forall m: nat :: EndsAt(ev, k, m) ==> line.exit == Some(ev[m].exit) && line.durationNS == ev[m].durNS)
      && ((forall m: nat :: !EndsAt(ev, k, m)) ==> line.exit == None && line.durationNS == 0)
  {
    var last := LineByFrames(ev, k);
    forall m: nat | EndsAt(ev, k, m) ensures Belongs(ev, k, m) && m == last {
      EndAfterStart(ev, k, m);
    }
  }

  /**
   The trace of a well-paired stream: line `i` is the `i`-th start to arrive, with its command's own
   duration and exit.
   */
  lemma {:induction false} Demultiplexed(trace: seq<TraceLine>, ev: seq<TraceFrame>, i: nat)
    requires TraceIs(trace, ev) && WellPaired(ev) && i < |trace|
    ensures |trace| == Starts(ev)
    ensures
      var k := Opened(ev)[i];
      && k < |ev| && ev[k].CmdStart? && Starts(ev[..k]) == i
      && trace[i].command == Words(ev[k].argv) && trace[i].lineNo == ev[k].line
      && (forall m: nat :: EndsAt(ev, k, m) ==> trace[i].exit == Some(ev[m].exit) && trace[i].durationNS == ev[m].durNS)
      && ((forall m: nat :: !EndsAt(ev, k, m)) ==> trace[i].exit == None && trace[i].durationNS == 0)
  {
    LinesAreStarts(ev);
    LineIsOwn(ev, Opened(ev)[i]);
    RankOfStart(ev, i);
  }

  lemma {:induction false} RankOfStart(ev: seq<TraceFrame>, i: nat)
    requires WellPaired(ev) && i < |Opened(ev)|
    ensures Opened(ev)[i] < |ev| && Starts(ev[..Opened(ev)[i]]) == i
    decreases |ev|
  {
    var n := |ev| - 1;
    var front := ev[..n];
    WellPairedFront(ev);
    LinesAreStarts(ev);
    LinesAreStarts(front);
    if i < |Opened(front)| {
      RankOfStart(front, i);
      assert ev[..Opened(ev)[i]] == front[..Opened(front)[i]];
    }
  }

  // ---- The producer ----

  /** A command of the step: builtins report only their start. */
  datatype Phase = Numbered | Running | Done

  datatype Cmd = Cmd(external: bool, phase: Phase)

  /** `cmds[i]` took number `i` + 1 from the step's counter. Frames reach the wire in `ev`. */
  datatype Tracer = Tracer(cmds: seq<Cmd>, ev: seq<TraceFrame>)

  datatype Act = Number(external: bool) | Start(id: nat, argv: seq<seq<byte>>, line: int) | Finish(id: nat, exit: int, durNS: int)

  /** Each command does its own acts in order; different commands interleave freely. */
  predicate Enabled(t: Tracer, a: Act)
  {
    match a
    case Number(_) => true
    case Start(id, argv, line) => id < |t.cmds| && t.cmds[id].phase == Numbered && argv != [] && line >= 0
    case Finish(id, _, _) => id < |t.cmds| && t.cmds[id].external && t.cmds[id].phase == Running
  }

  function Next(t: Tracer, a: Act): Tracer
    requires Enabled(t, a)
  {
    match a
    case Number(external) => t.(cmds := t.cmds + [Cmd(external, Numbered)])
    case Start(id, argv, line) =>
      Tracer(t.cmds[id := t.cmds[id].(phase := Running)], t.ev + [CmdStart(id + 1, argv, line)])
    case Finish(id, exit, dur) =>
      Tracer(t.cmds[id := t.cmds[id].(phase := Done)], t.ev + [CmdEnd(id + 1, exit, dur)])
  }

  ghost predicate IsRun(t: Tracer, acts: seq<Act>)
    decreases |acts|
  {
    acts != [] ==> Enabled(t, acts[0]) && IsRun(Next(t, acts[0]), acts[1..])
  }

  function After(t: Tracer, acts: seq<Act>): Tracer
    requires IsRun(t, acts)
    decreases |acts|
  {
    if acts == [] then t else After(Next(t, acts[0]), acts[1..])
  }

  /** Every frame on the wire comes from a command that has got that far. */
  ghost predicate Backed(t: Tracer)
  {
    forall k :: 0 <= k < |t.ev| ==>
      && 1 <= t.ev[k].number <= |t.cmds|
      && t.cmds[t.ev[k].number - 1].phase != Numbered
      && (t.ev[k].CmdEnd? ==> t.cmds[t.ev[k].number - 1].phase == Done)
  }

  ghost predicate AllStarted(t: Tracer)
  {
    forall id :: 0 <= id < |t.cmds| && t.cmds[id].phase != Numbered ==> StartedBefore(t.ev, |t.ev|, id + 1)
  }

  ghost predicate Consistent(t: Tracer)
  {
    WellPaired(t.ev) && Backed(t) && AllStarted(t)
  }

  lemma StartsStay(ev: seq<TraceFrame>, t: TraceFrame, m: nat, q: int)
    requires m <= |ev| && StartedBefore(ev, m, q)
    ensures StartedBefore(ev + [t], m, q) && StartedBefore(ev + [t], |ev| + 1, q)
  {
    var j :| 0 <= j < m && ev[j].CmdStart? && ev[j].number == q;
    assert (ev + [t])[j] == ev[j];
  }

  lemma PairedStart(t: Tracer, id: nat, argv: seq<seq<byte>>, line: int)
    requires Consistent(t) && Enabled(t, Start(id, argv, line))
    ensures WellPaired(t.ev + [CmdStart(id + 1, argv, line)])
  {
    hide StartedBefore;
    var f := CmdStart(id + 1, argv, line);
    var ev := t.ev + [f];
    forall m | 0 <= m < |ev| && ev[m].CmdEnd? ensures StartedBefore(ev, m, ev[m].number) {
      StartsStay(t.ev, f, m, ev[m].number);
    }
  }

  lemma PairedFinish(t: Tracer, id: nat, exit: int, dur: int)
    requires Consistent(t) && Enabled(t, Finish(id, exit, dur))
    ensures WellPaired(t.ev + [CmdEnd(id + 1, exit, dur)])
  {
    hide StartedBefore;
    var f := CmdEnd(id + 1, exit, dur);
    var ev := t.ev + [f];
    forall m | 0 <= m < |ev| && ev[m].CmdEnd? ensures StartedBefore(ev, m, ev[m].number) {
      StartsStay(t.ev, f, m, ev[m].number);
    }
  }

  lemma BackedStep(t: Tracer, a: Act)
    requires Backed(t) && Enabled(t, a)
    ensures Backed(Next(t, a))
  {
  }

  lemma AllStartedStep(t: Tracer, a: Act)
    requires AllStarted(t) && Enabled(t, a)
    ensures AllStarted(Next(t, a))
  {
    var n := Next(t, a);
    forall id | 0 <= id < |n.cmds| && n.cmds[id].phase != Numbered ensures StartedBefore(n.ev, |n.ev|, id + 1) {
      if a.Start? && id == a.id {
        assert n.ev[|t.ev|].CmdStart? && n.ev[|t.ev|].number == id + 1;
      } else {
        assert StartedBefore(t.ev, |t.ev|, id + 1);
        if !a.Number? {
          StartsStay(t.ev, n.ev[|t.ev|], |t.ev|, id + 1);
          assert n.ev == t.ev + [n.ev[|t.ev|]];
        }
      }
    }
  }

  lemma PairedStep(t: Tracer, a: Act)
    requires Consistent(t) && Enabled(t, a)
    ensures WellPaired(Next(t, a).ev)
  {
    hide WellPaired, Backed, AllStarted, Enabled;
    match a {
      case Number(_) =>
      case Start(id, argv, line) => PairedStart(t, id, argv, line);
      case Finish(id, exit, dur) => PairedFinish(t, id, exit, dur);
    }
  }

  lemma ConsistentStep(t: Tracer, a: Act)
    requires Consistent(t) && Enabled(t, a)
    ensures Consistent(Next(t, a))
  {
    hide WellPaired, Backed, AllStarted, Enabled, Next;
    PairedStep(t, a);
    BackedStep(t, a);
    AllStartedStep(t, a);
  }

  /** However the commands of a step interleave, the frames they emit are well paired. */
  lemma {:induction false} TracerPairs(t: Tracer, acts: seq<Act>)
    requires Consistent(t) && IsRun(t, acts)
    ensures WellPaired(After(t, acts).ev)
    decreases |acts|
  {
    if acts != [] {
      ConsistentStep(t, acts[0]);
      TracerPairs(Next(t, acts[0]), acts[1..]);
    }
  }

  /** From the runner's counter to the client's lines: the trace of any step is demultiplexed. */
  lemma {:induction false} StepTraceDemultiplexed(acts: seq<Act>, trace: seq<TraceLine>, i: nat)
    requires IsRun(Tracer([], []), acts)
    requires TraceIs(trace, After(Tracer([], []), acts).ev) && i < |trace|
    ensures
      var ev := After(Tracer([], []), acts).ev;
      var k := Opened(ev)[i];
      && |trace| == Starts(ev) && k < |ev| && ev[k].CmdStart? && Starts(ev[..k]) == i
      && trace[i].command == Words(ev[k].argv) && trace[i].lineNo == ev[k].line
      && (forall m: nat :: EndsAt(ev, k, m) ==> trace[i].exit == Some(ev[m].exit) && trace[i].durationNS == ev[m].durNS)
      && ((forall m: nat :: !EndsAt(ev, k, m)) ==> trace[i].exit == None)
  {
    TracerPairs(Tracer([], []), acts);
    Demultiplexed(trace, After(Tracer([], []), acts).ev, i);
  }
}
