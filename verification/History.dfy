/** A finished call in the history: as the live view leaves it, and as a scan of its event file finds it. */
module History {
  import opened L = Live

  datatype StepResult = StepResult(name: string, exitCode: int)

  datatype CallEntry = CallEntry(
    id: string, timestamp: Time, sessionID: string, input: string, steps: seq<Brief>,
    results: seq<StepResult>, durationMs: int, error: string)

  // ---- From the live view ----

  function ErrorOf(e: Event, before: string): string
    requires e.CallEnd?
  {
    var error := if e.error != "" then e.error else before;
    if e.status != "" && e.status != "ok" && error == "" then e.status else error
  }

  /** A call's error is the one its end names; else a status other than ok, unless an earlier error stands. */
  lemma ErrorShown(e: Event, before: string)
    requires e.CallEnd?
    ensures e.error != "" ==> ErrorOf(e, before) == e.error
    ensures e.error == "" && before != "" ==> ErrorOf(e, before) == before
    ensures e.error == "" && before == "" ==> ErrorOf(e, before) == if e.status == "ok" then "" else e.status
  {
  }

  function ResultsOf(statuses: seq<Status>): seq<StepResult>
  {
    seq(|statuses|, i requires 0 <= i < |statuses| => StepResult(statuses[i].name, statuses[i].exitCode))
  }

  /** The entry made of a live call when its end event arrives; `elapsed` is the time since its start. */
  function EntryOf(id: string, c: Control, startedAt: Time, end: Event, elapsed: int): CallEntry
    requires end.CallEnd?
  {
    CallEntry(id, startedAt, c.info.sessionID, c.info.input, c.info.steps, ResultsOf(c.statuses),
      if end.durationMs > 0 then end.durationMs else elapsed, ErrorOf(end, ""))
  }

  method TransitionEntry(id: string, a: ActiveCall, end: Event, elapsed: int) returns (entry: CallEntry)
    requires a.Valid() && end.CallEnd?
    ensures entry == EntryOf(id, a.View(), a.startedAt, end, elapsed)
  {
    entry := CallEntry(id, a.startedAt, a.info.sessionID, a.info.input, a.info.steps, [], elapsed, "");
    if end.durationMs > 0 {
      entry := entry.(durationMs := end.durationMs);
    }
    if end.error != "" {
      entry := entry.(error := end.error);
    }
    if end.status != "" && end.status != "ok" && entry.error == "" {
      entry := entry.(error := end.status);
    }
    var results: seq<StepResult> := [];
    for i := 0 to |a.statuses|
      invariant |results| == i && forall k :: 0 <= k < i ==> results[k] == StepResult(a.statuses[k].name, a.statuses[k].exitCode)
    {
      results := results + [StepResult(a.statuses[i].name, a.statuses[i].exitCode)];
    }
    entry := entry.(results := results);
  }

  // ---- From the file ----

  /** The scan's entry, its results being the names and exits collected so far. */
  function Scanned(entry: CallEntry, e: Event): CallEntry
  {
    match e
    case CallStart(ts, sessionID, input, _, steps) =>
      entry.(timestamp := ts, sessionID := sessionID, input := input, steps := steps, results := NamesOf(steps))
    case StepEnd(_, step, exitCode, _) =>
      if 0 <= step < |entry.results|
      then entry.(results := entry.results[step := entry.results[step].(exitCode := exitCode)]) else entry
    case CallEnd(_, _, _, durationMs) => entry.(durationMs := durationMs, error := ErrorOf(e, entry.error))
    case _ => entry
  }

  function NamesOf(steps: seq<Brief>): seq<StepResult>
  {
    seq(|steps|, i requires 0 <= i < |steps| => StepResult(steps[i].name, 0))
  }

  function Blank(id: string): CallEntry
  {
    CallEntry(id, 0, "", "", [], [], 0, "")
  }

  function Replayed(entry: CallEntry, events: seq<Event>): CallEntry
  {
    if events == [] then entry else Scanned(Replayed(entry, events[..|events| - 1]), events[|events| - 1])
  }

  /** An entry without a start time is no entry. */
  method ReplayToCallEntry(id: string, events: seq<Event>) returns (entry: CallEntry, ok: bool)
    ensures entry == Replayed(Blank(id), events)
    ensures ok <==> entry.timestamp != 0
  {
    entry := Blank(id);
    var names: seq<string> := [];
    var exits: seq<int> := [];
    for i := 0 to |events|
      invariant |names| == |exits|
      invariant entry.results == []
      invariant entry.(results := Zip(names, exits)) == Replayed(Blank(id), events[..i])
    {
      var e := events[i];
      assert events[..i + 1][..i] == events[..i];
      match e {
        case CallStart(ts, sessionID, input, _, steps) =>
          entry := entry.(timestamp := ts, sessionID := sessionID, input := input, steps := steps);
          names := seq(|steps|, k requires 0 <= k < |steps| => steps[k].name);
          exits := seq(|steps|, _ => 0);
          assert Zip(names, exits) == NamesOf(steps);
        case StepEnd(_, step, exitCode, _) =>
          if 0 <= step < |names| {
            assert Zip(names, exits[step := exitCode]) == Zip(names, exits)[step := Zip(names, exits)[step].(exitCode := exitCode)];
            exits := exits[step := exitCode];
          }
        case CallEnd(_, status, error, durationMs) =>
          entry := entry.(durationMs := durationMs);
          if error != "" {
            entry := entry.(error := error);
          }
          if status != "" && status != "ok" && entry.error == "" {
            entry := entry.(error := status);
          }
        case _ =>
      }
    }
    assert events[..|events|] == events;
    entry := entry.(results := Zip(names, exits));
    ok := entry.timestamp != 0;
  }

  function Zip(names: seq<string>, exits: seq<int>): seq<StepResult>
    requires |names| == |exits|
  {
    seq(|names|, i requires 0 <= i < |names| => StepResult(names[i], exits[i]))
  }

  // ---- When they agree ----

  /** The last name that a start of step `i` gives it, if any does. */
  function LastName(events: seq<Event>, i: nat, name: string): string
  {
    if events == [] then name
    else
      var e := events[|events| - 1];
      if e.StepStart? && e.step == i && e.name != "" then e.name else LastName(events[..|events| - 1], i, name)
  }

  function LastExit(events: seq<Event>, i: nat): int
  {
    if events == [] then 0
    else
      var e := events[|events| - 1];
      if e.StepEnd? && e.step == i then e.exitCode else LastExit(events[..|events| - 1], i)
  }

  /** Steps keep the names that the call's start announced. */
  ghost predicate NamesRepeat(steps: seq<Brief>, events: seq<Event>)
  {
    forall i :: 0 <= i < |steps| ==> LastName(events, i, steps[i].name) == steps[i].name
  }

  ghost predicate Inside(events: seq<Event>)
  {
    forall i :: 0 <= i < |events| ==> !events[i].CallStart? && !events[i].CallEnd?
  }

  /** The live side after the start and `events`. */
  lemma {:induction false} LiveMiddle(p: Parsing, start: Event, events: seq<Event>)
    requires start.CallStart? && Inside(events)
    ensures
      var c := After(FRESH, p, [start] + events);
      && c.info == Info(start.sessionID, start.input, start.steps, start.pid)
      && |c.statuses| == |start.steps|
      && forall i :: 0 <= i < |start.steps| ==>
        c.statuses[i].name == LastName(events, i, start.steps[i].name) && c.statuses[i].exitCode == LastExit(events, i)
  {
    var all := [start] + events;
    if events == [] {
      assert all == [start] && all[..0] == [];
      assert After(FRESH, p, []) == FRESH;
    } else {
      var front, e := events[..|events| - 1], events[|events| - 1];
      LiveMiddle(p, start, front);
      assert all[..|all| - 1] == [start] + front && all[|all| - 1] == e;
      hide Entered, Ended, Fired, FreshSteps;
    }
  }

  /** The scan's side. */
  lemma {:induction false} ScanMiddle(id: string, start: Event, events: seq<Event>)
    requires start.CallStart? && Inside(events)
    ensures
      var entry := Replayed(Blank(id), [start] + events);
      && entry == CallEntry(id, start.ts, start.sessionID, start.input, start.steps, entry.results, 0, "")
      && |entry.results| == |start.steps|
      && forall i :: 0 <= i < |start.steps| ==> entry.results[i] == StepResult(start.steps[i].name, LastExit(events, i))
  {
    var all := [start] + events;
    if events == [] {
      assert all == [start] && all[..0] == [];
      assert Replayed(Blank(id), []) == Blank(id);
    } else {
      var front, e := events[..|events| - 1], events[|events| - 1];
      ScanMiddle(id, start, front);
      assert all[..|all| - 1] == [start] + front && all[|all| - 1] == e;
    }
  }

  /** Output after the end changes nothing in the scan. */
  lemma {:induction false} StragglersIgnored(entry: CallEntry, events: seq<Event>, stragglers: seq<Event>)
    requires forall i :: 0 <= i < |stragglers| ==> !IsControl(stragglers[i])
    ensures Replayed(entry, events + stragglers) == Replayed(entry, events)
    decreases |stragglers|
  {
    if stragglers == [] {
      assert events + stragglers == events;
    } else {
      var all := events + stragglers;
      assert all[..|all| - 1] == events + stragglers[..|stragglers| - 1];
      StragglersIgnored(entry, events, stragglers[..|stragglers| - 1]);
    }
  }

  /** When the live view takes a call to have started: the stamp of its start event, or else the clock. */
  function StartOf(start: Event, now: Time): Time
    requires start.CallStart?
  {
    if start.ts != 0 then start.ts else now
  }

  /**
   For a call that starts with a start event, read at `now`, and ends with one end event of positive
   duration, the two histories show the same entry exactly if no step is renamed for good after the
   start, and the start is stamped (an unstamped one makes no entry for the scan at all).
   */
  lemma {:induction false} HistoriesAgree(id: string, p: Parsing, start: Event, middle: seq<Event>, end: Event,
      stragglers: seq<Event>, now: Time, elapsed: int)
    requires start.CallStart? && Inside(middle) && end.CallEnd? && end.durationMs > 0
    requires forall i :: 0 <= i < |stragglers| ==> !IsControl(stragglers[i])
    ensures
      EntryOf(id, After(FRESH, p, [start] + middle + [end]), StartOf(start, now), end, elapsed)
        == Replayed(Blank(id), [start] + middle + [end] + stragglers)
      <==> NamesRepeat(start.steps, middle) && (start.ts != 0 || now == 0)
    ensures Replayed(Blank(id), [start] + middle + [end] + stragglers).timestamp == start.ts
  {
    var events := [start] + middle;
    var done := events + [end];
    StragglersIgnored(Blank(id), done, stragglers);
    assert done[..|events|] == events && done[|events|] == end;
    LiveMiddle(p, start, middle);
    ScanMiddle(id, start, middle);
    var c, d := After(FRESH, p, events), After(FRESH, p, done);
    assert d == Next(c, p, end) && d.info == c.info && d.statuses == c.statuses;
    var scanned := Replayed(Blank(id), events);
    var live := ResultsOf(d.statuses);
    assert Replayed(Blank(id), done) == Scanned(scanned, end);
    SameResults(live, scanned.results, start.steps, middle);
    hide After, Replayed, Next, NamesRepeat, ResultsOf, LastName, LastExit;
  }

  /** Of both entries, field by field: what the start announced, the duration and the error of the end, and the exits of the steps. */
  lemma {:induction false} BothEntries(id: string, p: Parsing, start: Event, middle: seq<Event>, end: Event, now: Time, elapsed: int)
    requires start.CallStart? && Inside(middle) && end.CallEnd?
    ensures
      var live := EntryOf(id, After(FRESH, p, [start] + middle + [end]), StartOf(start, now), end, elapsed);
      var scanned := Replayed(Blank(id), [start] + middle + [end]);
      var error := if end.error != "" then end.error else if end.status == "ok" then "" else end.status;
      && live == CallEntry(id, if start.ts != 0 then start.ts else now, start.sessionID, start.input, start.steps, live.results,
           if end.durationMs > 0 then end.durationMs else elapsed, error)
      && scanned == CallEntry(id, start.ts, start.sessionID, start.input, start.steps, scanned.results, end.durationMs, error)
      && |live.results| == |scanned.results| == |start.steps|
      && forall i :: 0 <= i < |start.steps| ==>
           && live.results[i].exitCode == scanned.results[i].exitCode
           && scanned.results[i].name == start.steps[i].name
  {
    var events := [start] + middle;
    var done := events + [end];
    assert done[..|events|] == events && done[|events|] == end;
    LiveMiddle(p, start, middle);
    ScanMiddle(id, start, middle);
    var c, d := After(FRESH, p, events), After(FRESH, p, done);
    assert d == Next(c, p, end) && d.info == c.info && d.statuses == c.statuses;
    assert Replayed(Blank(id), done) == Scanned(Replayed(Blank(id), events), end);
    ErrorShown(end, "");
    hide After, Replayed, Next, LastName, LastExit;
  }

  lemma SameResults(live: seq<StepResult>, scanned: seq<StepResult>, steps: seq<Brief>, middle: seq<Event>)
    requires |live| == |scanned| == |steps|
    requires forall i :: 0 <= i < |steps| ==> live[i] == StepResult(LastName(middle, i, steps[i].name), LastExit(middle, i))
    requires forall i :: 0 <= i < |steps| ==> scanned[i] == StepResult(steps[i].name, LastExit(middle, i))
    ensures live == scanned <==> NamesRepeat(steps, middle)
  {
    hide LastName, LastExit;
    if live == scanned {
      forall i | 0 <= i < |steps| ensures LastName(middle, i, steps[i].name) == steps[i].name {
        assert live[i] == scanned[i];
      }
    }
  }

  /** A step that is renamed when it starts: its call is one on which the histories differ. */
  lemma {:induction false} RenamedStepDiffers(id: string, p: Parsing, end: Event, now: Time, elapsed: int)
    requires end.CallEnd? && end.durationMs > 0
    ensures
      var start := CallStart(1, "", "", 0, [Brief("build", "", [], map[])]);
      var renamed := StepStart(2, 0, "deploy", "", []);
      EntryOf(id, After(FRESH, p, [start] + [renamed] + [end]), StartOf(start, now), end, elapsed)
        != Replayed(Blank(id), [start] + [renamed] + [end] + [])
  {
    var start := CallStart(1, "", "", 0, [Brief("build", "", [], map[])]);
    var renamed := StepStart(2, 0, "deploy", "", []);
    HistoriesAgree(id, p, start, [renamed], end, [], now, elapsed);
    assert LastName([renamed], 0, "build") == "deploy";
    assert start.steps[0].name == "build";
    assert "build"[0] != "deploy"[0];
  }
}
