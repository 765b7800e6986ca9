/**
 The legacy path's output: trace lines among the script's own, the wrapper's markers, and the two
 readers of it, one on the finished text and one on the live stream.

 A text is read unit by unit; as the markers are ASCII, it does not matter whether a unit is a byte or a character.
 */
module TraceLines {
  import opened Operators

  // ---- Lines ----

  const NL := '\n'

  function LineEnd(s: string): (n: nat)
    ensures n <= |s| && (n < |s| ==> s[n] == NL)
    ensures forall i :: 0 <= i < n ==> s[i] != NL
  {
    if s == [] || s[0] == NL then 0
    else
      var n := LineEnd(s[1..]);
      assert forall i :: 0 < i <= n ==> s[i] == s[1..][i - 1];
      1 + n
  }

  /** The ended lines. */
  function Complete(s: string): seq<string>
    decreases |s|
  {
    var n := LineEnd(s);
    if n == |s| then [] else [s[..n]] + Complete(s[n + 1..])
  }

  /** What follows the last newline. */
  function Rest(s: string): string
    decreases |s|
  {
    var n := LineEnd(s);
    if n == |s| then s else Rest(s[n + 1..])
  }

  function Split(s: string): seq<string>
  {
    Complete(s) + [Rest(s)]
  }

  function Join(lines: seq<string>): string
  {
    if lines == [] then [] else if |lines| == 1 then lines[0] else lines[0] + [NL] + Join(lines[1..])
  }

  predicate OneLine(s: string)
  {
    forall i :: 0 <= i < |s| ==> s[i] != NL
  }

  lemma {:induction false} LineEndOf(line: string, rest: string)
    requires OneLine(line)
    ensures LineEnd(line + [NL] + rest) == |line| && LineEnd(line) == |line|
  {
    hide LineEnd;
    var s := line + [NL] + rest;
    assert s[|line|] == NL && forall i :: 0 <= i < |line| ==> s[i] == line[i];
  }

  lemma {:induction false} FirstLine(line: string, rest: string)
    requires OneLine(line)
    ensures Complete(line + [NL] + rest) == [line] + Complete(rest) && Rest(line + [NL] + rest) == Rest(rest)
    ensures Split(line + [NL] + rest) == [line] + Split(rest)
  {
    LineEndOf(line, rest);
    var s := line + [NL] + rest;
    assert s[..|line|] == line && s[|line| + 1..] == rest;
  }

  lemma {:induction false} LastLine(line: string)
    requires OneLine(line)
    ensures Complete(line) == [] && Rest(line) == line && Split(line) == [line]
  {
    LineEndOf(line, []);
  }

  /** The first line of a text, if it is ended. */
  lemma {:induction false} Cut(s: string)
    ensures
      var n := LineEnd(s);
      if n < |s| then OneLine(s[..n]) && s == s[..n] + [NL] + s[n + 1..]
      else OneLine(s) && Complete(s) == [] && Rest(s) == s
  {
  }

  /** Text that arrives later extends the unfinished line. */
  lemma {:induction false} CompleteAppend(a: string, b: string)
    ensures Complete(a + b) == Complete(a) + Complete(Rest(a) + b) && Rest(a + b) == Rest(Rest(a) + b)
    decreases |a|
  {
    hide Complete, Rest, LineEnd;
    Cut(a);
    var n := LineEnd(a);
    if n < |a| {
      var line, tail := a[..n], a[n + 1..];
      assert a + b == line + [NL] + (tail + b);
      FirstLine(line, tail);
      FirstLine(line, tail + b);
      CompleteAppend(tail, b);
    }
  }

  lemma {:induction false} JoinSplit(s: string)
    ensures Join(Split(s)) == s
    ensures forall i :: 0 <= i < |Split(s)| ==> OneLine(Split(s)[i])
    decreases |s|
  {
    var n := LineEnd(s);
    if n < |s| {
      var line, tail := s[..n], s[n + 1..];
      assert s == line + [NL] + tail;
      FirstLine(line, tail);
      JoinSplit(tail);
      assert ([line] + Split(tail))[1..] == Split(tail);
    } else {
      LastLine(s);
    }
  }

  lemma {:induction false} JoinStep(lines: seq<string>)
    requires lines != []
    ensures Join(lines) == if |lines| == 1 then lines[0] else lines[0] + [NL] + Join(lines[1..])
  {
  }

  /** Lines joined and followed by more text split into the same lines. */
  lemma {:induction false} SplitJoined(lines: seq<string>, rest: string)
    requires lines != [] && forall i :: 0 <= i < |lines| ==> OneLine(lines[i])
    ensures Split(Join(lines) + [NL] + rest) == lines + Split(rest)
    decreases |lines|
  {
    hide Split, Join, OneLine;
    JoinStep(lines);
    if |lines| == 1 {
      FirstLine(lines[0], rest);
      assert lines == [lines[0]];
    } else {
      var tail := Join(lines[1..]) + [NL] + rest;
      Regroup(lines[0], Join(lines[1..]), rest);
      FirstLine(lines[0], tail);
      SplitJoined(lines[1..], rest);
      HeadFirst(lines, Split(rest));
    }
  }

  lemma HeadFirst(lines: seq<string>, more: seq<string>)
    requires lines != []
    ensures [lines[0]] + (lines[1..] + more) == lines + more
  {
  }

  lemma Regroup(a: string, b: string, c: string)
    ensures a + [NL] + b + [NL] + c == a + [NL] + (b + [NL] + c)
  {
  }

  lemma {:induction false} JoinMore(a: seq<string>, b: seq<string>)
    requires a != [] && b != []
    ensures Join(a + b) == Join(a) + [NL] + Join(b)
    decreases |a|
  {
    if |a| == 1 {
      assert (a + b)[1..] == b;
    } else {
      assert (a + b)[1..] == a[1..] + b;
      JoinMore(a[1..], b);
      assert a[0] + [NL] + (Join(a[1..]) + [NL] + Join(b)) == a[0] + [NL] + Join(a[1..]) + [NL] + Join(b);
    }
  }

  // ---- Markers ----

  predicate At(s: string, m: string, i: int)
  {
    0 <= i && i + |m| <= |s| && s[i..i + |m|] == m
  }

  /** The first occurrence at or after `i`, or -1. */
  function IndexFrom(s: string, m: string, i: nat): (r: int)
    ensures r >= 0 ==> i <= r && At(s, m, r)
    ensures forall k :: i <= k && (r < 0 || k < r) ==> !At(s, m, k)
    decreases |s| - i
  {
    if i + |m| > |s| then -1
    else if s[i..i + |m|] == m then i
    else
      var r := IndexFrom(s, m, i + 1);
      assert forall k :: i < k && (r < 0 || k < r) ==> !At(s, m, k);
      r
  }

  function Index(s: string, m: string): (r: int)
    ensures r >= 0 ==> At(s, m, r)
    ensures forall k :: r < 0 || k < r ==> !At(s, m, k)
  {
    IndexFrom(s, m, 0)
  }

  function TraceMark(nonce: string): string
  {
    "SHELLKIT_CMD_" + nonce
  }

  function OutputMark(nonce: string): string
  {
    "---SHELLKIT-OUTPUTS-" + nonce + "---"
  }

  function StderrMark(nonce: string): string
  {
    "---SHELLKIT-STDERR-" + nonce + "---"
  }

  // ---- One line ----

  datatype TraceLine = TraceLine(elapsed: int, lineNo: int, command: string)

  /** Decimal conversion as the standard library does it: a value, and whether it was well formed. */
  datatype Ints = Ints(value: string -> int, ok: string -> bool)

  /** A trap line behind its marker, `<SECONDS> <LINENO> <COMMAND>` or the older form without the line number. */
  function ParseTraceLine(rest: string, ints: Ints): seq<TraceLine>
  {
    var i := Index(rest, " ");
    if i < 0 then []
    else
      var elapsed, tail := ints.value(rest[..i]), rest[i + 1..];
      var j := Index(tail, " ");
      if j < 0 || !ints.ok(tail[..j]) then [TraceLine(elapsed, 0, tail)]
      else [TraceLine(elapsed, ints.value(tail[..j]), tail[j + 1..])]
  }

  datatype Kind = Fire(prefix: string, rest: string) | Bare(prefix: string) | Plain

  /** A trap line, possibly behind output that did not end its line; a marker with nothing behind it; or output. */
  function KindOf(line: string, nonce: string): Kind
  {
    var bare := TraceMark(nonce);
    var mark := bare + " ";
    var i, j := Index(line, mark), Index(line, bare);
    if i >= 0 then Fire(line[..i], line[i + |mark|..])
    else if j >= 0 then Bare(line[..j])
    else Plain
  }

  function Shown(prefix: string): seq<string>
  {
    if prefix == "" then [] else [prefix]
  }

  function CleanLine(line: string, nonce: string): seq<string>
  {
    match KindOf(line, nonce)
    case Fire(prefix, _) => Shown(prefix)
    case Bare(prefix) => Shown(prefix)
    case Plain => [line]
  }

  function FireOf(line: string, nonce: string, ints: Ints): seq<TraceLine>
  {
    match KindOf(line, nonce)
    case Fire(_, rest) => ParseTraceLine(rest, ints)
    case _ => []
  }

  // ---- The batch reader ----

  function Clean(lines: seq<string>, nonce: string): seq<string>
  {
    if lines == [] then [] else Clean(lines[..|lines| - 1], nonce) + CleanLine(lines[|lines| - 1], nonce)
  }

  function Fires(lines: seq<string>, nonce: string, ints: Ints): seq<TraceLine>
  {
    if lines == [] then [] else Fires(lines[..|lines| - 1], nonce, ints) + FireOf(lines[|lines| - 1], nonce, ints)
  }

  lemma {:induction false} ReadMore(lines: seq<string>, line: string, nonce: string, ints: Ints)
    ensures Clean(lines + [line], nonce) == Clean(lines, nonce) + CleanLine(line, nonce)
    ensures Fires(lines + [line], nonce, ints) == Fires(lines, nonce, ints) + FireOf(line, nonce, ints)
  {
    assert (lines + [line])[..|lines|] == lines;
  }

  predicate HasPrefix(s: string, m: string)
  {
    |m| <= |s| && s[..|m|] == m
  }

  /** The cases of one line as the batch reader takes them. */
  method ExtractLine(line: string, nonce: string, ints: Ints) returns (clean: seq<string>, trace: seq<TraceLine>)
    ensures clean == CleanLine(line, nonce) && trace == FireOf(line, nonce, ints)
  {
    var bareMarker := TraceMark(nonce);
    var marker := bareMarker + " ";
    if HasPrefix(line, marker) {
      assert At(line, marker, 0);
      trace := ParseTraceLine(line[|marker|..], ints);
      return [], trace;
    }
    assert !At(line, marker, 0);
    var idx := Index(line, marker);
    if idx > 0 {
      trace := ParseTraceLine(line[idx + |marker|..], ints);
      return Shown(line[..idx]), trace;
    }
    var at := Index(line, bareMarker);
    if at >= 0 {
      return Shown(line[..at]), [];
    }
    return [line], [];
  }

  method ExtractTrace(stdout: string, nonce: string, ints: Ints) returns (cleanStdout: string, trace: seq<TraceLine>)
    ensures cleanStdout == Join(Clean(Split(stdout), nonce))
    ensures trace == Fires(Split(stdout), nonce, ints)
  {
    hide CleanLine, FireOf, Split;
    var lines := Split(stdout);
    var clean: seq<string> := [];
    trace := [];
    for i := 0 to |lines|
      invariant clean == Clean(lines[..i], nonce)
      invariant trace == Fires(lines[..i], nonce, ints)
    {
      var kept, fired := ExtractLine(lines[i], nonce, ints);
      ReadMore(lines[..i], lines[i], nonce, ints);
      assert lines[..i + 1] == lines[..i] + [lines[i]];
      clean, trace := clean + kept, trace + fired;
    }
    assert lines[..|lines|] == lines;
    cleanStdout := Join(clean);
  }

  // ---- The live reader ----

  datatype Option<T> = None | Some(value: T)

  /** Line numbers are left out of the event unless they are positive. */
  datatype Event = Executing(elapsed: int, lineNo: Option<int>, command: string) | Output(line: string)

  function EventOf(t: TraceLine): Event
  {
    Executing(t.elapsed, if t.lineNo > 0 then Some(t.lineNo) else None, t.command)
  }

  function EventsOf(trace: seq<TraceLine>): seq<Event>
  {
    seq(|trace|, i requires 0 <= i < |trace| => EventOf(trace[i]))
  }

  function Outputs(lines: seq<string>): seq<Event>
  {
    seq(|lines|, i requires 0 <= i < |lines| => Output(lines[i]))
  }

  /** The events of one line: output first, then the command that follows it. Without a nonce all is output. */
  function LineEvents(line: string, nonce: string, ints: Ints): seq<Event>
  {
    if nonce == "" then [Output(line)] else Outputs(CleanLine(line, nonce)) + EventsOf(FireOf(line, nonce, ints))
  }

  /** The line is the output marker. */
  predicate Stops(line: string, nonce: string)
  {
    nonce != "" && line == OutputMark(nonce)
  }

  /** Emission ends for good at the first line that is the output marker. */
  predicate Stopped(lines: seq<string>, nonce: string)
  {
    exists i :: 0 <= i < |lines| && Stops(lines[i], nonce)
  }

  function Events(lines: seq<string>, nonce: string, ints: Ints): seq<Event>
  {
    if lines == [] then []
    else
      var before := Events(lines[..|lines| - 1], nonce, ints);
      if Stopped(lines, nonce) then before else before + LineEvents(lines[|lines| - 1], nonce, ints)
  }

  lemma {:induction false} MoreEvents(lines: seq<string>, line: string, nonce: string, ints: Ints)
    ensures Stopped(lines + [line], nonce) <==> Stopped(lines, nonce) || Stops(line, nonce)
    ensures Events(lines + [line], nonce, ints) ==
      if Stopped(lines + [line], nonce) then Events(lines, nonce, ints)
      else Events(lines, nonce, ints) + LineEvents(line, nonce, ints)
  {
    var longer := lines + [line];
    assert longer[..|lines|] == lines && longer[|lines|] == line;
    assert forall i :: 0 <= i < |lines| ==> longer[i] == lines[i];
  }

  lemma PrefixIsIndexZero(s: string, m: string)
    ensures HasPrefix(s, m) <==> Index(s, m) == 0
  {
    assert HasPrefix(s, m) <==> At(s, m, 0);
  }

  /** The events of a line by the cases in which the emitter tries them. */
  lemma LineCases(line: string, nonce: string, ints: Ints)
    ensures
      var bare := TraceMark(nonce);
      var mark := bare + " ";
      var i, j := Index(line, mark), Index(line, bare);
      LineEvents(line, nonce, ints) ==
        if nonce == "" then [Output(line)]
        else if HasPrefix(line, mark) then EventsOf(ParseTraceLine(line[|mark|..], ints))
        else if i > 0 then [Output(line[..i])] + EventsOf(ParseTraceLine(line[i + |mark|..], ints))
        else if j >= 0 then (if j > 0 then [Output(line[..j])] else [])
        else [Output(line)]
  {
    hide Index, ParseTraceLine, HasPrefix, EventsOf;
    var mark := TraceMark(nonce) + " ";
    PrefixIsIndexZero(line, mark);
    assert EventsOf([]) == [] by {
      EventsOfNone();
    }
    assert forall prefix :: Outputs(Shown(prefix)) == if prefix == "" then [] else [Output(prefix)];
    assert Outputs([line]) == [Output(line)];
  }

  lemma EventsOfNone()
    ensures EventsOf([]) == []
  {
  }

  class EventEmitter {
    const nonce: string
    const ints: Ints
    var buf: string
    var suppress: bool
    var out: seq<Event>
    ghost var input: string

    ghost predicate Valid()
      reads this
    {
      Tracks(Complete(input)) && buf == Rest(input)
    }

    /** The events are those of the lines processed so far. */
    ghost predicate Tracks(lines: seq<string>)
      reads this
    {
      suppress == Stopped(lines, nonce) && out == Events(lines, nonce, ints)
    }

    constructor (nonce: string, ints: Ints)
      ensures Valid() && input == "" && out == [] && this.nonce == nonce && this.ints == ints
    {
      this.nonce, this.ints, buf, suppress, out, input := nonce, ints, "", false, [], "";
    }

    method Emit(events: seq<Event>)
      modifies this`out
      ensures out == old(out) + events
    {
      out := out + events;
    }

    /** Emits the events of one line, a trap line as a command. */
    method Report(line: string)
      modifies this`out
      ensures out == old(out) + LineEvents(line, nonce, ints)
    {
      hide ParseTraceLine, Index, LineEvents, TraceMark, EventsOf;
      LineCases(line, nonce, ints);
      if nonce == "" {
        Emit([Output(line)]);
        return;
      }
      var bareMarker := TraceMark(nonce);
      var prefix := bareMarker + " ";
      if HasPrefix(line, prefix) {
        Emit(EventsOf(ParseTraceLine(line[|prefix|..], ints)));
        return;
      }
      var idx := Index(line, prefix);
      if idx > 0 {
        Emit([Output(line[..idx])]);
        Emit(EventsOf(ParseTraceLine(line[idx + |prefix|..], ints)));
        return;
      }
      var at := Index(line, bareMarker);
      if at >= 0 {
        if at > 0 {
          Emit([Output(line[..at])]);
        }
        return;
      }
      Emit([Output(line)]);
    }

    method ProcessLine(line: string, ghost lines: seq<string>)
      requires Tracks(lines)
      modifies this`suppress, this`out
      ensures Tracks(lines + [line])
    {
      hide Events, Stopped, LineEvents;
      MoreEvents(lines, line, nonce, ints);
      if suppress {
        return;
      }
      if nonce != "" && line == OutputMark(nonce) {
        suppress := true;
        return;
      }
      Report(line);
    }

    /** However the input is cut into writes, the events depend on the whole of it only. */
    method Write(p: string)
      requires Valid()
      modifies this
      ensures Valid() && input == old(input) + p
    {
      hide Events, Stopped, Complete, Rest, LineEnd;
      CompleteAppend(input, p);
      ghost var done := Complete(input);
      buf := buf + p;
      input := input + p;
      while LineEnd(buf) < |buf|
        invariant Tracks(done) && input == old(input) + p
        invariant Complete(input) == done + Complete(buf) && Rest(input) == Rest(buf)
        decreases |buf|
      {
        var i := LineEnd(buf);
        var line := buf[..i];
        assert buf == line + [NL] + buf[i + 1..];
        FirstLine(line, buf[i + 1..]);
        buf := buf[i + 1..];
        ProcessLine(line, done);
        assert done + ([line] + Complete(buf)) == (done + [line]) + Complete(buf);
        done := done + [line];
      }
      LastLine(buf);
      assert done + [] == done;
    }

    /** The unfinished line, if any, counts as a line. */
    method Flush()
      requires Valid()
      modifies this
      ensures out == Events(Flushed(old(input)), nonce, ints) && buf == ""
    {
      if |buf| > 0 {
        ProcessLine(buf, Complete(input));
        buf := "";
      } else {
        assert Flushed(input) == Complete(input) + [] == Complete(input);
      }
    }
  }

  function Flushed(s: string): seq<string>
  {
    Complete(s) + if Rest(s) == "" then [] else [Rest(s)]
  }

  // ---- Streaming equals batch ----

  /** The output lines among the events. */
  function Printed(events: seq<Event>): seq<string>
  {
    if events == [] then []
    else Printed(events[..|events| - 1]) + if events[|events| - 1].Output? then [events[|events| - 1].line] else []
  }

  /** The commands among the events, a missing line number read as 0. */
  function Executed(events: seq<Event>): seq<TraceLine>
  {
    if events == [] then []
    else
      var e := events[|events| - 1];
      Executed(events[..|events| - 1])
      + if e.Executing? then [TraceLine(e.elapsed, if e.lineNo.Some? then e.lineNo.value else 0, e.command)] else []
  }

  lemma {:induction false} EventsJoin(a: seq<Event>, b: seq<Event>)
    ensures Printed(a + b) == Printed(a) + Printed(b) && Executed(a + b) == Executed(a) + Executed(b)
    decreases |b|
  {
    if b == [] {
      assert a + b == a;
    } else {
      assert (a + b)[..|a + b| - 1] == a + b[..|b| - 1];
      EventsJoin(a, b[..|b| - 1]);
    }
  }

  /** A trace line as the event can carry it. */
  function Carried(t: TraceLine): TraceLine
  {
    t.(lineNo := if t.lineNo > 0 then t.lineNo else 0)
  }

  function CarriedAll(trace: seq<TraceLine>): seq<TraceLine>
  {
    seq(|trace|, i requires 0 <= i < |trace| => Carried(trace[i]))
  }

  lemma {:induction false} OutputsPrinted(lines: seq<string>)
    ensures Printed(Outputs(lines)) == lines && Executed(Outputs(lines)) == []
  {
    if lines != [] {
      var front := lines[..|lines| - 1];
      OutputsPrinted(front);
      assert Outputs(lines)[..|lines| - 1] == Outputs(front);
    }
  }

  lemma {:induction false} EventsExecuted(trace: seq<TraceLine>)
    ensures Printed(EventsOf(trace)) == [] && Executed(EventsOf(trace)) == CarriedAll(trace)
  {
    if trace != [] {
      var front := trace[..|trace| - 1];
      EventsExecuted(front);
      assert EventsOf(trace)[..|trace| - 1] == EventsOf(front);
      assert CarriedAll(trace) == CarriedAll(front) + [Carried(trace[|trace| - 1])];
    }
  }

  lemma OneLineEvents(line: string, nonce: string, ints: Ints)
    requires nonce != ""
    ensures Printed(LineEvents(line, nonce, ints)) == CleanLine(line, nonce)
    ensures Executed(LineEvents(line, nonce, ints)) == CarriedAll(FireOf(line, nonce, ints))
  {
    hide CleanLine, FireOf, Printed, Executed, CarriedAll, Outputs, EventsOf;
    var shown, fired := CleanLine(line, nonce), FireOf(line, nonce, ints);
    OutputsPrinted(shown);
    EventsExecuted(fired);
    EventsJoin(Outputs(shown), EventsOf(fired));
  }

  /** While no line is the output marker, the live reader prints the clean lines and executes the fires. */
  lemma {:induction false} LiveIsBatch(lines: seq<string>, nonce: string, ints: Ints)
    requires nonce != "" && !Stopped(lines, nonce)
    ensures Printed(Events(lines, nonce, ints)) == Clean(lines, nonce)
    ensures Executed(Events(lines, nonce, ints)) == CarriedAll(Fires(lines, nonce, ints))
  {
    hide LineEvents, CleanLine, FireOf, Printed, Executed;
    if lines == [] {
      OutputsPrinted([]);
      EventsExecuted([]);
      assert Outputs([]) == [] && EventsOf([]) == [];
    } else {
      var front, line := lines[..|lines| - 1], lines[|lines| - 1];
      assert !Stopped(front, nonce);
      LiveIsBatch(front, nonce, ints);
      OneLineEvents(line, nonce, ints);
      EventsJoin(Events(front, nonce, ints), LineEvents(line, nonce, ints));
      assert CarriedAll(Fires(front, nonce, ints) + FireOf(line, nonce, ints))
          == CarriedAll(Fires(front, nonce, ints)) + CarriedAll(FireOf(line, nonce, ints));
    }
  }

  lemma {:induction false} EmptyIsPlain(nonce: string, ints: Ints)
    ensures CleanLine("", nonce) == [""] && FireOf("", nonce, ints) == []
  {
  }

  /**
   The live reader and the batch reader agree on every input none of whose lines is the output marker:
   the same output lines, but for the empty line the batch reader ends with when the input is empty or
   ends in a newline, and the same commands exactly if no line number is negative.
   */
  lemma {:induction false} StreamingEqualsBatch(input: string, nonce: string, ints: Ints)
    requires nonce != "" && !Stopped(Split(input), nonce)
    ensures
      var events := Events(Flushed(input), nonce, ints);
      && Clean(Split(input), nonce) == Printed(events) + (if Rest(input) == "" then [""] else [])
      && (Executed(events) == Fires(Split(input), nonce, ints) <==>
          forall i :: 0 <= i < |Fires(Split(input), nonce, ints)| ==> Fires(Split(input), nonce, ints)[i].lineNo >= 0)
  {
    hide Events, Clean, Fires, Printed, Executed;
    var lines := Flushed(input);
    assert forall i :: 0 <= i < |lines| ==> lines[i] == Split(input)[i];
    LiveIsBatch(lines, nonce, ints);
    if Rest(input) == "" {
      assert Split(input) == lines + [""];
      ReadMore(lines, "", nonce, ints);
      EmptyIsPlain(nonce, ints);
      assert Fires(lines, nonce, ints) + [] == Fires(lines, nonce, ints);
    } else {
      assert Split(input) == lines;
    }
    CarriedIsSame(Fires(Split(input), nonce, ints));
  }

  lemma CarriedIsSame(trace: seq<TraceLine>)
    ensures CarriedAll(trace) == trace <==> forall i :: 0 <= i < |trace| ==> trace[i].lineNo >= 0
  {
    if CarriedAll(trace) == trace {
      forall i | 0 <= i < |trace| ensures trace[i].lineNo >= 0 {
        assert CarriedAll(trace)[i] == Carried(trace[i]);
      }
    }
  }

  /** Past the output marker nothing is emitted: the events are those of the lines before it. */
  lemma {:induction false} NothingPastTheMarker(lines: seq<string>, n: nat, nonce: string, ints: Ints)
    requires n < |lines| && Stops(lines[n], nonce)
    ensures Events(lines, nonce, ints) == Events(lines[..n], nonce, ints)
    decreases |lines|
  {
    var front := lines[..|lines| - 1];
    assert Stopped(lines, nonce);
    if n < |front| {
      NothingPastTheMarker(front, n, nonce, ints);
      assert front[..n] == lines[..n];
    }
  }

  lemma IndexAtStart(s: string, m: string)
    requires |m| <= |s| && s[..|m|] == m
    ensures Index(s, m) == 0
  {
    assert At(s, m, 0);
  }

  /** The first blank of a word followed by one. */
  lemma IndexOfBlank(word: string, rest: string)
    requires forall i :: 0 <= i < |word| ==> word[i] != ' '
    ensures Index(word + " " + rest, " ") == |word|
  {
    var s := word + " " + rest;
    assert s[|word|..|word| + 1] == " ";
    assert At(s, " ", |word|);
    forall k | 0 <= k < |word| ensures !At(s, " ", k) {
      assert s[k] == word[k] && s[k..k + 1][0] == s[k];
    }
    var r := Index(s, " ");
    assert r >= 0 && At(s, " ", r);
  }

  /** Such a line: `3 -7 ls`. */
  lemma ParsesNegative(ints: Ints)
    requires ints.value("3") == 3 && ints.ok("-7") && ints.value("-7") == -7
    ensures ParseTraceLine("3 -7 ls", ints) == [TraceLine(3, -7, "ls")]
  {
    IndexOfBlank("3", "-7 ls");
    IndexOfBlank("-7", "ls");
    hide Index, IndexFrom;
    assert "3" + " " + "-7 ls" == "3 -7 ls" && "-7" + " " + "ls" == "-7 ls";
    assert "3 -7 ls"[..1] == "3" && "3 -7 ls"[2..] == "-7 ls";
    assert "-7 ls"[..2] == "-7" && "-7 ls"[3..] == "ls";
  }

  /** Any trap line with a negative number is one on which the two readers differ. */
  lemma {:induction false} NegativeLineNumberDiffers(nonce: string, rest: string, t: TraceLine, ints: Ints)
    requires nonce != "" && OneLine(nonce) && OneLine(rest)
    requires ParseTraceLine(rest, ints) == [t] && t.lineNo < 0
    ensures
      var input := TraceMark(nonce) + " " + rest;
      && Fires(Split(input), nonce, ints) == [t]
      && Executed(Events(Flushed(input), nonce, ints)) != [t]
  {
    var mark := TraceMark(nonce) + " ";
    var input := mark + rest;
    assert OneLine("SHELLKIT_CMD_");
    hide Events, Clean, Printed, Executed, IndexFrom, Split, Index, ParseTraceLine;
    LastLine(input);
    IndexAtStart(input, mark);
    assert input[|mark|..] == rest;
    assert KindOf(input, nonce) == Fire(input[..0], rest);
    var none: seq<string> := [];
    ReadMore(none, input, nonce, ints);
    assert none + [input] == [input] && Fires(none, nonce, ints) == [];
    NotTheOutputMark(input, nonce);
    StreamingEqualsBatch(input, nonce, ints);
    assert Fires(Split(input), nonce, ints)[0].lineNo < 0;
  }

  lemma NotTheOutputMark(input: string, nonce: string)
    requires input != "" && input[0] == 'S' && OneLine(input)
    ensures !Stopped(Split(input), nonce)
  {
    LastLine(input);
  }

  // ---- What a trap line says ----

  predicate OneWord(s: string)
  {
    forall i :: 0 <= i < |s| ==> s[i] != ' '
  }

  lemma FirstBlank(word: string, rest: string)
    requires OneWord(word)
    ensures Index(word + " " + rest, " ") == |word|
    ensures (word + " " + rest)[..|word|] == word && (word + " " + rest)[|word| + 1..] == rest
  {
    IndexOfBlank(word, rest);
  }

  lemma NoBlank(word: string)
    requires OneWord(word)
    ensures Index(word, " ") < 0
  {
    forall k ensures !At(word, " ", k) {
      assert 0 <= k < |word| ==> word[k..k + 1] == [word[k]];
    }
  }

  /**
   What the trap prints of a command comes back: its seconds, its line number, and its whole text, blanks and all.
   Where the second word is no number, or there is none, the text starts there and the line is not known.
   */
  lemma {:induction false} TrapLineRoundTrip(seconds: string, line: string, command: string, ints: Ints)
    requires OneWord(seconds) && OneWord(line)
    ensures ints.ok(line) ==>
      ParseTraceLine(seconds + " " + (line + " " + command), ints) == [TraceLine(ints.value(seconds), ints.value(line), command)]
    ensures !ints.ok(line) ==>
      ParseTraceLine(seconds + " " + (line + " " + command), ints) == [TraceLine(ints.value(seconds), 0, line + " " + command)]
    ensures ParseTraceLine(seconds + " " + line, ints) == [TraceLine(ints.value(seconds), 0, line)]
    ensures ParseTraceLine(seconds, ints) == []
  {
    FirstBlank(seconds, line + " " + command);
    FirstBlank(seconds, line);
    FirstBlank(line, command);
    NoBlank(line);
    NoBlank(seconds);
    hide Index;
  }

  /** A trap line is hidden and its command recorded, also behind output that did not end its line, which is kept. */
  lemma {:induction false} MarkedLine(prefix: string, rest: string, nonce: string, ints: Ints)
    requires forall k :: 0 <= k < |prefix| ==> !At(prefix + (TraceMark(nonce) + " " + rest), TraceMark(nonce) + " ", k)
    ensures
      var line := prefix + (TraceMark(nonce) + " " + rest);
      CleanLine(line, nonce) == (if prefix == "" then [] else [prefix]) && FireOf(line, nonce, ints) == ParseTraceLine(rest, ints)
  {
    hide ParseTraceLine;
    var mark := TraceMark(nonce) + " ";
    var line := prefix + (mark + rest);
    assert line[|prefix|..|prefix| + |mark|] == mark && line[|prefix| + |mark|..] == rest && line[..|prefix|] == prefix;
    assert At(line, mark, |prefix|);
    var i := Index(line, mark);
    assert i >= 0 && !(i < |prefix|) && !(|prefix| < i);
    hide Index;
  }

  /** A marker with nothing behind it is hidden, with all that follows it; a line without one is output. */
  lemma {:induction false} UnmarkedLine(line: string, nonce: string, ints: Ints)
    requires forall k :: !At(line, TraceMark(nonce) + " ", k)
    ensures FireOf(line, nonce, ints) == []
    ensures (forall k :: !At(line, TraceMark(nonce), k)) ==> CleanLine(line, nonce) == [line]
    ensures forall k :: At(line, TraceMark(nonce), k) && (forall j :: 0 <= j < k ==> !At(line, TraceMark(nonce), j)) ==>
      CleanLine(line, nonce) == if k == 0 then [] else [line[..k]]
  {
    hide IndexFrom;
    var j := Index(line, TraceMark(nonce));
    assert Index(line, TraceMark(nonce) + " ") < 0;
    forall k | At(line, TraceMark(nonce), k) && (forall j :: 0 <= j < k ==> !At(line, TraceMark(nonce), j)) ensures j == k {}
  }

  /** A live event carries a line number exactly if it is positive. */
  lemma {:induction false} EventNumbers(trace: seq<TraceLine>, i: nat)
    requires i < |trace|
    ensures
      var e := EventsOf(trace)[i];
      && e.Executing? && e.elapsed == trace[i].elapsed && e.command == trace[i].command
      && (e.lineNo.Some? <==> trace[i].lineNo > 0) && (e.lineNo.Some? ==> e.lineNo.value == trace[i].lineNo)
  {
  }
}
