/** Tailing the event files: control events exactly once and in order, output only while the channel has room. */
module Watcher {
  import L = Live
  import opened TraceLines

  type Id = string

  datatype Msg = Msg(id: Id, event: L.Event)

  /** A line of an event file, when it is well-formed JSON. */
  type Parser = string -> Option<L.Event>

  function ParsedLines(parse: Parser, lines: seq<string>): seq<L.Event>
  {
    if lines == [] then []
    else
      var e := parse(lines[|lines| - 1]);
      ParsedLines(parse, lines[..|lines| - 1]) + if e.Some? then [e.value] else []
  }

  /** The events in a file of whole lines. */
  function Parsed(parse: Parser, content: string): seq<L.Event>
  {
    ParsedLines(parse, Complete(content))
  }

  /** The events of one call among the messages. */
  function Of(msgs: seq<Msg>, id: Id): seq<L.Event>
  {
    if msgs == [] then []
    else Of(msgs[..|msgs| - 1], id) + if msgs[|msgs| - 1].id == id then [msgs[|msgs| - 1].event] else []
  }

  /** `sent` is `read` without some of its output events. */
  predicate Thinned(sent: seq<Msg>, read: seq<Msg>)
    decreases |read|
  {
    if read == [] then sent == []
    else
      var last := read[|read| - 1];
      || (sent != [] && sent[|sent| - 1] == last && Thinned(sent[..|sent| - 1], read[..|read| - 1]))
      || (!L.IsControl(last.event) && Thinned(sent, read[..|read| - 1]))
  }

  lemma {:induction false} ThinnedSend(sent: seq<Msg>, read: seq<Msg>, m: Msg)
    requires Thinned(sent, read)
    ensures Thinned(sent + [m], read + [m])
    ensures !L.IsControl(m.event) ==> Thinned(sent, read + [m])
  {
    assert (sent + [m])[..|sent|] == sent && (read + [m])[..|read|] == read;
  }

  /** Dropping output keeps every call's control events, in order and once each. */
  lemma {:induction false} ThinnedControl(sent: seq<Msg>, read: seq<Msg>, id: Id)
    requires Thinned(sent, read)
    ensures L.ControlOf(Of(sent, id)) == L.ControlOf(Of(read, id))
    decreases |read|
  {
    hide L.ControlOf, L.IsControl;
    if read != [] {
      var last := read[|read| - 1];
      var readFront := read[..|read| - 1];
      assert Of(readFront, id) + [] == Of(readFront, id);
      if sent != [] && sent[|sent| - 1] == last && Thinned(sent[..|sent| - 1], readFront) {
        ThinnedControl(sent[..|sent| - 1], readFront, id);
        assert Of(sent[..|sent| - 1], id) + [] == Of(sent[..|sent| - 1], id);
        ControlSnoc(Of(sent[..|sent| - 1], id), last.event);
        ControlSnoc(Of(readFront, id), last.event);
      } else {
        ThinnedControl(sent, readFront, id);
        ControlSnoc(Of(readFront, id), last.event);
      }
    }
  }

  lemma {:induction false} ControlSnoc(events: seq<L.Event>, e: L.Event)
    ensures L.ControlOf(events + [e]) == L.ControlOf(events) + if L.IsControl(e) then [e] else []
  {
    assert (events + [e])[..|events|] == events;
  }

  lemma {:induction false} OfSnoc(msgs: seq<Msg>, m: Msg, id: Id)
    ensures Of(msgs + [m], id) == Of(msgs, id) + if m.id == id then [m.event] else []
  {
    assert (msgs + [m])[..|msgs|] == msgs;
  }

  lemma {:induction false} ParsedSnoc(parse: Parser, lines: seq<string>, line: string)
    ensures ParsedLines(parse, lines + [line]) == ParsedLines(parse, lines) + if parse(line).Some? then [parse(line).value] else []
  {
    assert (lines + [line])[..|lines|] == lines;
  }

  predicate HasEnd(events: seq<L.Event>)
  {
    exists i :: 0 <= i < |events| && events[i].CallEnd?
  }

  /** The messages grew by the call's event, if there is one. */
  ghost predicate Grew(read: seq<Msg>, before: seq<Msg>, id: Id, e: Option<L.Event>)
  {
    && Of(read, id) == Of(before, id) + (if e.Some? then [e.value] else [])
    && forall other :: other != id ==> Of(read, other) == Of(before, other)
  }

  lemma NoneParsed(parse: Parser)
    ensures ParsedLines(parse, []) == [] && !HasEnd([])
  {
  }

  lemma HeadToTail(lines: seq<string>, line: string, rest: seq<string>)
    ensures lines + ([line] + rest) == (lines + [line]) + rest
  {
  }

  lemma OneMoreLine(parse: Parser, start: seq<Msg>, before: seq<Msg>, read: seq<Msg>, id: Id, lines: seq<string>, line: string)
    requires Of(before, id) == Of(start, id) + ParsedLines(parse, lines)
    requires forall other :: other != id ==> Of(before, other) == Of(start, other)
    requires Grew(read, before, id, parse(line))
    ensures Of(read, id) == Of(start, id) + ParsedLines(parse, lines + [line])
    ensures forall other :: other != id ==> Of(read, other) == Of(start, other)
    ensures HasEnd(ParsedLines(parse, lines + [line])) <==>
      HasEnd(ParsedLines(parse, lines)) || (parse(line).Some? && parse(line).value.CallEnd?)
  {
    hide Of;
    ParsedSnoc(parse, lines, line);
    var events := ParsedLines(parse, lines);
    if parse(line).Some? {
      var more := events + [parse(line).value];
      assert more[|events|] == parse(line).value && forall i :: 0 <= i < |events| ==> more[i] == events[i];
    } else {
      assert events + [] == events;
    }
  }

  class LiveWatcher {
    const parse: Parser
    var offsets: map<Id, nat>
    var sealed: set<Id>
    var dropped: nat
    var sent: seq<Msg>

    /** All events read, and of every file what has been read of it; `restarted` holds the files that were lost or shrank. */
    ghost var read: seq<Msg>
    ghost var seen: map<Id, string>
    ghost var restarted: set<Id>

    ghost function Seen(id: Id): string
      reads this`seen
    {
      if id in seen then seen[id] else ""
    }

    function OffsetOf(id: Id): nat
      reads this`offsets
    {
      if id in offsets then offsets[id] else 0
    }

    ghost predicate Delivered()
      reads this`sent, this`read, this`dropped
    {
      Thinned(sent, read) && |sent| + dropped == |read|
    }

    ghost predicate Tracked(id: Id)
      reads this`offsets, this`seen, this`read, this`restarted
    {
      && OffsetOf(id) == |Seen(id)|
      && Rest(Seen(id)) == ""
      && (id !in restarted ==> Of(read, id) == Parsed(parse, Seen(id)))
    }

    ghost predicate Valid()
      reads this
    {
      Delivered() && forall id :: Tracked(id)
    }

    constructor (parse: Parser)
      ensures Valid() && this.parse == parse && sent == [] && read == [] && seen == map[] && restarted == {}
    {
      this.parse := parse;
      offsets, sealed, dropped, sent := map[], {}, 0, [];
      read, seen, restarted := [], map[], {};
    }

    /** One event: control events wait for room in the channel, output is dropped without it. */
    method Deliver(m: Msg, room: bool)
      requires Delivered()
      modifies this`sent, this`dropped, this`read
      ensures Delivered() && read == old(read) + [m]
      ensures sent == if !room && (m.event.Stdout? || m.event.Stderr? || m.event.Unknown?) then old(sent) else old(sent) + [m]
    {
      ThinnedSend(sent, read, m);
      if L.IsControl(m.event) || room {
        sent := sent + [m];
      } else {
        dropped := dropped + 1;
      }
      read := read + [m];
    }

    /** Parses and delivers one line; a malformed one is skipped. */
    method ReadLine(id: Id, line: string, room: bool) returns (ended: bool)
      requires Delivered()
      modifies this`sent, this`dropped, this`read
      ensures Delivered() && Grew(read, old(read), id, parse(line))
      ensures ended <==> parse(line).Some? && parse(line).value.CallEnd?
    {
      hide Delivered, Of;
      var e := parse(line);
      ended := e.Some? && e.value.CallEnd?;
      if e.Some? {
        ghost var before := read;
        Deliver(Msg(id, e.value), room);
        forall other ensures Of(read, other) == Of(before, other) + if other == id then [e.value] else [] {
          OfSnoc(before, Msg(id, e.value), other);
        }
      }
    }

    /** Reads the lines of `rest`; `room(k)` says whether the channel has room when `k` bytes have been read. */
    method ReadLines(id: Id, rest: string, room: nat -> bool) returns (bytesRead: nat, sawCallEnd: bool)
      requires Delivered() && Rest(rest) == ""
      modifies this`sent, this`dropped, this`read
      ensures Delivered() && bytesRead == |rest|
      ensures Of(read, id) == Of(old(read), id) + Parsed(parse, rest)
      ensures forall other :: other != id ==> Of(read, other) == Of(old(read), other)
      ensures sawCallEnd <==> HasEnd(Parsed(parse, rest))
    {
      hide Complete, Rest, LineEnd, Delivered, Of, ParsedLines, HasEnd;
      var left := rest;
      ghost var lines: seq<string> := [];
      NoneParsed(parse);
      assert Of(read, id) == Of(read, id) + [];
      bytesRead, sawCallEnd := 0, false;
      while left != ""
        invariant Delivered() && bytesRead + |left| == |rest|
        invariant Complete(rest) == lines + Complete(left) && Rest(left) == ""
        invariant Of(read, id) == Of(old(read), id) + ParsedLines(parse, lines)
        invariant forall other :: other != id ==> Of(read, other) == Of(old(read), other)
        invariant sawCallEnd <==> HasEnd(ParsedLines(parse, lines))
        decreases |left|
      {
        var n := LineEnd(left);
        Cut(left);
        var line := left[..n];
        FirstLine(line, left[n + 1..]);
        bytesRead := bytesRead + |line| + 1;
        ghost var before := read;
        var ended := ReadLine(id, line, room(bytesRead));
        sawCallEnd := sawCallEnd || ended;
        OneMoreLine(parse, old(read), before, read, id, lines, line);
        HeadToTail(lines, line, Complete(left[n + 1..]));
        lines := lines + [line];
        left := left[n + 1..];
      }
      NothingLeft();
      assert lines + [] == lines;
    }

    /** The file could not be opened: it may have been deleted, and its offset is forgotten. */
    method Lose(id: Id)
      requires Valid()
      modifies this`offsets, this`seen, this`restarted
      ensures Valid() && restarted == old(restarted) + {id} && offsets == old(offsets) - {id}
      ensures Seen(id) == "" && forall other :: other != id ==> Seen(other) == old(Seen(other))
    {
      hide Complete, Rest, Parsed, Delivered;
      NothingLeft();
      offsets := offsets - {id};
      seen := seen - {id};
      restarted := restarted + {id};
      assert forall other :: old(Tracked(other)) ==> Tracked(other);
    }

    /** Scans a file from where the last scan stopped; it has grown by whole lines only, or it has shrunk. */
    method ScanFile(id: Id, content: string, room: nat -> bool)
      requires Valid()
      requires Rest(content) == "" && (Seen(id) <= content || |content| < |Seen(id)|)
      modifies this
      ensures Valid()
      ensures Seen(id) == content && forall other :: other != id ==> Seen(other) == old(Seen(other))
      ensures restarted == old(restarted) + if old(Seen(id)) <= content then {} else {id}
      ensures
        var from := if |old(Seen(id))| <= |content| then |old(Seen(id))| else 0;
        sealed == old(sealed) + if HasEnd(Parsed(parse, content[from..])) then {id} else {}
    {
      hide Complete, Rest, Parsed, Delivered, Of, HasEnd, Thinned;
      ghost var past, before := Seen(id), read;
      assert Tracked(id);
      var off := OffsetOf(id);
      if off > |content| {
        off := 0;
        past := "";
        restarted := restarted + {id};
        NothingLeft();
      }
      var rest := content[off..];
      assert content == past + rest;
      WholeRest(past, rest);
      var bytesRead, sawCallEnd := ReadLines(id, rest, room);
      ParsedTwice(parse, past, rest);
      offsets := offsets[id := off + bytesRead];
      seen := seen[id := content];
      if sawCallEnd {
        sealed := sealed + {id};
      }
      assert Tracked(id);
      forall other | other != id ensures Tracked(other) {
        assert old(Tracked(other)) && Of(read, other) == Of(before, other);
      }
    }
  }

  lemma NothingLeft()
    ensures Complete("") == [] && Rest("") == ""
  {
  }

  /** What follows a whole number of lines in a file of whole lines is one, too. */
  lemma WholeRest(past: string, rest: string)
    requires Rest(past) == "" && Rest(past + rest) == ""
    ensures Rest(rest) == ""
  {
    CompleteAppend(past, rest);
    assert "" + rest == rest;
  }

  lemma {:induction false} ParsedJoin(parse: Parser, a: seq<string>, b: seq<string>)
    ensures ParsedLines(parse, a + b) == ParsedLines(parse, a) + ParsedLines(parse, b)
    decreases |b|
  {
    if b == [] {
      assert a + b == a;
    } else {
      assert (a + b)[..|a + b| - 1] == a + b[..|b| - 1];
      ParsedJoin(parse, a, b[..|b| - 1]);
    }
  }

  lemma ParsedTwice(parse: Parser, past: string, rest: string)
    requires Rest(past) == ""
    ensures Parsed(parse, past + rest) == Parsed(parse, past) + Parsed(parse, rest)
  {
    CompleteAppend(past, rest);
    assert "" + rest == rest;
    ParsedJoin(parse, Complete(past), Complete(rest));
  }

  // ---- What the tail delivers ----

  /**
   Of every file that was neither lost nor shrank, the control events sent are exactly those of the part
   read so far, in order and once each; and over all files what was sent and what was dropped add up to
   what was read.
   */
  lemma {:induction false} ExactlyOnce(w: LiveWatcher, id: Id)
    requires w.Valid() && id !in w.restarted
    ensures L.ControlOf(Of(w.sent, id)) == L.ControlOf(Parsed(w.parse, w.Seen(id)))
    ensures Thinned(w.sent, w.read) && |w.sent| + w.dropped == |w.read|
  {
    assert w.Tracked(id);
    ThinnedControl(w.sent, w.read, id);
  }

  /** So a view fed by the channel and a replay of the file show the same control state. */
  lemma {:induction false} TailedViewAgreesWithReplay(w: LiveWatcher, id: Id, p: L.Parsing)
    requires w.Valid() && id !in w.restarted
    ensures L.After(L.FRESH, p, Of(w.sent, id)) == L.After(L.FRESH, p, Parsed(w.parse, w.Seen(id)))
  {
    ExactlyOnce(w, id);
    L.LiveAgreesWithReplay(p, Of(w.sent, id), Parsed(w.parse, w.Seen(id)));
  }
}
