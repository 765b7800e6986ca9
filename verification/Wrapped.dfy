/** The wrapper's output and its parser: a round trip for every text in which the nonce does not occur. */
module Wrapped {
  import opened Operators
  import opened TraceLines

  // ---- The parser ----

  predicate HasSuffix(s: string, m: string)
  {
    |m| <= |s| && s[|s| - |m|..] == m
  }

  function TrimSuffix(s: string, m: string): string
  {
    if HasSuffix(s, m) then s[..|s| - |m|] else s
  }

  function SkipNewline(s: string): string
  {
    if s != [] && s[0] == NL then s[1..] else s
  }

  datatype Parsed = Parsed(stdout: string, outputs: string, stderr: string)

  function ParseWrappedOutput(raw: string, nonce: string): Parsed
  {
    var outMark, errMark := OutputMark(nonce), StderrMark(nonce);
    var i := Index(raw, outMark);
    if i < 0 then Parsed(raw, "", "")
    else
      var stdout := TrimSuffix(raw[..i], "\n");
      var rest := SkipNewline(raw[i + |outMark|..]);
      var j := Index(rest, errMark);
      if j < 0 then Parsed(stdout, Trim(rest), "")
      else Parsed(stdout, Trim(rest[..j]), Trim(SkipNewline(rest[j + |errMark|..])))
  }

  /** Without the output marker all is the script's own, to the byte. */
  lemma {:induction false} WithoutMarkers(raw: string, nonce: string)
    requires forall i :: !At(raw, OutputMark(nonce), i)
    ensures ParseWrappedOutput(raw, nonce) == Parsed(raw, "", "")
  {
  }

  /** Behind the first output marker are the outputs; without the other marker they are all that is there. */
  lemma {:induction false} WithoutStderr(stdout: string, outputs: string, nonce: string)
    requires forall i :: 0 <= i <= |stdout| ==> !At(stdout + "\n" + OutputMark(nonce) + "\n" + outputs, OutputMark(nonce), i)
    requires forall i :: !At(outputs, StderrMark(nonce), i)
    ensures ParseWrappedOutput(stdout + "\n" + OutputMark(nonce) + "\n" + outputs, nonce) == Parsed(stdout, Trim(outputs), "")
  {
    var m := OutputMark(nonce);
    var raw, k := stdout + "\n" + m + "\n" + outputs, |stdout| + 1;
    hide OutputMark, StderrMark, Trim, IndexFrom;
    assert raw[k..k + |m|] == m && At(raw, m, k);
    assert Index(raw, m) == k;
    assert raw[..k] == stdout + "\n" && raw[k + |m|..] == "\n" + outputs;
    assert ("\n" + outputs)[1..] == outputs && (stdout + "\n")[..|stdout|] == stdout;
    assert Index(outputs, StderrMark(nonce)) < 0;
  }

  // ---- The wrapper ----

  /** What the wrapper prints after the script: an empty echo, the markers, and the two captured files. */
  function Postscript(outputs: string, stderr: string, nonce: string): string
  {
    OutputMark(nonce) + "\n" + (outputs + (StderrMark(nonce) + "\n" + stderr))
  }

  /** The trap's lines for one command each. */
  function TrapLines(fires: seq<string>, nonce: string): seq<string>
  {
    seq(|fires|, i requires 0 <= i < |fires| => TraceMark(nonce) + " " + fires[i])
  }

  /** The script's lines, each behind the commands that fired while the cursor stood at its start. */
  function Woven(lines: seq<string>, fires: seq<seq<string>>, nonce: string): seq<string>
    requires |fires| == |lines|
  {
    if lines == [] then []
    else
      var n := |lines| - 1;
      Woven(lines[..n], fires[..n], nonce) + (TrapLines(fires[n], nonce) + [lines[n]])
  }

  function ParseAll(fires: seq<string>, ints: Ints): seq<TraceLine>
  {
    if fires == [] then [] else ParseAll(fires[..|fires| - 1], ints) + ParseTraceLine(fires[|fires| - 1], ints)
  }

  function Flatten(fires: seq<seq<string>>): seq<string>
  {
    if fires == [] then [] else Flatten(fires[..|fires| - 1]) + fires[|fires| - 1]
  }

  /** Everything the connection carries. */
  function Wire(stdout: string, fires: seq<seq<string>>, outputs: string, stderr: string, nonce: string): string
    requires |fires| == |Split(stdout)|
  {
    Join(Woven(Split(stdout), fires, nonce)) + "\n" + Postscript(outputs, stderr, nonce)
  }

  // ---- Where the nonce can occur ----

  predicate Hex(c: char)
  {
    '0' <= c <= '9' || 'a' <= c <= 'f'
  }

  predicate IsNonce(nonce: string)
  {
    nonce != "" && forall i :: 0 <= i < |nonce| ==> Hex(nonce[i])
  }

  ghost predicate Free(s: string, nonce: string)
  {
    forall i :: !At(s, nonce, i)
  }

  predicate NoHex(s: string)
  {
    forall i :: 0 <= i < |s| ==> !Hex(s[i])
  }

  /** An occurrence lies on one side of a separator. */
  lemma Sides(a: string, sep: string, b: string, nonce: string, i: int)
    requires IsNonce(nonce) && sep != "" && NoHex(sep) && At(a + (sep + b), nonce, i)
    ensures At(a, nonce, i) || At(b, nonce, i - |a| - |sep|)
  {
    var s := a + (sep + b);
    assert forall k :: i <= k < i + |nonce| ==> s[k] == nonce[k - i] && Hex(s[k]);
    assert forall k :: |a| <= k < |a| + |sep| ==> s[k] == sep[k - |a|] && !Hex(s[k]);
    var k := if |a| <= i < |a| + |sep| then i else |a|;
    assert !Hex(s[k]);
    if i + |nonce| <= |a| {
      assert s[i..i + |nonce|] == a[i..i + |nonce|];
    } else if i >= |a| + |sep| {
      assert s[i..i + |nonce|] == b[i - |a| - |sep|..i - |a| - |sep| + |nonce|];
    }
  }

  lemma MarksHaveNoHex()
    ensures NoHex("---SHELLKIT-OUTPUTS-") && NoHex("---SHELLKIT-STDERR-") && NoHex("---\n") && NoHex("SHELLKIT_CMD_")
    ensures NoHex("\n---SHELLKIT-OUTPUTS-")
  {
  }

  /** The nonce occurs in itself once. */
  lemma NonceInItself(nonce: string, i: int)
    requires At(nonce, nonce, i)
    ensures i == 0
  {
  }

  /** In text behind a marker the nonce occurs where the marker has it, or where the later text has it. */
  lemma BehindMark(a: string, prefix: string, nonce: string, suffix: string, b: string, i: int)
    requires IsNonce(nonce) && Free(a, nonce)
    requires prefix != "" && NoHex(prefix) && suffix != "" && NoHex(suffix)
    requires At(a + (prefix + (nonce + (suffix + b))), nonce, i)
    ensures i == |a| + |prefix| || At(b, nonce, i - |a| - |prefix| - |nonce| - |suffix|)
  {
    hide At, NoHex, IsNonce;
    Sides(a, prefix, nonce + (suffix + b), nonce, i);
    Sides(nonce, suffix, b, nonce, i - |a| - |prefix|);
    if At(nonce, nonce, i - |a| - |prefix|) {
      NonceInItself(nonce, i - |a| - |prefix|);
    }
  }

  /** Where a marker occurs, the nonce occurs behind its prefix. */
  lemma MarkHasNonce(s: string, prefix: string, nonce: string, suffix: string, i: int)
    requires At(s, prefix + nonce + suffix, i)
    ensures At(s, nonce, i + |prefix|)
  {
    var m := prefix + nonce + suffix;
    assert s[i..i + |m|] == m;
    forall k | 0 <= k < |nonce| ensures s[i + |prefix| + k] == nonce[k] {
      assert s[i..i + |m|][|prefix| + k] == m[|prefix| + k];
    }
    assert s[i + |prefix|..i + |prefix| + |nonce|] == nonce;
  }

  lemma MarkBegins(s: string, a: string, m: string, b: string)
    requires s == a + (m + b)
    ensures At(s, m, |a|) && s[..|a|] == a && s[|a| + |m|..] == b
  {
    assert s[|a|..] == m + b;
    assert s[|a|..|a| + |m|] == s[|a|..][..|m|];
  }

  /** A marker behind text without the nonce is found where it was put. */
  lemma FindsMark(a: string, prefix: string, nonce: string, suffix: string, b: string)
    requires IsNonce(nonce) && Free(a, nonce) && prefix != "" && NoHex(prefix) && suffix != "" && NoHex(suffix)
    ensures
      var m := prefix + nonce + suffix;
      var s := a + (m + b);
      Index(s, m) == |a| && s[..|a|] == a && s[|a| + |m|..] == b
  {
    hide NoHex, IsNonce;
    var m := prefix + nonce + suffix;
    var s := a + (m + b);
    MarkBegins(s, a, m, b);
    forall k | At(s, m, k) ensures |a| <= k {
      MarkHasNonce(s, prefix, nonce, suffix, k);
      assert s == a + (prefix + (nonce + (suffix + b)));
      Sides(a, prefix, nonce + (suffix + b), nonce, k + |prefix|);
    }
    hide At;
  }

  lemma OutputMarkParts(nonce: string)
    ensures OutputMark(nonce) == "---SHELLKIT-OUTPUTS-" + nonce + "---"
    ensures StderrMark(nonce) == "---SHELLKIT-STDERR-" + nonce + "---"
    ensures NoHex("---")
  {
  }

  /** The two markers of a wrapped text are found where the wrapper put them. */
  lemma FindsBoth(stdout: string, outputs: string, stderr: string, nonce: string)
    requires IsNonce(nonce) && Free(stdout, nonce) && Free(outputs, nonce)
    ensures
      var raw := stdout + "\n" + Postscript(outputs, stderr, nonce);
      var tail := outputs + (StderrMark(nonce) + "\n" + stderr);
      var i, j := Index(raw, OutputMark(nonce)), Index(tail, StderrMark(nonce));
      && i >= 0 && raw[..i] == stdout + "\n" && raw[i + |OutputMark(nonce)|..] == "\n" + tail
      && j >= 0 && tail[..j] == outputs && tail[j + |StderrMark(nonce)|..] == "\n" + stderr
  {
    hide IsNonce, At, NoHex, Index, Free;
    MarksHaveNoHex();
    OutputMarkParts(nonce);
    var front := stdout + "\n";
    FreeWithNewline(stdout, nonce);
    var tail := outputs + (StderrMark(nonce) + "\n" + stderr);
    assert stdout + "\n" + Postscript(outputs, stderr, nonce) == front + (OutputMark(nonce) + ("\n" + tail));
    FindsMark(front, "---SHELLKIT-OUTPUTS-", nonce, "---", "\n" + tail);
    assert tail == outputs + (StderrMark(nonce) + ("\n" + stderr));
    FindsMark(outputs, "---SHELLKIT-STDERR-", nonce, "---", "\n" + stderr);
  }

  /** Parsing undoes wrapping once the trap lines are gone. */
  lemma {:induction false} ParsesPostscript(stdout: string, outputs: string, stderr: string, nonce: string)
    requires IsNonce(nonce) && Free(stdout, nonce) && Free(outputs, nonce)
    ensures ParseWrappedOutput(stdout + "\n" + Postscript(outputs, stderr, nonce), nonce)
         == Parsed(stdout, Trim(outputs), Trim(stderr))
  {
    hide Trim, IsNonce, At, OutputMark, StderrMark, Free, Index, Postscript;
    FindsBoth(stdout, outputs, stderr, nonce);
    var tail := outputs + (StderrMark(nonce) + "\n" + stderr);
    assert TrimSuffix(stdout + "\n", "\n") == stdout;
    assert SkipNewline("\n" + tail) == tail && SkipNewline("\n" + stderr) == stderr;
  }

  lemma FreeWithNewline(s: string, nonce: string)
    requires IsNonce(nonce) && Free(s, nonce)
    ensures Free(s + "\n", nonce)
  {
    forall i ensures !At(s + "\n", nonce, i) {
      if At(s + "\n", nonce, i) {
        assert s + "\n" == s + ("\n" + "");
        Sides(s, "\n", "", nonce, i);
      }
    }
  }

  // ---- The trap lines ----

  /** In the postscript every nonce stands behind a dash. */
  lemma DashBeforeNonce(outputs: string, stderr: string, nonce: string, at: int)
    requires IsNonce(nonce) && Free(outputs, nonce) && Free(stderr, nonce)
    requires At(Postscript(outputs, stderr, nonce), nonce, at)
    ensures at > 0 && Postscript(outputs, stderr, nonce)[at - 1] == '-'
  {
    hide IsNonce, Free, At, NoHex;
    MarksHaveNoHex();
    var s := Postscript(outputs, stderr, nonce);
    var p, q := "---SHELLKIT-OUTPUTS-", "---SHELLKIT-STDERR-";
    var later := outputs + (q + (nonce + ("---\n" + stderr)));
    assert s == "" + (p + (nonce + ("---\n" + later)));
    FreeEmpty(nonce);
    BehindMark("", p, nonce, "---\n", later, at);
    assert s[|p| - 1] == '-';
    if at != |p| {
      var from := |p| + |nonce| + 4;
      BehindMark(outputs, q, nonce, "---\n", stderr, at - from);
      assert At(later, nonce, at - from) && !At(stderr, nonce, at - from - |outputs| - |q| - |nonce| - 4) by {
        NotIn(stderr, nonce, at - from - |outputs| - |q| - |nonce| - 4);
      }
      assert s[from + |outputs| + |q| - 1] == later[|outputs| + |q| - 1] == '-';
    }
  }

  lemma FreeEmpty(nonce: string)
    requires IsNonce(nonce)
    ensures Free("", nonce)
  {
  }

  lemma NotIn(s: string, nonce: string, i: int)
    requires Free(s, nonce)
    ensures !At(s, nonce, i)
  {
  }

  /** A trap marker has its nonce behind an underscore. */
  lemma UnderscoreBeforeNonce(s: string, nonce: string, i: int)
    requires At(s, TraceMark(nonce), i)
    ensures
      var at := i + |"SHELLKIT_CMD_"|;
      At(s, nonce, at) && at > 0 && s[at - 1] == '_'
  {
    var m := TraceMark(nonce);
    assert m == "SHELLKIT_CMD_" + nonce + "" && m[|"SHELLKIT_CMD_"| - 1] == '_';
    MarkHasNonce(s, "SHELLKIT_CMD_", nonce, "", i);
    assert s[i..i + |m|][|"SHELLKIT_CMD_"| - 1] == s[i + |"SHELLKIT_CMD_"| - 1];
  }

  /** So it contains no trap marker. */
  lemma PostscriptIsPlain(outputs: string, stderr: string, nonce: string, i: int)
    requires IsNonce(nonce) && Free(outputs, nonce) && Free(stderr, nonce)
    ensures !At(Postscript(outputs, stderr, nonce), TraceMark(nonce), i)
  {
    hide IsNonce, Free, Postscript, TraceMark, At;
    if At(Postscript(outputs, stderr, nonce), TraceMark(nonce), i) {
      UnderscoreBeforeNonce(Postscript(outputs, stderr, nonce), nonce, i);
      DashBeforeNonce(outputs, stderr, nonce, i + |"SHELLKIT_CMD_"|);
    }
  }

  /** A line without the marker is output. */
  lemma PlainLine(line: string, nonce: string, ints: Ints)
    requires forall i :: !At(line, TraceMark(nonce), i)
    ensures CleanLine(line, nonce) == [line] && FireOf(line, nonce, ints) == []
  {
    hide ParseTraceLine, At, TraceMark;
    var bare := TraceMark(nonce);
    assert "" + bare + " " == bare + " ";
    var i := Index(line, bare + " ");
    if At(line, bare + " ", i) {
      MarkHasNonce(line, "", bare, " ", i);
    }
  }

  lemma {:induction false} PlainLines(lines: seq<string>, nonce: string, ints: Ints)
    requires forall k :: 0 <= k < |lines| ==> forall i :: !At(lines[k], TraceMark(nonce), i)
    ensures Clean(lines, nonce) == lines && Fires(lines, nonce, ints) == []
  {
    hide CleanLine, FireOf, At, TraceMark;
    if lines != [] {
      var front := lines[..|lines| - 1];
      PlainLines(front, nonce, ints);
      PlainLine(lines[|lines| - 1], nonce, ints);
      assert lines == front + [lines[|lines| - 1]];
    }
  }

  /** What occurs in a line of a text occurs in the text. */
  lemma {:induction false} LineOccurs(s: string, k: nat, m: string, i: int) returns (j: int)
    requires k < |Split(s)| && At(Split(s)[k], m, i)
    ensures At(s, m, j)
    decreases |s|
  {
    hide Complete, Rest;
    Cut(s);
    var n := LineEnd(s);
    if n < |s| {
      FirstLine(s[..n], s[n + 1..]);
      if k == 0 {
        assert s[i..i + |m|] == s[..n][i..i + |m|];
        return i;
      }
      j := LineOccurs(s[n + 1..], k - 1, m, i);
      assert s[n + 1..][j..j + |m|] == s[n + 1 + j..n + 1 + j + |m|];
      j := n + 1 + j;
    } else {
      LastLine(s);
      j := i;
    }
  }

  lemma {:induction false} TextIsPlain(s: string, nonce: string, ints: Ints)
    requires forall i :: !At(s, TraceMark(nonce), i)
    ensures Clean(Split(s), nonce) == Split(s) && Fires(Split(s), nonce, ints) == []
  {
    hide At, TraceMark, Split;
    forall k | 0 <= k < |Split(s)| ensures forall i :: !At(Split(s)[k], TraceMark(nonce), i) {
      forall i ensures !At(Split(s)[k], TraceMark(nonce), i) {
        if At(Split(s)[k], TraceMark(nonce), i) {
          var j := LineOccurs(s, k, TraceMark(nonce), i);
        }
      }
    }
    PlainLines(Split(s), nonce, ints);
  }

  /** A trap line is pure trace. */
  lemma TrapLine(fire: string, nonce: string, ints: Ints)
    ensures
      var line := TraceMark(nonce) + " " + fire;
      CleanLine(line, nonce) == [] && FireOf(line, nonce, ints) == ParseTraceLine(fire, ints)
  {
    var mark := TraceMark(nonce) + " ";
    var line := mark + fire;
    assert At(line, mark, 0);
    assert line[..0] == "" && line[|mark|..] == fire;
    hide ParseTraceLine;
  }

  lemma {:induction false} ReadJoin(a: seq<string>, b: seq<string>, nonce: string, ints: Ints)
    ensures Clean(a + b, nonce) == Clean(a, nonce) + Clean(b, nonce)
    ensures Fires(a + b, nonce, ints) == Fires(a, nonce, ints) + Fires(b, nonce, ints)
    decreases |b|
  {
    hide CleanLine, FireOf;
    if b == [] {
      assert a + b == a;
    } else {
      assert (a + b)[..|a + b| - 1] == a + b[..|b| - 1];
      ReadJoin(a, b[..|b| - 1], nonce, ints);
    }
  }

  lemma {:induction false} TrapLinesRead(fires: seq<string>, nonce: string, ints: Ints)
    ensures Clean(TrapLines(fires, nonce), nonce) == []
    ensures Fires(TrapLines(fires, nonce), nonce, ints) == ParseAll(fires, ints)
  {
    hide CleanLine, FireOf, ParseTraceLine, TraceMark;
    if fires != [] {
      var front, last := fires[..|fires| - 1], fires[|fires| - 1];
      TrapLinesRead(front, nonce, ints);
      TrapLine(last, nonce, ints);
      assert TrapLines(fires, nonce) == TrapLines(front, nonce) + [TraceMark(nonce) + " " + last];
      ReadMore(TrapLines(front, nonce), TraceMark(nonce) + " " + last, nonce, ints);
      hide Clean, Fires;
    }
  }

  lemma {:induction false} ParseJoin(a: seq<string>, b: seq<string>, ints: Ints)
    ensures ParseAll(a + b, ints) == ParseAll(a, ints) + ParseAll(b, ints)
    decreases |b|
  {
    hide ParseTraceLine;
    if b == [] {
      assert a + b == a;
    } else {
      assert (a + b)[..|a + b| - 1] == a + b[..|b| - 1];
      ParseJoin(a, b[..|b| - 1], ints);
    }
  }

  lemma {:induction false} WovenReads(lines: seq<string>, fires: seq<seq<string>>, nonce: string, ints: Ints)
    requires |fires| == |lines|
    requires forall k :: 0 <= k < |lines| ==> forall i :: !At(lines[k], TraceMark(nonce), i)
    ensures Clean(Woven(lines, fires, nonce), nonce) == lines
    ensures Fires(Woven(lines, fires, nonce), nonce, ints) == ParseAll(Flatten(fires), ints)
  {
    hide CleanLine, FireOf, ParseTraceLine, TraceMark, At, TrapLines;
    if lines != [] {
      var n := |lines| - 1;
      WovenReads(lines[..n], fires[..n], nonce, ints);
      OneWoven(lines[n], fires[n], nonce, ints);
      ReadJoin(Woven(lines[..n], fires[..n], nonce), TrapLines(fires[n], nonce) + [lines[n]], nonce, ints);
      ParseJoin(Flatten(fires[..n]), fires[n], ints);
      assert lines == lines[..n] + [lines[n]];
      hide Clean, Fires, ParseAll;
    }
  }

  lemma {:induction false} OneWoven(line: string, fires: seq<string>, nonce: string, ints: Ints)
    requires forall i :: !At(line, TraceMark(nonce), i)
    ensures Clean(TrapLines(fires, nonce) + [line], nonce) == [line]
    ensures Fires(TrapLines(fires, nonce) + [line], nonce, ints) == ParseAll(fires, ints)
  {
    TrapLinesRead(fires, nonce, ints);
    PlainLine(line, nonce, ints);
    ReadMore(TrapLines(fires, nonce), line, nonce, ints);
    hide CleanLine, FireOf, ParseAll, TraceMark, At, TrapLines, Clean, Fires;
  }

  lemma {:induction false} WovenLines(lines: seq<string>, fires: seq<seq<string>>, nonce: string)
    requires |fires| == |lines| && OneLine(TraceMark(nonce) + " ")
    requires forall k :: 0 <= k < |lines| ==> OneLine(lines[k])
    requires forall k, i :: 0 <= k < |fires| && 0 <= i < |fires[k]| ==> OneLine(fires[k][i])
    ensures forall k :: 0 <= k < |Woven(lines, fires, nonce)| ==> OneLine(Woven(lines, fires, nonce)[k])
    ensures lines != [] ==> Woven(lines, fires, nonce) != []
  {
    if lines != [] {
      var n := |lines| - 1;
      WovenLines(lines[..n], fires[..n], nonce);
      var traps := TrapLines(fires[n], nonce);
      forall i | 0 <= i < |traps| ensures OneLine(traps[i]) {
        var mark := TraceMark(nonce) + " ";
        assert traps[i] == mark + fires[n][i];
      }
      hide OneLine, TrapLines, TraceMark;
    }
  }

  lemma NonceIsOneLine(nonce: string)
    requires IsNonce(nonce)
    ensures OneLine(TraceMark(nonce) + " ")
  {
  }

  lemma FreeOfMark(s: string, nonce: string, i: int)
    requires Free(s, nonce)
    ensures !At(s, TraceMark(nonce), i)
  {
    if At(s, TraceMark(nonce), i) {
      assert TraceMark(nonce) == "SHELLKIT_CMD_" + nonce + "";
      MarkHasNonce(s, "SHELLKIT_CMD_", nonce, "", i);
    }
  }

  // ---- The round trip ----

  /** The lines of the wire: the woven ones, then those of the postscript. */
  lemma WireLines(stdout: string, fires: seq<seq<string>>, outputs: string, stderr: string, nonce: string)
    requires IsNonce(nonce) && |fires| == |Split(stdout)|
    requires forall k, i :: 0 <= k < |fires| && 0 <= i < |fires[k]| ==> OneLine(fires[k][i])
    ensures Split(Wire(stdout, fires, outputs, stderr, nonce))
         == Woven(Split(stdout), fires, nonce) + Split(Postscript(outputs, stderr, nonce))
  {
    JoinSplit(stdout);
    NonceIsOneLine(nonce);
    WovenLines(Split(stdout), fires, nonce);
    hide Split, Woven, Postscript, OneLine, Join, IsNonce, TraceMark;
    SplitJoined(Woven(Split(stdout), fires, nonce), Postscript(outputs, stderr, nonce));
  }

  lemma CleanedWire(stdout: string, fires: seq<seq<string>>, outputs: string, stderr: string, nonce: string, ints: Ints)
    requires IsNonce(nonce) && |fires| == |Split(stdout)|
    requires Free(stdout, nonce) && Free(outputs, nonce) && Free(stderr, nonce)
    requires forall k, i :: 0 <= k < |fires| && 0 <= i < |fires[k]| ==> OneLine(fires[k][i])
    ensures Join(Clean(Split(Wire(stdout, fires, outputs, stderr, nonce)), nonce)) == stdout + "\n" + Postscript(outputs, stderr, nonce)
    ensures Fires(Split(Wire(stdout, fires, outputs, stderr, nonce)), nonce, ints) == ParseAll(Flatten(fires), ints)
  {
    var lines, tail := Split(stdout), Postscript(outputs, stderr, nonce);
    WireLines(stdout, fires, outputs, stderr, nonce);
    forall k | 0 <= k < |lines| ensures forall i :: !At(lines[k], TraceMark(nonce), i) {
      LineIsFree(stdout, k, nonce);
    }
    WovenReads(lines, fires, nonce, ints);
    forall i ensures !At(tail, TraceMark(nonce), i) {
      PostscriptIsPlain(outputs, stderr, nonce, i);
    }
    TextIsPlain(tail, nonce, ints);
    ReadJoin(Woven(lines, fires, nonce), Split(tail), nonce, ints);
    JoinSplit(stdout);
    JoinSplit(tail);
    JoinMore(lines, Split(tail));
    hide Split, Woven, Postscript, OneLine, Join, IsNonce, TraceMark, Clean, Fires, ParseAll, Flatten, At, Free, Wire;
  }

  /** What the batch reader makes of a wrapped output: the parts of its clean text, and the commands. */
  function Received(wire: string, nonce: string, ints: Ints): (Parsed, seq<TraceLine>)
  {
    (ParseWrappedOutput(Join(Clean(Split(wire), nonce)), nonce), Fires(Split(wire), nonce, ints))
  }

  /** Texts in which the nonce does not occur, and trap fires of one line each for every line of stdout. */
  ghost predicate Wrappable(stdout: string, fires: seq<seq<string>>, outputs: string, stderr: string, nonce: string)
  {
    && IsNonce(nonce) && |fires| == |Split(stdout)|
    && Free(stdout, nonce) && Free(outputs, nonce) && Free(stderr, nonce)
    && forall k, i :: 0 <= k < |fires| && 0 <= i < |fires[k]| ==> OneLine(fires[k][i])
  }

  /**
   Extracting the trace and then parsing the rest gives back exactly what was wrapped: stdout to the
   byte, the trap fires in order, and the other two files trimmed.
   */
  lemma {:induction false} WrappedRoundTrip(stdout: string, fires: seq<seq<string>>, outputs: string, stderr: string,
      nonce: string, ints: Ints)
    requires Wrappable(stdout, fires, outputs, stderr, nonce)
    ensures Received(Wire(stdout, fires, outputs, stderr, nonce), nonce, ints)
      == (Parsed(stdout, Trim(outputs), Trim(stderr)), ParseAll(Flatten(fires), ints))
  {
    CleanedWire(stdout, fires, outputs, stderr, nonce, ints);
    ParsesPostscript(stdout, outputs, stderr, nonce);
    hide ParseWrappedOutput, Trim, Split, Wire, Clean, Fires, Join, Postscript, ParseAll, Flatten, IsNonce, Free;
  }

  // ---- The live reader on the same bytes ----

  lemma MarkIsOneLine(nonce: string)
    requires IsNonce(nonce)
    ensures OneLine(OutputMark(nonce))
  {
  }

  /** Neither a trap line nor a line of output is the output marker. */
  lemma {:induction false} WovenNeverStops(lines: seq<string>, fires: seq<seq<string>>, nonce: string)
    requires |fires| == |lines| && IsNonce(nonce)
    requires forall k :: 0 <= k < |lines| ==> lines[k] != OutputMark(nonce)
    ensures !Stopped(Woven(lines, fires, nonce), nonce)
  {
    if lines != [] {
      var n := |lines| - 1;
      WovenNeverStops(lines[..n], fires[..n], nonce);
      var before, traps := Woven(lines[..n], fires[..n], nonce), TrapLines(fires[n], nonce);
      forall i | 0 <= i < |traps| ensures !Stops(traps[i], nonce) {
        TrapIsNoMark(fires[n][i], nonce);
      }
      var all := before + (traps + [lines[n]]);
      forall i | 0 <= i < |all| ensures !Stops(all[i], nonce) {
        if i < |before| {
          assert all[i] == before[i];
        }
      }
    }
  }

  lemma TrapIsNoMark(fire: string, nonce: string)
    ensures TraceMark(nonce) + " " + fire != OutputMark(nonce)
  {
    var trap, mark := "SHELLKIT_CMD_", "---SHELLKIT-OUTPUTS-";
    assert trap[0] == 'S' && mark[0] == '-';
    assert TraceMark(nonce) + " " + fire == trap + (nonce + " " + fire);
    assert OutputMark(nonce) == mark + (nonce + "---");
    assert (trap + (nonce + " " + fire))[0] == trap[0] && (mark + (nonce + "---"))[0] == mark[0];
  }

  lemma FreeIsNoMark(line: string, nonce: string)
    requires IsNonce(nonce) && forall i :: !At(line, nonce, i)
    ensures line != OutputMark(nonce)
  {
    var prefix := "---SHELLKIT-OUTPUTS-";
    assert OutputMark(nonce) == prefix + nonce + "---" && OutputMark(nonce)[|prefix|..|prefix| + |nonce|] == nonce;
    assert At(OutputMark(nonce), nonce, |prefix|);
  }

  /** Where the live reader stops: at the marker, behind the woven lines. */
  lemma WireFlushed(stdout: string, fires: seq<seq<string>>, outputs: string, stderr: string, nonce: string)
    requires IsNonce(nonce) && |fires| == |Split(stdout)|
    requires forall k, i :: 0 <= k < |fires| && 0 <= i < |fires[k]| ==> OneLine(fires[k][i])
    ensures
      var lines := Flushed(Wire(stdout, fires, outputs, stderr, nonce));
      var woven := Woven(Split(stdout), fires, nonce);
      |woven| < |lines| && lines[..|woven|] == woven && lines[|woven|] == OutputMark(nonce)
  {
    WireLines(stdout, fires, outputs, stderr, nonce);
    MarkIsOneLine(nonce);
    var later := outputs + (StderrMark(nonce) + "\n" + stderr);
    assert Postscript(outputs, stderr, nonce) == OutputMark(nonce) + [NL] + later;
    FirstLine(OutputMark(nonce), later);
    hide Complete, Rest, Woven, Wire, OutputMark, StderrMark, Postscript, OneLine;
    var s, woven := Wire(stdout, fires, outputs, stderr, nonce), Woven(Split(stdout), fires, nonce);
    assert Split(s) == woven + ([OutputMark(nonce)] + Split(later));
    assert forall i :: 0 <= i < |Flushed(s)| ==> Flushed(s)[i] == Split(s)[i];
    assert |Split(later)| >= 1 && |Flushed(s)| >= |Split(s)| - 1;
  }

  /** The live reader shows exactly the script's own lines and its commands, and nothing of the postscript. */
  lemma {:induction false} LiveReadsTheWire(stdout: string, fires: seq<seq<string>>, outputs: string, stderr: string,
      nonce: string, ints: Ints)
    requires IsNonce(nonce) && |fires| == |Split(stdout)| && Free(stdout, nonce)
    requires forall k, i :: 0 <= k < |fires| && 0 <= i < |fires[k]| ==> OneLine(fires[k][i])
    ensures
      var events := Events(Flushed(Wire(stdout, fires, outputs, stderr, nonce)), nonce, ints);
      Printed(events) == Split(stdout) && Executed(events) == CarriedAll(ParseAll(Flatten(fires), ints))
  {
    var lines := Split(stdout);
    forall k | 0 <= k < |lines| ensures lines[k] != OutputMark(nonce) && forall i :: !At(lines[k], TraceMark(nonce), i) {
      LineIsFree(stdout, k, nonce);
    }
    WovenReads(lines, fires, nonce, ints);
    WovenNeverStops(lines, fires, nonce);
    WireFlushed(stdout, fires, outputs, stderr, nonce);
    var woven := Woven(lines, fires, nonce);
    NothingPastTheMarker(Flushed(Wire(stdout, fires, outputs, stderr, nonce)), |woven|, nonce, ints);
    LiveIsBatch(woven, nonce, ints);
    hide Split, Woven, Wire, Events, Printed, Executed, CarriedAll, ParseAll, Flatten, Clean, Fires, Flushed, At;
  }

  lemma LineIsFree(s: string, k: nat, nonce: string)
    requires IsNonce(nonce) && Free(s, nonce) && k < |Split(s)|
    ensures Split(s)[k] != OutputMark(nonce)
    ensures forall i :: !At(Split(s)[k], TraceMark(nonce), i)
  {
    hide Split, At, TraceMark, OutputMark, IsNonce;
    forall i ensures !At(Split(s)[k], nonce, i) {
      if At(Split(s)[k], nonce, i) {
        var j := LineOccurs(s, k, nonce, i);
      }
    }
    FreeIsNoMark(Split(s)[k], nonce);
    forall i ensures !At(Split(s)[k], TraceMark(nonce), i) {
      FreeOfMark(Split(s)[k], nonce, i);
    }
  }

  /** The two calls as the caller makes them: whatever was wrapped comes back. */
  method ReadBack(raw: string, nonce: string, ints: Ints) returns (parsed: Parsed, trace: seq<TraceLine>)
    ensures forall stdout, fires, outputs, stderr {:trigger Wire(stdout, fires, outputs, stderr, nonce)} ::
      Wrappable(stdout, fires, outputs, stderr, nonce) && raw == Wire(stdout, fires, outputs, stderr, nonce) ==>
        parsed == Parsed(stdout, Trim(outputs), Trim(stderr)) && trace == ParseAll(Flatten(fires), ints)
  {
    hide Wire, ParseWrappedOutput, Trim, ParseAll, Flatten, Clean, Fires, Join, Split, IsNonce, Free, OneLine;
    var clean: string;
    clean, trace := ExtractTrace(raw, nonce, ints);
    parsed := ParseWrappedOutput(clean, nonce);
    forall stdout, fires, outputs, stderr {:trigger Wire(stdout, fires, outputs, stderr, nonce)} |
        Wrappable(stdout, fires, outputs, stderr, nonce) && raw == Wire(stdout, fires, outputs, stderr, nonce)
      ensures parsed == Parsed(stdout, Trim(outputs), Trim(stderr)) && trace == ParseAll(Flatten(fires), ints)
    {
      WrappedRoundTrip(stdout, fires, outputs, stderr, nonce, ints);
    }
  }

  // ---- The commands that the trap printed ----

  /** What the trap prints of a command: two numbers without blanks, and its text. */
  ghost predicate Prints(fire: string, t: TraceLine, ints: Ints)
  {
    exists seconds, line :: PrintsAs(fire, t, ints, seconds, line)
  }

  ghost predicate PrintsAs(fire: string, t: TraceLine, ints: Ints, seconds: string, line: string)
  {
    && OneWord(seconds) && OneWord(line) && ints.ok(line) && ints.value(seconds) == t.elapsed && ints.value(line) == t.lineNo
    && fire == seconds + " " + (line + " " + t.command)
  }

  /** Printed and parsed, the commands are the same. */
  lemma {:induction false} PrintedComeBack(fires: seq<string>, commands: seq<TraceLine>, ints: Ints)
    requires |fires| == |commands| && forall i :: 0 <= i < |fires| ==> Prints(fires[i], commands[i], ints)
    ensures ParseAll(fires, ints) == commands
  {
    if fires != [] {
      var n := |fires| - 1;
      PrintedComeBack(fires[..n], commands[..n], ints);
      var seconds, line :| PrintsAs(fires[n], commands[n], ints, seconds, line);
      TrapLineRoundTrip(seconds, line, commands[n].command, ints);
      hide ParseTraceLine;
      assert commands == commands[..n] + [commands[n]];
    }
  }

  /** So the whole of a traced run comes back: its output, its commands in order, and its two files. */
  lemma {:induction false} TracedRunComesBack(stdout: string, fires: seq<seq<string>>, commands: seq<TraceLine>,
      outputs: string, stderr: string, nonce: string, ints: Ints)
    requires Wrappable(stdout, fires, outputs, stderr, nonce)
    requires |Flatten(fires)| == |commands|
    requires forall i :: 0 <= i < |commands| ==> Prints(Flatten(fires)[i], commands[i], ints)
    ensures Received(Wire(stdout, fires, outputs, stderr, nonce), nonce, ints)
      == (Parsed(stdout, Trim(outputs), Trim(stderr)), commands)
  {
    hide Received, Trim, Flatten, Prints, Wrappable, Wire, ParseAll;
    assert |fires| == |Split(stdout)| by { WrappableFires(stdout, fires, outputs, stderr, nonce); }
    WrappedRoundTrip(stdout, fires, outputs, stderr, nonce, ints);
    PrintedComeBack(Flatten(fires), commands, ints);
  }

  lemma WrappableFires(stdout: string, fires: seq<seq<string>>, outputs: string, stderr: string, nonce: string)
    requires Wrappable(stdout, fires, outputs, stderr, nonce)
    ensures |fires| == |Split(stdout)|
  {
  }
}
