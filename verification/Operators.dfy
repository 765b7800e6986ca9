/** Splitting a source line on the shell's pipeline and list operators. */
module Operators {

  datatype Operand = Operand(op: string, cmd: string)

  // ---- White space ----

  predicate Space(c: char)
  {
    || '\t' <= c <= '\r' || c == ' ' || c == '\U{85}' || c == '\U{A0}' || c == '\U{1680}'
    || '\U{2000}' <= c <= '\U{200A}' || c == '\U{2028}' || c == '\U{2029}' || c == '\U{202F}' || c == '\U{205F}'
    || c == '\U{3000}'
  }

  function TrimLeft(s: string): string
  {
    if s != [] && Space(s[0]) then TrimLeft(s[1..]) else s
  }

  function TrimRight(s: string): string
  {
    if s != [] && Space(s[|s| - 1]) then TrimRight(s[..|s| - 1]) else s
  }

  function Trim(s: string): string
  {
    TrimRight(TrimLeft(s))
  }

  /** The text without its white space. */
  function Squeeze(s: string): string
  {
    if s == [] then [] else (if Space(s[0]) then [] else [s[0]]) + Squeeze(s[1..])
  }

  // ---- Tokens ----

  /** Open quotes and groups. */
  datatype Lex = Lex(single: bool, double: bool, paren: nat, brace: nat, bracket: nat)

  const TOP: Lex := Lex(false, false, 0, 0, 0)

  datatype Token = Text(width: nat, after: Lex) | Operator(width: nat)

  predicate Two(rest: string, c: char, d: char)
  {
    |rest| > 1 && rest[0] == c && rest[1] == d
  }

  /** Groups open and close outside single quotes; a double-quoted string can still hold a substitution. */
  function Group(s: Lex, rest: string): Token
    requires rest != []
  {
    var c := rest[0];
    if Two(rest, '$', '(') then Text(2, s.(paren := s.paren + 1))
    else if Two(rest, '$', '{') then Text(2, s.(brace := s.brace + 1))
    else if c == '(' && !s.double then Text(1, s.(paren := s.paren + 1))
    else if c == ')' && s.paren > 0 then Text(1, s.(paren := s.paren - 1))
    else if c == '}' && s.brace > 0 then Text(1, s.(brace := s.brace - 1))
    else if Two(rest, '[', '[') && !s.double then Text(2, s.(bracket := s.bracket + 1))
    else if Two(rest, ']', ']') && s.bracket > 0 then Text(2, s.(bracket := s.bracket - 1))
    else if s.double || s.paren > 0 || s.brace > 0 || s.bracket > 0 then Text(1, s)
    else if Two(rest, '&', '&') || Two(rest, '|', '|') || Two(rest, '|', '&') then Operator(2)
    else if c == '|' || c == ';' then Operator(1)
    else Text(1, s)
  }

  function Next(s: Lex, rest: string): (t: Token)
    requires rest != []
    ensures 1 <= t.width <= 2 && t.width <= |rest|
    ensures t.Operator? ==> s == TOP
  {
    var c := rest[0];
    if !s.double && c == '\'' then Text(1, s.(single := !s.single))
    else if !s.single && c == '"' then Text(1, s.(double := !s.double))
    else if s.single then Text(1, s)
    else if !s.double && c == '\\' && |rest| > 1 then Text(2, s)
    else Group(s, rest)
  }

  // ---- The operands ----

  datatype Piece = Chunk(text: string) | Op(text: string)

  /** The tokens of the text. */
  function Pieces(s: Lex, rest: string): seq<Piece>
    decreases |rest|
  {
    if rest == [] then []
    else
      var t := Next(s, rest);
      if t.Text? then [Chunk(rest[..t.width])] + Pieces(t.after, rest[t.width..])
      else [Op(rest[..t.width])] + Pieces(s, rest[t.width..])
  }

  /** An operand before it is trimmed. */
  datatype Raw = Raw(op: string, text: string)

  /** The untrimmed operands, when `op` precedes the text that starts with `buf`. */
  function Assemble(op: string, buf: string, pieces: seq<Piece>): seq<Raw>
    decreases |pieces|
  {
    if pieces == [] then [Raw(op, buf)]
    else if pieces[0].Chunk? then Assemble(op, buf + pieces[0].text, pieces[1..])
    else [Raw(op, buf)] + Assemble(pieces[0].text, "", pieces[1..])
  }

  /** A blank text before the first operator is no operand. */
  function Named(raw: Raw): seq<Operand>
  {
    if Trim(raw.text) == "" && raw.op == "" then [] else [Operand(raw.op, Trim(raw.text))]
  }

  function Emitted(raws: seq<Raw>): seq<Operand>
  {
    if raws == [] then [] else Emitted(raws[..|raws| - 1]) + Named(raws[|raws| - 1])
  }

  function Raws(line: string): seq<Raw>
  {
    Assemble("", "", Pieces(TOP, line))
  }

  function Operands(line: string): seq<Operand>
  {
    Emitted(Raws(line))
  }

  lemma {:induction false} TrimBlankFront(blank: string, s: string)
    requires Trim(blank) == ""
    ensures Trim(blank + s) == Trim(s)
    decreases |blank|
  {
    if blank == [] {
      assert blank + s == s;
    } else {
      BlankIsSpace(blank);
      assert (blank + s)[1..] == blank[1..] + s;
      TrimBlankFront(blank[1..], s);
    }
  }

  lemma {:induction false} TrimRightKeepsFirst(s: string)
    requires s != [] && !Space(s[0])
    ensures TrimRight(s) != []
  {
    if Space(s[|s| - 1]) {
      TrimRightKeepsFirst(s[..|s| - 1]);
    }
  }

  lemma BlankIsSpace(blank: string)
    requires blank != [] && Trim(blank) == ""
    ensures Space(blank[0]) && Trim(blank[1..]) == ""
  {
    if !Space(blank[0]) {
      TrimRightKeepsFirst(blank);
    }
  }

  lemma {:induction false} FirstPiece(s: Lex, line: string, i: nat)
    requires i < |line|
    ensures
      var t := Next(s, line[i..]);
      var text := line[i..i + t.width];
      && Pieces(s, line[i..]) != []
      && Pieces(s, line[i..])[0] == (if t.Text? then Chunk(text) else Op(text))
      && Pieces(s, line[i..])[1..] == Pieces(if t.Text? then t.after else s, line[i + t.width..])
  {
    var w := Next(s, line[i..]).width;
    assert line[i..][w..] == line[i + w..] && line[i..][..w] == line[i..i + w];
  }

  ghost predicate Blank(s: string)
  {
    Trim(s) == ""
  }

  lemma {:induction false} EmittedAppend(raws: seq<Raw>, raw: Raw)
    ensures Emitted(raws + [raw]) == Emitted(raws) + Named(raw)
  {
    assert (raws + [raw])[..|raws|] == raws;
  }

  /** The loop has made the raw operands `raws`, and with `text` behind `op` and the pieces ahead all are still to come. */
  ghost predicate Ahead(line: string, raws: seq<Raw>, op: string, text: string, s: Lex, i: nat)
    requires i <= |line|
  {
    raws + Assemble(op, text, Pieces(s, line[i..])) == Raws(line)
  }

  lemma {:induction false} AheadText(line: string, raws: seq<Raw>, op: string, text: string, s: Lex, i: nat)
    requires i < |line| && Ahead(line, raws, op, text, s, i) && Next(s, line[i..]).Text?
    ensures
      var t := Next(s, line[i..]);
      Ahead(line, raws, op, text + line[i..i + t.width], t.after, i + t.width)
  {
    FirstPiece(s, line, i);
  }

  lemma {:induction false} AheadOperator(line: string, raws: seq<Raw>, op: string, text: string, s: Lex, i: nat)
    requires i < |line| && Ahead(line, raws, op, text, s, i) && Next(s, line[i..]).Operator?
    ensures
      var w := Next(s, line[i..]).width;
      Ahead(line, raws + [Raw(op, text)], line[i..i + w], "", s, i + w)
  {
    FirstPiece(s, line, i);
    var w := Next(s, line[i..]).width;
    var rest := Assemble(line[i..i + w], "", Pieces(s, line[i + w..]));
    assert raws + ([Raw(op, text)] + rest) == (raws + [Raw(op, text)]) + rest;
  }

  lemma AheadStart(line: string)
    ensures Ahead(line, [], "", "", TOP, 0) && Emitted([]) == [] && Blank("")
  {
    assert line[0..] == line;
  }

  lemma AheadEnd(line: string, raws: seq<Raw>, op: string, text: string, s: Lex)
    requires Ahead(line, raws, op, text, s, |line|)
    ensures Operands(line) == Emitted(raws + [Raw(op, text)])
  {
  }

  /** Records an operand. A blank first one is not recorded and stays in the buffer, at the front of the next. */
  method Emit(operands: seq<Operand>, prevOp: string, buf: string, ghost raws: seq<Raw>, ghost left: string, ghost text: string)
    returns (longer: seq<Operand>, rest: string)
    requires buf == left + text && Blank(left)
    requires operands == Emitted(raws) && (operands != [] ==> prevOp != "")
    ensures longer == Emitted(raws + [Raw(prevOp, text)])
    ensures Blank(rest)
  {
    TrimBlankFront(left, text);
    EmittedAppend(raws, Raw(prevOp, text));
    var s := Trim(buf);
    if s == "" && prevOp == "" && |operands| == 0 {
      return operands, buf;
    }
    return operands + [Operand(prevOp, s)], "";
  }

  method SplitOperators(line: string) returns (operands: seq<Operand>)
    ensures operands == Operands(line)
  {
    hide Next, Ahead, Emitted, Blank;
    operands := [];
    var buf := "";
    var prevOp := "";
    var i := 0;
    var lex := TOP;
    ghost var raws: seq<Raw>, left, text := [], "", "";
    AheadStart(line);
    while i < |line|
      invariant i <= |line|
      invariant operands != [] ==> prevOp != ""
      invariant buf == left + text && Blank(left)
      invariant operands == Emitted(raws)
      invariant Ahead(line, raws, prevOp, text, lex, i)
    {
      var t := Next(lex, line[i..]);
      if t.Operator? {
        AheadOperator(line, raws, prevOp, text, lex, i);
        operands, buf := Emit(operands, prevOp, buf, raws, left, text);
        raws, left, text := raws + [Raw(prevOp, text)], buf, "";
        prevOp := line[i..i + t.width];
      } else {
        AheadText(line, raws, prevOp, text, lex, i);
        buf := buf + line[i..i + t.width];
        text := text + line[i..i + t.width];
        lex := t.after;
      }
      i := i + t.width;
    }
    AheadEnd(line, raws, prevOp, text, lex);
    operands, buf := Emit(operands, prevOp, buf, raws, left, text);
  }

  // ---- Where it splits ----

  /** The length of the text before the first operator. */
  function Segment(s: Lex, rest: string): (n: nat)
    ensures n <= |rest|
    ensures n < |rest| ==> Next(TOP, rest[n..]).Operator?
    decreases |rest|
  {
    if rest == [] then 0
    else
      match Next(s, rest)
      case Operator(_) => assert rest[0..] == rest; 0
      case Text(w, after) =>
        var n := Segment(after, rest[w..]);
        assert rest[w..][n..] == rest[w + n..];
        w + n
  }

  /** Reading tokens of plain text from `s` at the start of `line` gets to position `i` in state `at`. */
  ghost predicate Reaches(s: Lex, line: string, i: nat, at: Lex)
    decreases |line|
  {
    if i == 0 then at == s
    else
      && line != [] && Next(s, line).Text? && Next(s, line).width <= i
      && Reaches(Next(s, line).after, line[Next(s, line).width..], i - Next(s, line).width, at)
  }

  /** The first operand ends at an operator outside every quote and group, or at the end of the line. */
  lemma {:induction false} SplitsAtOpenOperator(s: Lex, line: string) returns (at: Lex)
    ensures Reaches(s, line, Segment(s, line), at)
    ensures Segment(s, line) < |line| ==> at == TOP && Next(TOP, line[Segment(s, line)..]).Operator?
    decreases |line|
  {
    hide Next;
    at := s;
    if line != [] && Next(s, line).Text? {
      at := SplitsAtOpenOperator(Next(s, line).after, line[Next(s, line).width..]);
    }
  }

  /** No token before that is an operator. */
  lemma {:induction false} NoneEarlier(s: Lex, line: string, i: nat, at: Lex)
    requires i < Segment(s, line) && Reaches(s, line, i, at)
    ensures Next(at, line[i..]).Text?
    decreases |line|
  {
    hide Next;
    if i == 0 {
      assert line[0..] == line;
    } else {
      var w, after := Next(s, line).width, Next(s, line).after;
      NoneEarlier(after, line[w..], i - w, at);
      assert line[w..][i - w..] == line[i..];
    }
  }

  /** The text of the first operand, and the operator and the text after it. */
  lemma {:induction false} AssembleBySegment(op: string, buf: string, s: Lex, rest: string)
    ensures
      var n := Segment(s, rest);
      Assemble(op, buf, Pieces(s, rest)) == [Raw(op, buf + rest[..n])] + Tail(rest[n..])
    decreases |rest|
  {
    hide Next;
    if rest == [] {
      assert buf + rest[..0] == buf;
    } else if Next(s, rest).Operator? {
      assert buf + rest[..0] == buf && rest[0..] == rest;
    } else {
      var w, after := Next(s, rest).width, Next(s, rest).after;
      var n := Segment(after, rest[w..]);
      TextStep(op, buf, s, rest);
      AssembleBySegment(op, buf + rest[..w], after, rest[w..]);
      TakeLonger(buf, rest, w, n);
      hide Segment, Assemble, Pieces;
    }
  }

  lemma TextStep(op: string, buf: string, s: Lex, rest: string)
    requires rest != [] && Next(s, rest).Text?
    ensures
      var w, after := Next(s, rest).width, Next(s, rest).after;
      && Segment(s, rest) == w + Segment(after, rest[w..])
      && Assemble(op, buf, Pieces(s, rest)) == Assemble(op, buf + rest[..w], Pieces(after, rest[w..]))
  {
    hide Next;
  }

  lemma TakeLonger(buf: string, rest: string, w: nat, n: nat)
    requires w + n <= |rest|
    ensures buf + rest[..w + n] == buf + rest[..w] + rest[w..][..n] && rest[w..][n..] == rest[w + n..]
  {
  }

  /** The operands from an operator on. */
  function Tail(text: string): seq<Raw>
    requires text != [] ==> Next(TOP, text).Operator?
  {
    if text == [] then []
    else
      var w := Next(TOP, text).width;
      Assemble(text[..w], "", Pieces(TOP, text[w..]))
  }

  /** Operator `op` stands in the line right before position `i`, outside every quote and group. */
  predicate Behind(op: string, line: string, i: nat)
    requires i <= |line|
  {
    |op| <= i && line[i - |op|..i] == op && op != "" && Next(TOP, line[i - |op|..]) == Operator(|op|)
  }

  /** The raw operands of the line from position `from` on. */
  function RawsFrom(op: string, line: string, from: nat): seq<Raw>
    requires from <= |line|
  {
    Assemble(op, "", Pieces(TOP, line[from..]))
  }

  lemma FirstRaw(op: string, line: string, from: nat)
    requires from <= |line|
    ensures
      var p := from + Segment(TOP, line[from..]);
      && (p < |line| ==> Next(TOP, line[p..]).Operator?)
      && RawsFrom(op, line, from) == [Raw(op, line[from..p])] +
           if p == |line| then [] else var w := Next(TOP, line[p..]).width; RawsFrom(line[p..p + w], line, p + w)
  {
    hide Next, Assemble, Pieces, Segment;
    var text := line[from..];
    var n := Segment(TOP, text);
    AssembleBySegment(op, "", TOP, text);
    Slices(line, from, n, if n < |text| then Next(TOP, text[n..]).width else 0);
    assert "" + text[..n] == text[..n];
  }

  lemma Slices(line: string, from: nat, n: nat, w: nat)
    requires from + n + w <= |line|
    ensures line[from..][..n] == line[from..from + n] && line[from..][n..] == line[from + n..]
    ensures line[from + n..][..w] == line[from + n..from + n + w] && line[from + n..][w..] == line[from + n + w..]
  {
  }

  /** Where the `k`-th of them stands. */
  lemma {:induction false} RawAt(op: string, line: string, from: nat, k: nat) returns (i: nat)
    requires from <= |line| && k < |RawsFrom(op, line, from)|
    ensures from <= i <= |line|
    ensures RawsFrom(op, line, from)[k].text == line[i..i + Segment(TOP, line[i..])]
    ensures k == 0 ==> i == from && RawsFrom(op, line, from)[k].op == op
    ensures k > 0 ==> Behind(RawsFrom(op, line, from)[k].op, line, i)
    ensures |RawsFrom(op, line, from)| == k + 1 <==> i + Segment(TOP, line[i..]) == |line|
    decreases k
  {
    hide Next, RawsFrom, Segment;
    FirstRaw(op, line, from);
    var p := from + Segment(TOP, line[from..]);
    if k == 0 {
      i := from;
      if p < |line| {
        FirstRaw(line[p..p + Next(TOP, line[p..]).width], line, p + Next(TOP, line[p..]).width);
      }
    } else {
      var w := Next(TOP, line[p..]).width;
      i := RawAt(line[p..p + w], line, p + w, k - 1);
    }
  }

  /** Only the first of the raw operands can be dropped. */
  lemma {:induction false} EmittedShift(raws: seq<Raw>)
    requires raws != [] && forall m :: 0 < m < |raws| ==> raws[m].op != ""
    ensures
      var d := if Named(raws[0]) == [] then 1 else 0;
      && |Emitted(raws)| == |raws| - d
      && forall k :: 0 <= k < |Emitted(raws)| ==> Emitted(raws)[k] == Operand(raws[k + d].op, Trim(raws[k + d].text))
  {
    hide Trim, Emitted;
    var front, last := raws[..|raws| - 1], raws[|raws| - 1];
    EmittedAppend(front, last);
    assert front + [last] == raws;
    if front != [] {
      EmittedShift(front);
    } else {
      EmittedNone();
    }
  }

  lemma EmittedNone()
    ensures Emitted([]) == []
  {
  }

  lemma WholeLine(line: string)
    ensures RawsFrom("", line, 0) == Raws(line)
  {
    assert line[0..] == line;
  }

  /** The operands are the raw ones, but for a blank first one, and only the first has no operator. */
  lemma OperandsAreRaws(line: string) returns (d: nat)
    ensures
      var raws := Raws(line);
      && raws != [] && raws[0].op == "" && |Operands(line)| + d == |raws|
      && forall k :: 0 <= k < |Operands(line)| ==> Operands(line)[k] == Operand(raws[k + d].op, Trim(raws[k + d].text))
  {
    hide Next, RawsFrom, Trim, Segment, Raws;
    var raws := Raws(line);
    WholeLine(line);
    FirstRaw("", line, 0);
    forall m | 0 < m < |raws| ensures raws[m].op != "" {
      var j := RawAt("", line, 0, m);
    }
    EmittedShift(raws);
    d := if Named(raws[0]) == [] then 1 else 0;
  }

  /**
   Every operand: where it stands in the line, right behind its operator unless it is the first, and that it ends
   at the next operator outside every quote and group, or at the end of the line if it is the last.
   */
  lemma {:induction false} OperandAt(line: string, k: nat) returns (i: nat, at: Lex)
    requires k < |Operands(line)|
    ensures i <= |line|
    ensures
      var o, n := Operands(line)[k], Segment(TOP, line[i..]);
      && o.cmd == Trim(line[i..i + n])
      && (if o.op == "" then i == 0 else Behind(o.op, line, i))
      && Reaches(TOP, line[i..], n, at)
      && (k + 1 < |Operands(line)| <==> i + n < |line|)
      && (i + n < |line| ==> at == TOP && Next(TOP, line[i + n..]).Operator?)
  {
    hide Next, RawsFrom, Trim, Segment, Reaches, Emitted, Named, Raws;
    var d := OperandsAreRaws(line);
    WholeLine(line);
    i := RawAt("", line, 0, k + d);
    at := SplitsAtOpenOperator(TOP, line[i..]);
    Slices(line, i, Segment(TOP, line[i..]), 0);
  }

  // ---- Nothing is lost ----

  function Rejoin(operands: seq<Operand>): string
  {
    if operands == [] then [] else operands[0].op + operands[0].cmd + Rejoin(operands[1..])
  }

  lemma {:induction false} SqueezeJoin(a: string, b: string)
    ensures Squeeze(a + b) == Squeeze(a) + Squeeze(b)
    decreases |a|
  {
    if a == [] {
      assert a + b == b;
    } else {
      assert (a + b)[1..] == a[1..] + b;
      SqueezeJoin(a[1..], b);
    }
  }

  lemma {:induction false} SqueezeTrimLeft(s: string)
    ensures Squeeze(TrimLeft(s)) == Squeeze(s)
  {
    if s != [] && Space(s[0]) {
      SqueezeTrimLeft(s[1..]);
    }
  }

  lemma {:induction false} SqueezeTrimRight(s: string)
    ensures Squeeze(TrimRight(s)) == Squeeze(s)
  {
    if s != [] && Space(s[|s| - 1]) {
      SqueezeTrimRight(s[..|s| - 1]);
      SqueezeJoin(s[..|s| - 1], [s[|s| - 1]]);
      assert s == s[..|s| - 1] + [s[|s| - 1]];
      assert [s[|s| - 1]][1..] == [];
    }
  }

  lemma {:induction false} SqueezeNamed(raw: Raw)
    ensures Squeeze(Rejoin(Named(raw))) == Squeeze(raw.op + raw.text)
  {
    var text := raw.text;
    SqueezeTrimLeft(text);
    SqueezeTrimRight(TrimLeft(text));
    SqueezeJoin(raw.op, text);
    SqueezeJoin(raw.op, Trim(text));
    if Named(raw) != [] {
      assert Rejoin(Named(raw)) == raw.op + Trim(text);
    }
  }

  lemma {:induction false} RejoinAppend(a: seq<Operand>, b: seq<Operand>)
    ensures Rejoin(a + b) == Rejoin(a) + Rejoin(b)
    decreases |a|
  {
    if a == [] {
      assert a + b == b;
    } else {
      assert (a + b)[1..] == a[1..] + b;
      RejoinAppend(a[1..], b);
    }
  }

  function Concat(pieces: seq<Piece>): string
  {
    if pieces == [] then [] else pieces[0].text + Concat(pieces[1..])
  }

  lemma {:induction false} PiecesAreTheText(s: Lex, rest: string)
    ensures Concat(Pieces(s, rest)) == rest
    decreases |rest|
  {
    if rest != [] {
      var t := Next(s, rest);
      PiecesAreTheText(if t.Text? then t.after else s, rest[t.width..]);
      assert rest == rest[..t.width] + rest[t.width..];
    }
  }

  function JoinRaws(raws: seq<Raw>): string
  {
    if raws == [] then [] else JoinRaws(raws[..|raws| - 1]) + (raws[|raws| - 1].op + raws[|raws| - 1].text)
  }

  lemma {:induction false} JoinRawsFirst(raw: Raw, raws: seq<Raw>)
    ensures JoinRaws([raw] + raws) == raw.op + raw.text + JoinRaws(raws)
    decreases |raws|
  {
    if raws == [] {
      assert ([raw] + raws)[..0] == [];
    } else {
      assert ([raw] + raws)[..|raws|] == [raw] + raws[..|raws| - 1];
      JoinRawsFirst(raw, raws[..|raws| - 1]);
    }
  }

  /** Before trimming, operators and texts joined are the line itself. */
  lemma {:induction false} AssembleConserves(op: string, buf: string, pieces: seq<Piece>)
    ensures JoinRaws(Assemble(op, buf, pieces)) == op + buf + Concat(pieces)
    decreases |pieces|
  {
    if pieces == [] {
      assert [Raw(op, buf)][..0] == [];
    } else if pieces[0].Chunk? {
      AssembleConserves(op, buf + pieces[0].text, pieces[1..]);
      assert op + (buf + pieces[0].text) == op + buf + pieces[0].text;
    } else {
      var tail := Assemble(pieces[0].text, "", pieces[1..]);
      AssembleConserves(pieces[0].text, "", pieces[1..]);
      JoinRawsFirst(Raw(op, buf), tail);
      assert Assemble(op, buf, pieces) == [Raw(op, buf)] + tail && pieces[0].text + "" == pieces[0].text;
    }
  }

  lemma {:induction false} EmittedConserves(raws: seq<Raw>)
    ensures Squeeze(Rejoin(Emitted(raws))) == Squeeze(JoinRaws(raws))
  {
    if raws != [] {
      var front, last := raws[..|raws| - 1], raws[|raws| - 1];
      EmittedConserves(front);
      RejoinAppend(Emitted(front), Named(last));
      SqueezeJoin(Rejoin(Emitted(front)), Rejoin(Named(last)));
      SqueezeJoin(JoinRaws(front), last.op + last.text);
      SqueezeNamed(last);
    }
  }

  /** Operators and commands joined give the line back, up to white space. */
  lemma {:induction false} Conserved(line: string)
    ensures Squeeze(Rejoin(Operands(line))) == Squeeze(line)
  {
    AssembleConserves("", "", Pieces(TOP, line));
    PiecesAreTheText(TOP, line);
    assert "" + "" + line == line;
    EmittedConserves(Raws(line));
  }

  // ---- Operands are single ----

  /** No operator splits the text. */
  ghost predicate Single(s: Lex, text: string)
  {
    Segment(s, text) == |text|
  }

  /** Reading stops early only before an operator, which changes no token before it. */
  lemma NextOfPrefix(s: Lex, rest: string, n: nat)
    requires rest != [] && Next(s, rest).Text? && Next(s, rest).width <= n <= |rest|
    ensures Next(s, rest[..n]) == Next(s, rest)
  {
  }

  lemma {:induction false} SegmentIsSingle(s: Lex, rest: string)
    ensures Single(s, rest[..Segment(s, rest)])
    decreases |rest|
  {
    var n := Segment(s, rest);
    if n > 0 {
      var w, after := Next(s, rest).width, Next(s, rest).after;
      NextOfPrefix(s, rest, n);
      SegmentIsSingle(after, rest[w..]);
      assert rest[..n][w..] == rest[w..][..n - w];
    }
  }

  lemma {:induction false} TrimLeftSingle(text: string)
    requires Single(TOP, text)
    ensures Single(TOP, TrimLeft(text))
  {
    if text != [] && Space(text[0]) {
      assert Next(TOP, text) == Text(1, TOP);
      TrimLeftSingle(text[1..]);
    }
  }

  lemma NextBeforeSpace(s: Lex, text: string)
    requires |text| > 1 && Space(text[|text| - 1]) && Next(s, text).Text?
    ensures
      var shorter := text[..|text| - 1];
      Next(s, shorter) == Next(s, text) || (|text| == 2 && Next(s, shorter).Text? && Next(s, shorter).width == 1)
  {
  }

  lemma {:induction false} DropSpaceSingle(s: Lex, text: string)
    requires text != [] && Space(text[|text| - 1]) && Single(s, text)
    ensures Single(s, text[..|text| - 1])
    decreases |text|
  {
    var shorter := text[..|text| - 1];
    if shorter != [] {
      NextBeforeSpace(s, text);
      if Next(s, shorter) == Next(s, text) {
        var w, after := Next(s, text).width, Next(s, text).after;
        assert shorter[w..] == text[w..][..|text| - w - 1];
        DropSpaceSingle(after, text[w..]);
      } else {
        assert shorter[1..] == [];
      }
    }
  }

  lemma {:induction false} TrimRightSingle(text: string)
    requires Single(TOP, text)
    ensures Single(TOP, TrimRight(text))
  {
    if text != [] && Space(text[|text| - 1]) {
      DropSpaceSingle(TOP, text);
      TrimRightSingle(text[..|text| - 1]);
    }
  }

  lemma {:induction false} TrimTwice(s: string)
    ensures Trim(Trim(s)) == Trim(s)
  {
    TrimLeftOnce(s);
    TrimRightOnce(TrimLeft(s));
  }

  lemma {:induction false} TrimLeftOnce(s: string)
    ensures TrimLeft(s) != [] ==> !Space(TrimLeft(s)[0])
  {
    if s != [] && Space(s[0]) {
      TrimLeftOnce(s[1..]);
    }
  }

  lemma {:induction false} TrimRightOnce(s: string)
    ensures TrimRight(TrimRight(s)) == TrimRight(s)
    ensures TrimRight(s) != [] ==> TrimRight(s)[0] == s[0]
  {
    if s != [] && Space(s[|s| - 1]) {
      TrimRightOnce(s[..|s| - 1]);
    }
  }

  lemma {:induction false} TrimmedSegmentIsSingle(text: string)
    ensures
      var cmd := Trim(text[..Segment(TOP, text)]);
      Single(TOP, cmd) && Trim(cmd) == cmd
  {
    var head := text[..Segment(TOP, text)];
    SegmentIsSingle(TOP, text);
    TrimLeftSingle(head);
    TrimRightSingle(TrimLeft(head));
    TrimTwice(head);
  }

  ghost predicate Whole(cmd: string)
  {
    Operands(cmd) == if cmd == "" then [] else [Operand("", cmd)]
  }

  lemma {:induction false} SingleIsWhole(cmd: string)
    requires Single(TOP, cmd) && Trim(cmd) == cmd
    ensures Whole(cmd)
  {
    AssembleBySegment("", "", TOP, cmd);
    assert "" + cmd[..|cmd|] == cmd && cmd[|cmd|..] == [];
    assert Raws(cmd) == [Raw("", cmd)];
    EmittedAppend([], Raw("", cmd));
    assert [] + [Raw("", cmd)] == [Raw("", cmd)];
  }

  lemma {:induction false} RawIsSingle(op: string, text: string, k: nat)
    requires k < |Assemble(op, "", Pieces(TOP, text))|
    ensures Whole(Trim(Assemble(op, "", Pieces(TOP, text))[k].text))
    decreases |text|
  {
    hide Next, Whole, Trim, Assemble, Pieces;
    var n := Segment(TOP, text);
    AssembleBySegment(op, "", TOP, text);
    assert "" + text[..n] == text[..n];
    if k == 0 {
      TrimmedSegmentIsSingle(text);
      SingleIsWhole(Trim(text[..n]));
    } else {
      var w := Next(TOP, text[n..]).width;
      RawIsSingle(text[n..][..w], text[n..][w..], k - 1);
    }
  }

  /** Splitting a command of the result again leaves it in one piece. */
  lemma {:induction false} OperandsAreSingle(line: string, k: nat)
    requires k < |Operands(line)|
    ensures Whole(Operands(line)[k].cmd)
  {
    var d := OperandsAreRaws(line);
    RawIsSingle("", line, k + d);
  }

  // ---- What is trimmed ----

  /** The ASCII characters that are white space. */
  lemma AsciiSpace(c: char)
    ensures c < '\U{80}' ==> (Space(c) <==> c in ['\t', '\n', '\U{0B}', '\U{0C}', '\r', ' '])
  {
  }

  ghost predicate AllSpace(s: string)
  {
    forall i :: 0 <= i < |s| ==> Space(s[i])
  }

  /** White space goes at both ends, and nothing else does. */
  lemma {:induction false} TrimIs(s: string) returns (left: string, right: string)
    ensures s == left + Trim(s) + right && AllSpace(left) && AllSpace(right)
    ensures Trim(s) != "" ==> !Space(Trim(s)[0]) && !Space(Trim(s)[|Trim(s)| - 1])
  {
    left := TrimLeftIs(s);
    right := TrimRightIs(TrimLeft(s));
    TrimLeftOnce(s);
    TrimRightOnce(TrimLeft(s));
  }

  lemma {:induction false} TrimLeftIs(s: string) returns (left: string)
    ensures s == left + TrimLeft(s) && AllSpace(left)
  {
    if s != [] && Space(s[0]) {
      left := TrimLeftIs(s[1..]);
      left := [s[0]] + left;
    } else {
      left := "";
    }
  }

  lemma {:induction false} TrimRightIs(s: string) returns (right: string)
    ensures s == TrimRight(s) + right && AllSpace(right)
    ensures TrimRight(s) != "" ==> !Space(TrimRight(s)[|TrimRight(s)| - 1])
  {
    if s != [] && Space(s[|s| - 1]) {
      right := TrimRightIs(s[..|s| - 1]);
      right := right + [s[|s| - 1]];
    } else {
      right := "";
    }
  }

  // ---- What is an operator ----

  /** Outside quotes and groups `&&`, `||` and `|&` are operators, and so are `|` and `;` otherwise; nothing else is. */
  lemma OperatorsAre(s: Lex, rest: string)
    requires rest != []
    ensures
      var two := |rest| > 1 && (rest[..2] == "&&" || rest[..2] == "||" || rest[..2] == "|&");
      Next(s, rest).Operator? <==> s == TOP && (two || rest[0] == '|' || rest[0] == ';')
    ensures
      var two := |rest| > 1 && (rest[..2] == "&&" || rest[..2] == "||" || rest[..2] == "|&");
      Next(s, rest).Operator? ==> Next(s, rest).width == if two then 2 else 1
  {
    if |rest| > 1 {
      assert rest[..2] == [rest[0], rest[1]];
    }
  }

  /** A character that opens and closes nothing there. */
  predicate Calm(s: Lex, c: char)
  {
    if s.single then c != '\''
    else if s.double then c !in ['"', '$', ')', '}', ']']
    else c !in ['\'', '"', '\\', '$', '(', ')', '}', '[', ']']
  }

  /** Text that is passed over from `s`, operators and all, and leaves `s` as it was. */
  ghost predicate Hidden(s: Lex, body: string)
  {
    forall rest :: Segment(s, body + rest) == |body| + Segment(s, rest)
  }

  /** Inside a quote or a group, calm text is hidden. */
  lemma {:induction false} CalmIsHidden(s: Lex, body: string)
    requires s != TOP && forall i :: 0 <= i < |body| ==> Calm(s, body[i])
    ensures Hidden(s, body)
    decreases |body|
  {
    hide Calm, Next;
    if body != [] {
      CalmIsHidden(s, body[1..]);
    }
    forall rest ensures Segment(s, body + rest) == |body| + Segment(s, rest) {
      if body == [] {
        assert body + rest == rest;
      } else {
        var text := body + rest;
        assert text[0] == body[0] && text[1..] == body[1..] + rest;
        CalmStep(s, text);
        UseHidden(s, body[1..], rest);
      }
    }
  }

  lemma CalmStep(s: Lex, text: string)
    requires s != TOP && text != [] && Calm(s, text[0])
    ensures Next(s, text) == Text(1, s)
  {
  }

  /** An escaped character is hidden outside quotes, whatever it is. */
  lemma {:induction false} EscapesHide(s: Lex, c: char)
    requires !s.single && !s.double
    ensures Hidden(s, ['\\', c])
  {
    forall rest ensures Segment(s, ['\\', c] + rest) == 2 + Segment(s, rest) {
      assert (['\\', c] + rest)[2..] == rest;
      assert Next(s, ['\\', c] + rest) == Text(2, s);
    }
  }

  lemma {:induction false} HiddenJoin(s: Lex, a: string, b: string)
    requires Hidden(s, a) && Hidden(s, b)
    ensures Hidden(s, a + b)
  {
    hide Segment;
    forall rest ensures Segment(s, (a + b) + rest) == |a + b| + Segment(s, rest) {
      assert (a + b) + rest == a + (b + rest);
      assert Segment(s, a + (b + rest)) == |a| + Segment(s, b + rest);
    }
  }

  /** How each quote and group opens outside quotes, and closes. */
  ghost predicate Encloses(s: Lex, open: string, inside: Lex, close: string)
  {
    && !s.single && !s.double
    && (|| (open == "'" && inside == s.(single := true) && close == "'")
        || (open == "\"" && inside == s.(double := true) && close == "\"")
        || (open == "(" && inside == s.(paren := s.paren + 1) && close == ")")
        || (open == "$(" && inside == s.(paren := s.paren + 1) && close == ")")
        || (open == "${" && inside == s.(brace := s.brace + 1) && close == "}")
        || (open == "[[" && inside == s.(bracket := s.bracket + 1) && close == "]]"))
  }

  lemma Opens(s: Lex, open: string, inside: Lex, close: string, rest: string)
    requires Encloses(s, open, inside, close)
    ensures Next(s, open + rest) == Text(|open|, inside) && (open + rest)[|open|..] == rest && inside != TOP
    ensures Next(inside, close + rest) == Text(|close|, s) && (close + rest)[|close|..] == rest
  {
    assert (open + rest)[0] == open[0] && (close + rest)[0] == close[0];
    assert |open| > 1 ==> (open + rest)[1] == open[1];
    assert |close| > 1 ==> (close + rest)[1] == close[1];
  }

  lemma NoneIsEmpty(s: Lex, open: string, inside: Lex, close: string)
    requires Encloses(s, open, inside, close)
    ensures open != "" && close != ""
  {
  }

  lemma {:induction false} GroupPasses(s: Lex, open: string, inside: Lex, close: string, body: string, rest: string)
    requires Encloses(s, open, inside, close) && Hidden(inside, body)
    ensures Segment(s, open + (body + (close + rest))) == |open| + |body| + |close| + Segment(s, rest)
  {
    NoneIsEmpty(s, open, inside, close);
    Opens(s, open, inside, close, body + (close + rest));
    Opens(s, open, inside, close, rest);
    hide Next, Encloses;
    UseHidden(inside, body, close + rest);
    hide Hidden;
  }

  lemma UseHidden(s: Lex, body: string, rest: string)
    requires Hidden(s, body)
    ensures Segment(s, body + rest) == |body| + Segment(s, rest)
  {
  }

  /** A quote or a group hides the operators in it, and so do groups in groups: the line is not split before its end. */
  lemma {:induction false} GroupsHideOperators(s: Lex, open: string, inside: Lex, close: string, body: string)
    requires Encloses(s, open, inside, close) && Hidden(inside, body)
    ensures Hidden(s, open + body + close)
  {
    hide Encloses, Segment;
    forall rest ensures Segment(s, (open + body + close) + rest) == |open + body + close| + Segment(s, rest) {
      GroupPasses(s, open, inside, close, body, rest);
      assert (open + body + close) + rest == open + (body + (close + rest));
    }
  }

  /** So in a line that starts with hidden text, the first operand goes on behind it. */
  lemma {:induction false} HiddenInOperand(body: string, rest: string)
    requires Hidden(TOP, body)
    ensures Raws(body + rest) != [] && Raws(rest) != [] && Raws(body + rest)[0].text == body + Raws(rest)[0].text
  {
    hide Next, Pieces, Assemble, Hidden;
    var n := Segment(TOP, rest);
    AssembleBySegment("", "", TOP, body + rest);
    AssembleBySegment("", "", TOP, rest);
    assert Segment(TOP, body + rest) == |body| + n by {
      UseHidden(TOP, body, rest);
    }
    assert (body + rest)[..|body| + n] == body + rest[..n];
    assert "" + (body + rest)[..|body| + n] == body + rest[..n] && "" + rest[..n] == rest[..n];
  }
}
