/**
 The pipe screen of the interpreter preflight.

 A script may run under the interpreter only if the last stage of every pipeline is a plain
 external command. `PipeScreen` is the scan as the source performs it, marking nested pipes in a
 mutable set. `ScreenedScriptsAgree` says why the screen is enough: both engines then compute the
 same outcome from every state.
 */
module Screener {
  import opened Shell

  // ---- The statements directly below a command ----

  function SubstBodies(ws: seq<Word>): (r: seq<Stmt>)
    ensures forall i :: 0 <= i < |r| ==> (ws decreases to r[i])
  {
    if ws == [] then []
    else
      assert ws decreases to ws[0];
      assert ws decreases to ws[1..];
      (if ws[0].Subst? then [ws[0].body] else []) + SubstBodies(ws[1..])
  }

  function Kids(c: Cmd): (r: seq<Stmt>)
    ensures forall i :: 0 <= i < |r| ==> (c decreases to r[i])
  {
    match c
    case Call(_, args) => SubstBodies(args)
    case Decl(_) => []
    case Block(stmts) => stmts
    case Subshell(stmts) => stmts
    case If(cond, thn, els) => [cond, thn, els]
    case Loop(cond, body) => [cond, body]
    case For(_, items, body) => SubstBodies(items) + [body]
    case FuncDecl(_, body) => [body]
    case And(x, y) => [x, y]
    case Or(x, y) => [x, y]
    case Pipe(_, x, y, _) => [x, y]
  }

  // ---- What the screen decides about one final stage ----

  function HeadLiteral(w: Word): string
  {
    if w.Lit? then w.raw else ""
  }

  /** The screen's own table of commands that run inside the shell process, group by group. */
  predicate InProcess(name: string)
  {
    || name in {".", "source", "eval", "exec", "command", "builtin"}
    || name in {"cd", "pushd", "popd", "dirs"}
    || name in {"read", "readarray", "mapfile"}
    || name in {"unset", "set", "shopt", "export", "local", "declare", "typeset", "let", "readonly", "getopts"}
    || name in {"printf", "echo", "test", "["}
    || name in {"[[", "true", "false", ":"}
    || name in {"trap", "wait", "jobs", "fg", "bg", "kill", "ulimit", "umask", "disown", "suspend", "times", "caller"}
    || name in {"alias", "unalias", "hash", "type", "enable", "bind", "compgen", "complete", "history", "fc"}
    || name in {"return", "break", "continue", "shift", "exit", "logout"}
  }

  /** True unless the stage is a simple command whose head is a literal naming neither a builtin nor a declared function. */
  predicate NeedsRealbash(stage: Stmt, names: set<string>)
  {
    || !stage.cmd.Call?
    || stage.cmd.args == []
    || HeadLiteral(stage.cmd.args[0]) == ""
    || InProcess(HeadLiteral(stage.cmd.args[0]))
    || HeadLiteral(stage.cmd.args[0]) in names
  }

  /** The table is exact: it lists the builtins that may change the shell's state and no others. */
  lemma TableIsExact(name: string)
    ensures InProcess(name) <==> MayChange(name)
  {
    if Observer(name) {
      ObserversAreOutside(name);
    } else if InProcess(name) {
      TableIsBash(name);
    } else if Builtin(name) {
      BashIsInTable(name);
    }
  }

  lemma ObserversAreOutside(name: string)
    requires Observer(name)
    ensures !InProcess(name)
  {
    if name == "pwd" {
      assert |name| == 3 && name[1] == 'w';
    } else if name == "help" {
      assert |name| == 4 && name[2] == 'l';
    } else {
      assert |name| == 7 && name[3] == 'p' && name[4] == 'o';
    }
  }

  lemma TableIsBash(name: string)
    requires InProcess(name)
    ensures Builtin(name)
  {
  }

  lemma BashIsInTable(name: string)
    requires MayChange(name)
    ensures InProcess(name)
  {
  }

  /**
   Where a literal head is not spelt as it expands, what it expands to changes nothing in the shell either: it is
   no builtin that may, and none of the declared functions. The screen looks at the spelling alone, so that
   `\\grep` and `\\cd` both pass it.
   */
  predicate Harmless(stage: Stmt, names: set<string>)
  {
    stage.cmd.Call? && stage.cmd.args != [] && stage.cmd.args[0].Lit? && stage.cmd.args[0].raw != stage.cmd.args[0].value ==>
      !MayChange(stage.cmd.args[0].value) && stage.cmd.args[0].value !in names
  }

  // ---- What the screen should see, by structure ----

  /** The final stages of the pipelines in `s`. A pipe on the left spine of another pipe is `covered`: its last stage is not final. */
  ghost function Finals(s: Stmt, covered: bool): set<Stmt>
    decreases s
  {
    var kids := Kids(s.cmd);
    (if s.cmd.Pipe? && !covered then {s.cmd.y} else {}) +
    (set i, f | 0 <= i < |kids| && f in Finals(kids[i], LeftOfPipe(s.cmd, i)) :: f)
  }

  predicate LeftOfPipe(c: Cmd, i: nat)
  {
    c.Pipe? && i == 0
  }

  /** Every function name declared anywhere in `s`. */
  ghost function Declared(s: Stmt): set<string>
    decreases s
  {
    var kids := Kids(s.cmd);
    (if s.cmd.FuncDecl? && s.cmd.name != "" then {s.cmd.name} else {}) +
    (set i, f | 0 <= i < |kids| && f in Declared(kids[i]) :: f)
  }

  // ---- The scan ----

  /** The identities of the pipe nodes in `s`. */
  ghost function Ids(s: Stmt): set<nat>
    decreases s
  {
    var kids := Kids(s.cmd);
    (if s.cmd.Pipe? then {s.cmd.id} else {}) + (set i, n | 0 <= i < |kids| && n in Ids(kids[i]) :: n)
  }

  /** Different nodes have different identities, as pointers do. */
  ghost predicate Distinct(s: Stmt)
    decreases s
  {
    var kids := Kids(s.cmd);
    && (forall i :: 0 <= i < |kids| ==> Distinct(kids[i]))
    && (forall i :: 0 <= i < |kids| && s.cmd.Pipe? ==> s.cmd.id !in Ids(kids[i]))
    && (forall i, j :: 0 <= i < j < |kids| ==> Ids(kids[i]) !! Ids(kids[j]))
  }

  /** The pipe nodes from `s` down its chain of left operands. */
  ghost function Spine(s: Stmt): (r: set<nat>)
    ensures r <= Ids(s)
    decreases s
  {
    if s.cmd.Pipe? then
      assert Kids(s.cmd)[0] == s.cmd.x;
      {s.cmd.id} + Spine(s.cmd.x)
    else {}
  }

  // The same collections over the first `i` kids, for the loops below.

  ghost function DeclaredUpTo(c: Cmd, i: nat): set<string>
    requires i <= |Kids(c)|
  {
    set j, f | 0 <= j < i && f in Declared(Kids(c)[j]) :: f
  }

  ghost function IdsUpTo(c: Cmd, i: nat): set<nat>
    requires i <= |Kids(c)|
  {
    set j, n | 0 <= j < i && n in Ids(Kids(c)[j]) :: n
  }

  /** Some final stage of `s` needs real bash. */
  ghost predicate Needy(s: Stmt, covered: bool, names: set<string>)
  {
    exists y :: y in Finals(s, covered) && NeedsRealbash(y, names)
  }

  ghost predicate NeedyUpTo(c: Cmd, i: nat, names: set<string>)
    requires i <= |Kids(c)|
  {
    exists j :: 0 <= j < i && Needy(Kids(c)[j], LeftOfPipe(c, j), names)
  }

  lemma DeclaredStep(c: Cmd, i: nat)
    requires i < |Kids(c)|
    ensures DeclaredUpTo(c, i + 1) == DeclaredUpTo(c, i) + Declared(Kids(c)[i])
  {
  }

  lemma IdsStep(c: Cmd, i: nat)
    requires i < |Kids(c)|
    ensures IdsUpTo(c, i + 1) == IdsUpTo(c, i) + Ids(Kids(c)[i])
  {
  }

  lemma NeedyStep(c: Cmd, i: nat, names: set<string>)
    requires i < |Kids(c)|
    ensures NeedyUpTo(c, i + 1, names) <==> NeedyUpTo(c, i, names) || Needy(Kids(c)[i], LeftOfPipe(c, i), names)
  {
  }

  lemma NeedyBySplit(s: Stmt, covered: bool, names: set<string>)
    ensures Needy(s, covered, names) <==>
      (s.cmd.Pipe? && !covered && NeedsRealbash(s.cmd.y, names)) || NeedyUpTo(s.cmd, |Kids(s.cmd)|, names)
  {
    var c, n := s.cmd, |Kids(s.cmd)|;
    if NeedyUpTo(c, n, names) {
      var j :| 0 <= j < n && Needy(Kids(c)[j], LeftOfPipe(c, j), names);
      var y :| y in Finals(Kids(c)[j], LeftOfPipe(c, j)) && NeedsRealbash(y, names);
      assert y in Finals(s, covered);
    }
    if c.Pipe? && !covered {
      assert c.y in Finals(s, covered);
    }
  }

  /** While the kids before `i` are walked, a later kid sees only the marks made before the loop. */
  lemma KidUnmarked(s: Stmt, i: nat, marked: set<nat>, covered: set<nat>)
    requires Distinct(s) && i < |Kids(s.cmd)| && marked <= covered <= marked + IdsUpTo(s.cmd, i)
    ensures Ids(Kids(s.cmd)[i]) * covered == Ids(Kids(s.cmd)[i]) * marked
  {
    forall j | 0 <= j < i ensures Ids(Kids(s.cmd)[j]) !! Ids(Kids(s.cmd)[i]) {}
  }

  /** Marks and kids agree at the start of the loop: the left operand of a pipe sees its spine, other kids see nothing. */
  lemma KidMarks(s: Stmt, under: bool, before: set<nat>, marked: set<nat>, i: nat)
    requires Distinct(s) && i < |Kids(s.cmd)|
    requires Ids(s) * before == if under then Spine(s) else {}
    requires marked == if s.cmd.Pipe? && s.cmd.id !in before then before + Spine(s.cmd.x) else before
    ensures Ids(Kids(s.cmd)[i]) * marked == if LeftOfPipe(s.cmd, i) then Spine(Kids(s.cmd)[i]) else {}
  {
    var kid := Kids(s.cmd)[i];
    assert Ids(kid) <= Ids(s);
    if s.cmd.Pipe? {
      var x := s.cmd.x;
      assert s.cmd.id in Ids(s) && s.cmd.id !in Ids(kid);
      assert Spine(s) == {s.cmd.id} + Spine(x) && Spine(x) <= Ids(x);
      if i == 0 {
        assert kid == x;
      } else {
        assert Ids(Kids(s.cmd)[0]) !! Ids(kid);
      }
    }
  }

  lemma KidReady(s: Stmt, under: bool, before: set<nat>, marked: set<nat>, covered: set<nat>, i: nat)
    requires Distinct(s) && i < |Kids(s.cmd)|
    requires Ids(s) * before == if under then Spine(s) else {}
    requires marked == if s.cmd.Pipe? && s.cmd.id !in before then before + Spine(s.cmd.x) else before
    requires marked <= covered <= marked + IdsUpTo(s.cmd, i)
    ensures Distinct(Kids(s.cmd)[i])
    ensures Ids(Kids(s.cmd)[i]) * covered == if LeftOfPipe(s.cmd, i) then Spine(Kids(s.cmd)[i]) else {}
  {
    KidUnmarked(s, i, marked, covered);
    KidMarks(s, under, before, marked, i);
  }

  lemma PipeIsUnmarked(s: Stmt, under: bool, covered: set<nat>)
    requires Ids(s) * covered == if under then Spine(s) else {}
    ensures s.cmd.Pipe? ==> (s.cmd.id !in covered <==> !under)
    ensures s.cmd.Pipe? ==> Spine(s.cmd.x) <= Ids(s)
    ensures IdsUpTo(s.cmd, |Kids(s.cmd)|) <= Ids(s)
  {
    if s.cmd.Pipe? {
      assert s.cmd.id in Ids(s) && Kids(s.cmd)[0] == s.cmd.x;
      assert Spine(s.cmd.x) <= Ids(Kids(s.cmd)[0]) <= Ids(s);
      assert s.cmd.id in Spine(s);
    }
  }

  lemma DeclaredBySplit(s: Stmt)
    ensures DeclaredUpTo(s.cmd, 0) == {}
    ensures Declared(s) ==
      (if s.cmd.FuncDecl? && s.cmd.name != "" then {s.cmd.name} else {}) + DeclaredUpTo(s.cmd, |Kids(s.cmd)|)
  {
  }

  class PipeScreen {
    var covered: set<nat>
    var localFuncs: set<string>
    var flagged: bool

    constructor ()
      ensures covered == {} && localFuncs == {} && !flagged
    {
      covered, localFuncs, flagged := {}, {}, false;
    }

    method CollectFuncNames(s: Stmt)
      modifies this`localFuncs
      ensures localFuncs == old(localFuncs) + Declared(s)
      decreases s
    {
      hide Declared, DeclaredUpTo;
      DeclaredBySplit(s);
      if s.cmd.FuncDecl? && s.cmd.name != "" {
        localFuncs := localFuncs + {s.cmd.name};
      }
      var kids := Kids(s.cmd);
      ghost var own := localFuncs;
      for i := 0 to |kids|
        invariant localFuncs == own + DeclaredUpTo(s.cmd, i)
      {
        CollectFuncNames(kids[i]);
        DeclaredStep(s.cmd, i);
      }
    }

    method MarkNestedPipes(top: Stmt)
      requires top.cmd.Pipe?
      modifies this`covered
      ensures covered == old(covered) + Spine(top.cmd.x)
    {
      var b := top;
      while b.cmd.x.cmd.Pipe?
        invariant b.cmd.Pipe?
        invariant covered + Spine(b.cmd.x) == old(covered) + Spine(top.cmd.x)
        decreases b
      {
        var inner := b.cmd.x;
        covered := covered + {inner.cmd.id};
        b := inner;
      }
    }

    /** The case of one node: a pipe that no enclosing pipe has marked is screened, and its spine marked. */
    method Visit(s: Stmt)
      modifies this`covered, this`flagged
      ensures covered == if s.cmd.Pipe? && s.cmd.id !in old(covered) then old(covered) + Spine(s.cmd.x) else old(covered)
      ensures flagged <==> old(flagged) || (s.cmd.Pipe? && s.cmd.id !in old(covered) && NeedsRealbash(s.cmd.y, localFuncs))
    {
      if s.cmd.Pipe? && s.cmd.id !in covered {
        MarkNestedPipes(s);
        if NeedsRealbash(s.cmd.y, localFuncs) {
          flagged := true;
        }
      }
    }

    /** `under` says whether an enclosing pipe has already marked the spine of `s`. */
    method Walk(s: Stmt, ghost under: bool)
      requires Distinct(s)
      requires Ids(s) * covered == if under then Spine(s) else {}
      modifies this`covered, this`flagged
      ensures old(covered) <= covered <= old(covered) + Ids(s)
      ensures flagged <==> old(flagged) || Needy(s, under, localFuncs)
      decreases s
    {
      ghost var before := covered;
      PipeIsUnmarked(s, under, before);
      Visit(s);
      var kids := Kids(s.cmd);
      ghost var marked, found, names := covered, flagged, localFuncs;
      assert marked <= before + Ids(s);
      for i := 0 to |kids|
        invariant marked <= covered <= marked + IdsUpTo(s.cmd, i)
        invariant flagged <==> found || NeedyUpTo(s.cmd, i, names)
      {
        KidReady(s, under, before, marked, covered, i);
        Walk(kids[i], LeftOfPipe(s.cmd, i));
        IdsStep(s.cmd, i);
        NeedyStep(s.cmd, i, names);
      }
      NeedyBySplit(s, under, names);
    }
  }

  datatype Route = RouteInterp | RouteRealbash

  ghost function File(file: seq<Stmt>): Stmt
  {
    Stmt(false, [], Block(file))
  }

  /** The route the pipe screen gives a file. */
  method DetectPipeGaps(file: seq<Stmt>) returns (route: Route)
    requires Distinct(File(file))
    ensures route.RouteInterp? <==> Screened(file)
  {
    var screen := new PipeScreen();
    var root := Stmt(false, [], Block(file));
    screen.CollectFuncNames(root);
    screen.Walk(root, false);
    route := if screen.flagged then RouteRealbash else RouteInterp;
  }

  /** No final stage needs real bash. */
  ghost predicate Screened(file: seq<Stmt>)
  {
    forall y :: y in Finals(File(file), false) ==> !NeedsRealbash(y, Declared(File(file)))
  }

  // ---- Why a screened script may run under the interpreter ----

  /** `s` declares only `names`, and each of its final stages is safe and runs outside the shell. */
  ghost predicate Clean(s: Stmt, covered: bool, names: set<string>)
  {
    && Declared(s) <= names
    && forall y :: y in Finals(s, covered) ==> !NeedsRealbash(y, names) && Harmless(y, names)
  }

  /** Every function the shell holds was declared by the script, and its body is a screened part of it. */
  ghost predicate CleanFuncs(sh: State, names: set<string>)
  {
    forall f :: f in sh.funcs ==> f in names && Clean(sh.funcs[f], false, names)
  }

  ghost predicate CleanAfter(o: Outcome, names: set<string>)
  {
    o.Done? ==> CleanFuncs(o.sh, names)
  }

  /** Same output, exit, stdin and world; the shell state may differ. */
  ghost predicate SameToObserver(a: Outcome, b: Outcome)
  {
    || (a.Stuck? && b.Stuck?)
    || (a.Done? && b.Done? && a.out == b.out && a.exit == b.exit && a.io == b.io)
  }

  lemma CleanKid(s: Stmt, covered: bool, names: set<string>, i: nat)
    requires Clean(s, covered, names) && i < |Kids(s.cmd)|
    ensures Clean(Kids(s.cmd)[i], LeftOfPipe(s.cmd, i), names)
  {
    forall f | f in Declared(Kids(s.cmd)[i]) ensures f in Declared(s) {}
    forall y | y in Finals(Kids(s.cmd)[i], LeftOfPipe(s.cmd, i)) ensures y in Finals(s, covered) {}
  }

  ghost predicate CleanWords(ws: seq<Word>, names: set<string>)
  {
    forall k :: k in SubstBodies(ws) ==> Clean(k, false, names)
  }

  lemma CleanWordsOf(s: Stmt, covered: bool, names: set<string>)
    requires Clean(s, covered, names)
    ensures s.cmd.Call? ==> CleanWords(s.cmd.args, names)
    ensures s.cmd.For? ==> CleanWords(s.cmd.items, names) && Clean(s.cmd.body, false, names)
  {
    forall i | 0 <= i < |Kids(s.cmd)| && !s.cmd.Pipe?
      ensures Clean(Kids(s.cmd)[i], false, names)
    {
      CleanKid(s, covered, names, i);
    }
    if s.cmd.For? {
      var bodies := SubstBodies(s.cmd.items);
      assert Kids(s.cmd)[|bodies|] == s.cmd.body;
      forall k | k in bodies ensures Clean(k, false, names) {
        var i :| 0 <= i < |bodies| && bodies[i] == k;
        assert Kids(s.cmd)[i] == k;
      }
    }
  }

  /** Engines agree on a clean statement that is not a covered pipe, state included. */
  lemma {:induction false} RunAgrees(h: Host, fuel: nat, s: Stmt, names: set<string>, sh: State, io: Io)
    requires Known(h) && Clean(s, false, names) && CleanFuncs(sh, names)
    ensures Run(Bash, h, fuel, s, sh, io) == Run(Interp, h, fuel, s, sh, io)
    ensures CleanAfter(Run(Bash, h, fuel, s, sh, io), names)
    decreases fuel, 0
  {
    if fuel > 0 {
      var o := if s.redirs == [] then Opened(true, false, io.stdin, io.world) else h.open(s.redirs, sh, io);
      if o.ok {
        CmdAgrees(h, fuel - 1, s, names, sh, Io(o.stdin, o.world));
      }
    }
  }

  /** Engines agree on the output of a covered pipe, whose state the enclosing pipe throws away. */
  lemma {:induction false} CoveredAgrees(h: Host, fuel: nat, s: Stmt, names: set<string>, sh: State, io: Io)
    requires Known(h) && Clean(s, true, names) && CleanFuncs(sh, names)
    ensures SameToObserver(Run(Bash, h, fuel, s, sh, io), Run(Interp, h, fuel, s, sh, io))
    decreases fuel, 1
  {
    if !s.cmd.Pipe? {
      assert Finals(s, true) == Finals(s, false);
      RunAgrees(h, fuel, s, names, sh, io);
    } else if fuel > 0 {
      var o := if s.redirs == [] then Opened(true, false, io.stdin, io.world) else h.open(s.redirs, sh, io);
      if o.ok {
        CoveredPipeAgrees(h, fuel - 1, s, names, sh, Io(o.stdin, o.world));
      }
    }
  }

  lemma {:induction false} CoveredPipeAgrees(h: Host, fuel: nat, s: Stmt, names: set<string>, sh: State, io: Io)
    requires Known(h) && s.cmd.Pipe? && Clean(s, true, names) && CleanFuncs(sh, names)
    ensures SameToObserver(RunCmd(Bash, h, fuel, s.cmd, sh, io), RunCmd(Interp, h, fuel, s.cmd, sh, io))
    decreases fuel, 3
  {
    if fuel > 0 {
      StagesAgree(h, fuel - 1, s, true, names, sh, io);
    }
  }

  /** Both stages of a clean pipe: the left to an observer, the right on the parent's state entirely. */
  lemma {:induction false} StagesAgree(h: Host, fuel: nat, s: Stmt, covered: bool, names: set<string>, sh: State, io: Io)
    requires Known(h) && s.cmd.Pipe? && Clean(s, covered, names) && CleanFuncs(sh, names)
    ensures SameToObserver(Run(Bash, h, fuel, s.cmd.x, sh, io), Run(Interp, h, fuel, s.cmd.x, sh, io))
    ensures forall input ::
      && Run(Bash, h, fuel, s.cmd.y, sh, input) == Run(Interp, h, fuel, s.cmd.y, sh, input)
      && CleanAfter(Run(Bash, h, fuel, s.cmd.y, sh, input), names)
    decreases fuel, 2
  {
    CleanKid(s, covered, names, 0);
    CleanKid(s, covered, names, 1);
    CoveredAgrees(h, fuel, s.cmd.x, names, sh, io);
    forall input
      ensures Run(Bash, h, fuel, s.cmd.y, sh, input) == Run(Interp, h, fuel, s.cmd.y, sh, input)
      ensures CleanAfter(Run(Bash, h, fuel, s.cmd.y, sh, input), names)
    {
      RunAgrees(h, fuel, s.cmd.y, names, sh, input);
    }
  }

  /** What a safe final stage calls is a program, or a builtin that changes nothing. */
  lemma SafeHead(h: Host, stage: Stmt, names: set<string>, sh: State)
    requires Known(h) && !NeedsRealbash(stage, names) && Harmless(stage, names) && CleanFuncs(sh, names)
    ensures
      var v := stage.cmd.args[0].value;
      v !in sh.funcs && (h.inShell(v) ==> Observer(v))
  {
    var head := stage.cmd.args[0];
    TableIsExact(head.raw);
    hide InProcess, MayChange, Clean;
    assert head.value !in names && !MayChange(head.value);
    ObserverIfUnchanging(head.value);
    hide Known;
  }

  lemma ObserverIfUnchanging(name: string)
    ensures Builtin(name) && !MayChange(name) ==> Observer(name)
  {
  }

  lemma ObserverReturns(h: Host, name: string, args: seq<string>, assigns: seq<nat>, sh: State, io: Io)
    requires Known(h) && Observer(name)
    ensures
      var r := h.builtin(name, args, sh.(vars := h.assign(assigns, sh)), io);
      var o := Absorb(sh, r.(vars := h.restore(assigns, sh.vars, r.vars)));
      o == Done(sh, r.io, r.out, r.exit, Next)
  {
    var r := h.builtin(name, args, sh.(vars := h.assign(assigns, sh)), io);
    assert Observes(h, assigns, sh, r);
    assert sh.funcs - {} == sh.funcs;
  }

  lemma {:induction false} ExternalCallLeavesState(e: Engine, h: Host, fuel: nat, stage: Stmt, names: set<string>, sh: State, io: Io)
    requires Known(h) && !NeedsRealbash(stage, names) && Harmless(stage, names) && CleanFuncs(sh, names)
    ensures
      var o := RunCall(e, h, fuel, stage.cmd.assigns, stage.cmd.args, sh, io);
      o.Done? ==> o.sh == sh && o.flow == Next
  {
    hide Run, RunCmd, Expand, InProcess, MayChange, Known, Clean, Absorb;
    var assigns, args := stage.cmd.assigns, stage.cmd.args;
    if fuel > 0 {
      LiteralHead(e, h, fuel - 1, args, sh, io);
      SafeHead(h, stage, names, sh);
      var x := Expand(e, h, fuel - 1, args, sh, io);
      if x.Fields? && h.inShell(args[0].value) {
        ObserverReturns(h, args[0].value, x.fields[1..], assigns, sh, x.io);
      }
    }
  }

  lemma {:induction false} LiteralHead(e: Engine, h: Host, fuel: nat, ws: seq<Word>, sh: State, io: Io)
    requires ws != [] && ws[0].Lit?
    ensures
      var x := Expand(e, h, fuel, ws, sh, io);
      x.Fields? ==> x.fields != [] && x.fields[0] == ws[0].value
  {
    hide Run, RunCmd;
    if fuel > 0 {
      assert ExpandWord(e, h, fuel - 1, ws[0], sh, io) == Fields([ws[0].value], io, []);
    }
  }

  /** A safe final stage leaves nothing behind but its exit status. */
  lemma {:induction false} ExternalLeavesState(e: Engine, h: Host, fuel: nat, stage: Stmt, names: set<string>, sh: State, io: Io)
    requires Known(h) && !NeedsRealbash(stage, names) && Harmless(stage, names) && CleanFuncs(sh, names)
    ensures
      var o := Run(e, h, fuel, stage, sh, io);
      o.Done? ==> o.sh == sh.(status := o.exit) && o.flow == Next
  {
    if fuel > 1 {
      var o := if stage.redirs == [] then Opened(true, false, io.stdin, io.world) else h.open(stage.redirs, sh, io);
      if o.ok {
        ExternalCallLeavesState(e, h, fuel - 2, stage, names, sh, Io(o.stdin, o.world));
        assert RunCmd(e, h, fuel - 1, stage.cmd, sh, Io(o.stdin, o.world))
            == RunCall(e, h, fuel - 2, stage.cmd.assigns, stage.cmd.args, sh, Io(o.stdin, o.world));
      }
    }
  }

  /** The outcome with `$?` forgotten; the enclosing statement sets it anyway. */
  ghost function Settle(o: Outcome): Outcome
  {
    if o.Stuck? then o else o.(sh := o.sh.(status := 0))
  }

  /** A statement, then another from where the first stopped. */
  lemma {:induction false} ThenAgrees(h: Host, fuel: nat, x: Stmt, y: Stmt, names: set<string>, sh: State, io: Io)
    requires Known(h) && Clean(x, false, names) && Clean(y, false, names) && CleanFuncs(sh, names)
    ensures
      var r := Run(Bash, h, fuel, x, sh, io);
      && r == Run(Interp, h, fuel, x, sh, io)
      && CleanAfter(r, names)
      && (r.Done? ==>
        && Run(Bash, h, fuel, y, r.sh, r.io) == Run(Interp, h, fuel, y, r.sh, r.io)
        && CleanAfter(Run(Bash, h, fuel, y, r.sh, r.io), names))
    decreases fuel, 1
  {
    hide Run, Clean, CleanFuncs;
    RunAgrees(h, fuel, x, names, sh, io);
    var r := Run(Bash, h, fuel, x, sh, io);
    if r.Done? {
      RunAgrees(h, fuel, y, names, r.sh, r.io);
    }
  }

  /** Every kid of a command other than a pipe is clean on its own. */
  lemma CleanKids(s: Stmt, names: set<string>)
    requires Clean(s, false, names) && !s.cmd.Pipe?
    ensures forall k :: k in Kids(s.cmd) ==> Clean(k, false, names)
  {
    forall k | k in Kids(s.cmd) ensures Clean(k, false, names) {
      var i :| 0 <= i < |Kids(s.cmd)| && Kids(s.cmd)[i] == k;
      CleanKid(s, false, names, i);
    }
  }

  lemma {:induction false} CmdAgrees(h: Host, fuel: nat, s: Stmt, names: set<string>, sh: State, io: Io)
    requires Known(h) && Clean(s, false, names) && CleanFuncs(sh, names)
    ensures Settle(RunCmd(Bash, h, fuel, s.cmd, sh, io)) == Settle(RunCmd(Interp, h, fuel, s.cmd, sh, io))
    ensures CleanAfter(RunCmd(Bash, h, fuel, s.cmd, sh, io), names)
    decreases fuel, 1
  {
    hide Run, CleanFuncs;
    if fuel > 0 {
      if s.cmd.Pipe? {
        PipeAgrees(h, fuel, s, names, sh, io);
      } else {
        CleanKids(s, names);
        if s.cmd.Call? || s.cmd.For? {
          CallOrForAgrees(h, fuel, s, names, sh, io);
        } else {
          PlainAgrees(h, fuel, s.cmd, names, sh, io);
        }
      }
    }
  }

  lemma {:induction false} CallOrForAgrees(h: Host, fuel: nat, s: Stmt, names: set<string>, sh: State, io: Io)
    requires Known(h) && fuel > 0 && (s.cmd.Call? || s.cmd.For?) && Clean(s, false, names) && CleanFuncs(sh, names)
    ensures RunCmd(Bash, h, fuel, s.cmd, sh, io) == RunCmd(Interp, h, fuel, s.cmd, sh, io)
    ensures CleanAfter(RunCmd(Bash, h, fuel, s.cmd, sh, io), names)
    decreases fuel, 0
  {
    hide Run, RunCall, RunFor, Expand, CleanFuncs;
    var n := fuel - 1;
    CleanWordsOf(s, false, names);
    if s.cmd.Call? {
      CallAgrees(h, n, s.cmd.assigns, s.cmd.args, names, sh, io);
    } else {
      ExpandAgrees(h, n, s.cmd.items, names, sh, io);
      var r := Expand(Bash, h, n, s.cmd.items, sh, io);
      if r.Fields? {
        ForAgrees(h, n, s.cmd.name, r.fields, s.cmd.body, 0, names, sh, r.io);
      }
    }
  }

  lemma {:induction false} PlainAgrees(h: Host, fuel: nat, c: Cmd, names: set<string>, sh: State, io: Io)
    requires Known(h) && fuel > 0 && !c.Pipe? && !c.Call? && !c.For? && CleanFuncs(sh, names)
    requires forall k :: k in Kids(c) ==> Clean(k, false, names)
    requires c.FuncDecl? ==> c.name == "" || c.name in names
    ensures RunCmd(Bash, h, fuel, c, sh, io) == RunCmd(Interp, h, fuel, c, sh, io)
    ensures CleanAfter(RunCmd(Bash, h, fuel, c, sh, io), names)
    decreases fuel, 0
  {
    hide Run, RunSeq, RunLoop;
    var n := fuel - 1;
    match c {
      case Decl(_) =>
      case Block(stmts) => SeqAgrees(h, n, stmts, names, sh, io);
      case Subshell(stmts) => SeqAgrees(h, n, stmts, names, sh, io);
      case If(cond, thn, els) =>
        assert Kids(c)[0] == cond && Kids(c)[1] == thn && Kids(c)[2] == els;
        ThenAgrees(h, n, cond, thn, names, sh, io);
        ThenAgrees(h, n, cond, els, names, sh, io);
      case Loop(cond, body) =>
        assert Kids(c)[0] == cond && Kids(c)[1] == body;
        LoopAgrees(h, n, cond, body, 0, names, sh, io);
      case FuncDecl(name, body) =>
        assert Kids(c)[0] == body;
      case And(x, y) =>
        assert Kids(c)[0] == x && Kids(c)[1] == y;
        ThenAgrees(h, n, x, y, names, sh, io);
      case Or(x, y) =>
        assert Kids(c)[0] == x && Kids(c)[1] == y;
        ThenAgrees(h, n, x, y, names, sh, io);
    }
  }

  lemma {:induction false} PipeAgrees(h: Host, fuel: nat, s: Stmt, names: set<string>, sh: State, io: Io)
    requires Known(h) && fuel > 0 && s.cmd.Pipe? && Clean(s, false, names) && CleanFuncs(sh, names)
    ensures Settle(RunCmd(Bash, h, fuel, s.cmd, sh, io)) == Settle(RunCmd(Interp, h, fuel, s.cmd, sh, io))
    ensures CleanAfter(RunCmd(Bash, h, fuel, s.cmd, sh, io), names)
    decreases fuel, 0
  {
    StagesAgree(h, fuel - 1, s, false, names, sh, io);
    var left := Run(Bash, h, fuel - 1, s.cmd.x, sh, io);
    if left.Done? {
      assert s.cmd.y in Finals(s, false);
      ExternalLeavesState(Interp, h, fuel - 1, s.cmd.y, names, sh, Io(Piped(left.out, s.cmd.all), left.io.world));
    }
  }

  lemma {:induction false} CallAgrees(h: Host, fuel: nat, assigns: seq<nat>, args: seq<Word>, names: set<string>, sh: State, io: Io)
    requires Known(h) && CleanWords(args, names) && CleanFuncs(sh, names)
    ensures RunCall(Bash, h, fuel, assigns, args, sh, io) == RunCall(Interp, h, fuel, assigns, args, sh, io)
    ensures CleanAfter(RunCall(Bash, h, fuel, assigns, args, sh, io), names)
    decreases fuel
  {
    hide Run, RunCmd, Expand, InProcess, Clean;
    if fuel > 0 && args != [] {
      ExpandAgrees(h, fuel - 1, args, names, sh, io);
      var r := Expand(Bash, h, fuel - 1, args, sh, io);
      if r.Fields? && r.fields != [] && r.fields[0] in sh.funcs {
        var scoped := sh.(vars := h.assign(assigns, sh), params := r.fields[1..]);
        RunAgrees(h, fuel - 1, sh.funcs[r.fields[0]], names, scoped, r.io);
      }
    }
  }

  lemma {:induction false} SeqAgrees(h: Host, fuel: nat, ss: seq<Stmt>, names: set<string>, sh: State, io: Io)
    requires Known(h) && (forall k :: k in ss ==> Clean(k, false, names)) && CleanFuncs(sh, names)
    ensures RunSeq(Bash, h, fuel, ss, sh, io) == RunSeq(Interp, h, fuel, ss, sh, io)
    ensures CleanAfter(RunSeq(Bash, h, fuel, ss, sh, io), names)
    decreases fuel
  {
    hide Run, RunCmd, Clean, CleanFuncs;
    if fuel > 0 && ss != [] {
      RunAgrees(h, fuel - 1, ss[0], names, sh, io);
      var r := Run(Bash, h, fuel - 1, ss[0], sh, io);
      if r.Done? {
        SeqAgrees(h, fuel - 1, ss[1..], names, r.sh, r.io);
      }
    }
  }

  lemma {:induction false} LoopAgrees(h: Host, fuel: nat, cond: Stmt, body: Stmt, last: int, names: set<string>, sh: State, io: Io)
    requires Known(h) && Clean(cond, false, names) && Clean(body, false, names) && CleanFuncs(sh, names)
    ensures RunLoop(Bash, h, fuel, cond, body, last, sh, io) == RunLoop(Interp, h, fuel, cond, body, last, sh, io)
    ensures CleanAfter(RunLoop(Bash, h, fuel, cond, body, last, sh, io), names)
    decreases fuel
  {
    hide Run, RunCmd, Clean, CleanFuncs;
    if fuel > 0 {
      ThenAgrees(h, fuel - 1, cond, body, names, sh, io);
      var r := Run(Bash, h, fuel - 1, cond, sh, io);
      if r.Done? {
        var q := Run(Bash, h, fuel - 1, body, r.sh, r.io);
        if q.Done? {
          LoopAgrees(h, fuel - 1, cond, body, q.exit, names, q.sh, q.io);
        }
      }
    }
  }

  lemma {:induction false} ForAgrees(h: Host, fuel: nat, name: string, fields: seq<string>, body: Stmt, last: int,
      names: set<string>, sh: State, io: Io)
    requires Known(h) && Clean(body, false, names) && CleanFuncs(sh, names)
    ensures RunFor(Bash, h, fuel, name, fields, body, last, sh, io) == RunFor(Interp, h, fuel, name, fields, body, last, sh, io)
    ensures CleanAfter(RunFor(Bash, h, fuel, name, fields, body, last, sh, io), names)
    decreases fuel
  {
    hide Run, RunCmd, Clean;
    if fuel > 0 && fields != [] {
      var bound := sh.(vars := sh.vars[name := fields[0]]);
      RunAgrees(h, fuel - 1, body, names, bound, io);
      var r := Run(Bash, h, fuel - 1, body, bound, io);
      if r.Done? {
        ForAgrees(h, fuel - 1, name, fields[1..], body, r.exit, names, r.sh, r.io);
      }
    }
  }

  lemma {:induction false} ExpandAgrees(h: Host, fuel: nat, ws: seq<Word>, names: set<string>, sh: State, io: Io)
    requires Known(h) && CleanWords(ws, names) && CleanFuncs(sh, names)
    ensures Expand(Bash, h, fuel, ws, sh, io) == Expand(Interp, h, fuel, ws, sh, io)
    decreases fuel
  {
    hide Known, Clean, CleanFuncs, Run;
    if fuel > 0 && ws != [] {
      assert ws[0].Subst? ==> ws[0].body in SubstBodies(ws);
      WordAgrees(h, fuel - 1, ws[0], names, sh, io);
      var r := ExpandWord(Bash, h, fuel - 1, ws[0], sh, io);
      if r.Fields? {
        ExpandAgrees(h, fuel - 1, ws[1..], names, sh, r.io);
      }
    }
  }

  lemma {:induction false} WordAgrees(h: Host, fuel: nat, w: Word, names: set<string>, sh: State, io: Io)
    requires Known(h) && (w.Subst? ==> Clean(w.body, false, names)) && CleanFuncs(sh, names)
    ensures ExpandWord(Bash, h, fuel, w, sh, io) == ExpandWord(Interp, h, fuel, w, sh, io)
    decreases fuel
  {
    if fuel > 0 && w.Subst? {
      RunAgrees(h, fuel - 1, w.body, names, sh, io);
    }
  }

  /**
   Soundness of the screen: from any state that holds no functions, a screened script whose final
   stages run outside the shell has one outcome under both engines, whatever the fuel.
   */
  lemma {:induction false} ScreenedScriptsAgree(h: Host, fuel: nat, file: seq<Stmt>, sh: State, io: Io)
    requires Known(h) && Screened(file) && sh.funcs == map[]
    requires forall y :: y in Finals(File(file), false) ==> Harmless(y, Declared(File(file)))
    ensures Run(Bash, h, fuel, File(file), sh, io) == Run(Interp, h, fuel, File(file), sh, io)
  {
    RunAgrees(h, fuel, File(file), Declared(File(file)), sh, io);
  }

  // ---- Fuel only decides whether a run finishes, never how ----

  lemma {:induction false} MoreFuel(e: Engine, h: Host, fuel: nat, s: Stmt, sh: State, io: Io)
    ensures Run(e, h, fuel, s, sh, io).Done? ==> Run(e, h, fuel + 1, s, sh, io) == Run(e, h, fuel, s, sh, io)
    decreases fuel, 0
  {
    if fuel > 0 {
      var o := if s.redirs == [] then Opened(true, false, io.stdin, io.world) else h.open(s.redirs, sh, io);
      if o.ok {
        MoreFuelCmd(e, h, fuel - 1, s.cmd, sh, Io(o.stdin, o.world));
      }
    }
  }

  lemma {:induction false} MoreFuelCmd(e: Engine, h: Host, fuel: nat, c: Cmd, sh: State, io: Io)
    ensures RunCmd(e, h, fuel, c, sh, io).Done? ==> RunCmd(e, h, fuel + 1, c, sh, io) == RunCmd(e, h, fuel, c, sh, io)
    decreases fuel
  {
    if fuel > 0 {
      var n := fuel - 1;
      match c {
        case Call(assigns, args) => MoreFuelCall(e, h, n, assigns, args, sh, io);
        case Decl(_) =>
        case Block(stmts) => MoreFuelSeq(e, h, n, stmts, sh, io);
        case Subshell(stmts) => MoreFuelSeq(e, h, n, stmts, sh, io);
        case If(cond, thn, els) =>
          MoreFuel(e, h, n, cond, sh, io);
          var r := Run(e, h, n, cond, sh, io);
          if r.Done? {
            MoreFuel(e, h, n, if r.exit == 0 then thn else els, r.sh, r.io);
          }
        case Loop(cond, body) => MoreFuelLoop(e, h, n, cond, body, 0, sh, io);
        case For(name, items, body) =>
          MoreFuelExpand(e, h, n, items, sh, io);
          var r := Expand(e, h, n, items, sh, io);
          if r.Fields? {
            MoreFuelFor(e, h, n, name, r.fields, body, 0, sh, r.io);
          }
        case FuncDecl(_, _) =>
        case And(x, y) => MoreFuelThen(e, h, n, x, y, sh, io);
        case Or(x, y) => MoreFuelThen(e, h, n, x, y, sh, io);
        case Pipe(_, x, y, all) =>
          MoreFuel(e, h, n, x, sh, io);
          var r := Run(e, h, n, x, sh, io);
          if r.Done? {
            MoreFuel(e, h, n, y, sh, Io(Piped(r.out, all), r.io.world));
          }
      }
    }
  }

  lemma {:induction false} MoreFuelThen(e: Engine, h: Host, fuel: nat, x: Stmt, y: Stmt, sh: State, io: Io)
    ensures
      var r := Run(e, h, fuel, x, sh, io);
      r.Done? ==>
        && Run(e, h, fuel + 1, x, sh, io) == r
        && (Run(e, h, fuel, y, r.sh, r.io).Done? ==> Run(e, h, fuel + 1, y, r.sh, r.io) == Run(e, h, fuel, y, r.sh, r.io))
    decreases fuel, 1
  {
    MoreFuel(e, h, fuel, x, sh, io);
    var r := Run(e, h, fuel, x, sh, io);
    if r.Done? {
      MoreFuel(e, h, fuel, y, r.sh, r.io);
    }
  }

  lemma {:induction false} MoreFuelCall(e: Engine, h: Host, fuel: nat, assigns: seq<nat>, args: seq<Word>, sh: State, io: Io)
    ensures RunCall(e, h, fuel, assigns, args, sh, io).Done? ==>
      RunCall(e, h, fuel + 1, assigns, args, sh, io) == RunCall(e, h, fuel, assigns, args, sh, io)
    decreases fuel
  {
    hide Run, Expand, InProcess;
    if fuel > 0 && args != [] {
      MoreFuelExpand(e, h, fuel - 1, args, sh, io);
      var r := Expand(e, h, fuel - 1, args, sh, io);
      if r.Fields? && r.fields != [] && r.fields[0] in sh.funcs {
        MoreFuel(e, h, fuel - 1, sh.funcs[r.fields[0]], sh.(vars := h.assign(assigns, sh), params := r.fields[1..]), r.io);
      }
    }
  }

  lemma {:induction false} MoreFuelSeq(e: Engine, h: Host, fuel: nat, ss: seq<Stmt>, sh: State, io: Io)
    ensures RunSeq(e, h, fuel, ss, sh, io).Done? ==> RunSeq(e, h, fuel + 1, ss, sh, io) == RunSeq(e, h, fuel, ss, sh, io)
    decreases fuel
  {
    if fuel > 0 && ss != [] {
      MoreFuel(e, h, fuel - 1, ss[0], sh, io);
      var r := Run(e, h, fuel - 1, ss[0], sh, io);
      if r.Done? {
        MoreFuelSeq(e, h, fuel - 1, ss[1..], r.sh, r.io);
      }
    }
  }

  lemma {:induction false} MoreFuelLoop(e: Engine, h: Host, fuel: nat, cond: Stmt, body: Stmt, last: int, sh: State, io: Io)
    ensures RunLoop(e, h, fuel, cond, body, last, sh, io).Done? ==>
      RunLoop(e, h, fuel + 1, cond, body, last, sh, io) == RunLoop(e, h, fuel, cond, body, last, sh, io)
    decreases fuel
  {
    hide Run, RunCmd;
    if fuel > 0 {
      MoreFuelThen(e, h, fuel - 1, cond, body, sh, io);
      var r := Run(e, h, fuel - 1, cond, sh, io);
      if r.Done? {
        var q := Run(e, h, fuel - 1, body, r.sh, r.io);
        if r.flow == Next && r.exit == 0 && q.Done? && !Leaves(q.flow) {
          MoreFuelLoop(e, h, fuel - 1, cond, body, q.exit, q.sh, q.io);
        }
      }
    }
  }

  lemma {:induction false} MoreFuelFor(e: Engine, h: Host, fuel: nat, name: string, fields: seq<string>, body: Stmt,
      last: int, sh: State, io: Io)
    ensures RunFor(e, h, fuel, name, fields, body, last, sh, io).Done? ==>
      RunFor(e, h, fuel + 1, name, fields, body, last, sh, io) == RunFor(e, h, fuel, name, fields, body, last, sh, io)
    decreases fuel
  {
    if fuel > 0 && fields != [] {
      var bound := sh.(vars := sh.vars[name := fields[0]]);
      MoreFuel(e, h, fuel - 1, body, bound, io);
      var r := Run(e, h, fuel - 1, body, bound, io);
      if r.Done? {
        MoreFuelFor(e, h, fuel - 1, name, fields[1..], body, r.exit, r.sh, r.io);
      }
    }
  }

  lemma {:induction false} MoreFuelExpand(e: Engine, h: Host, fuel: nat, ws: seq<Word>, sh: State, io: Io)
    ensures Expand(e, h, fuel, ws, sh, io).Fields? ==> Expand(e, h, fuel + 1, ws, sh, io) == Expand(e, h, fuel, ws, sh, io)
    decreases fuel
  {
    if fuel > 0 && ws != [] {
      MoreFuelWord(e, h, fuel - 1, ws[0], sh, io);
      var r := ExpandWord(e, h, fuel - 1, ws[0], sh, io);
      if r.Fields? {
        MoreFuelExpand(e, h, fuel - 1, ws[1..], sh, r.io);
      }
    }
  }

  lemma {:induction false} MoreFuelWord(e: Engine, h: Host, fuel: nat, w: Word, sh: State, io: Io)
    ensures ExpandWord(e, h, fuel, w, sh, io).Fields? ==> ExpandWord(e, h, fuel + 1, w, sh, io) == ExpandWord(e, h, fuel, w, sh, io)
    decreases fuel
  {
    if fuel > 0 && w.Subst? {
      MoreFuel(e, h, fuel - 1, w.body, sh, io);
    }
  }

  /** `file` run from `sh` finishes with `o`. */
  ghost predicate Finishes(e: Engine, h: Host, file: seq<Stmt>, sh: State, io: Io, o: Outcome)
  {
    o.Done? && exists fuel: nat :: Run(e, h, fuel, File(file), sh, io) == o
  }

  lemma {:induction false} FuelUpTo(e: Engine, h: Host, fuel: nat, more: nat, s: Stmt, sh: State, io: Io)
    requires Run(e, h, fuel, s, sh, io).Done?
    ensures Run(e, h, fuel + more, s, sh, io) == Run(e, h, fuel, s, sh, io)
    decreases more
  {
    if more > 0 {
      FuelUpTo(e, h, fuel, more - 1, s, sh, io);
      MoreFuel(e, h, fuel + more - 1, s, sh, io);
    }
  }

  /** A script has at most one final outcome under an engine. */
  lemma {:induction false} FinishesOnce(e: Engine, h: Host, file: seq<Stmt>, sh: State, io: Io, a: Outcome, b: Outcome)
    requires Finishes(e, h, file, sh, io, a) && Finishes(e, h, file, sh, io, b)
    ensures a == b
  {
    var m: nat :| Run(e, h, m, File(file), sh, io) == a;
    var n: nat :| Run(e, h, n, File(file), sh, io) == b;
    FuelUpTo(e, h, m, n, File(file), sh, io);
    FuelUpTo(e, h, n, m, File(file), sh, io);
    assert m + n == n + m;
  }

  /** The soundness theorem without fuel: routing a screened script to the interpreter changes no outcome. */
  lemma {:induction false} RoutingPreservesMeaning(h: Host, file: seq<Stmt>, sh: State, io: Io, bash: Outcome, interp: Outcome)
    requires Known(h) && Screened(file) && sh.funcs == map[]
    requires forall y :: y in Finals(File(file), false) ==> Harmless(y, Declared(File(file)))
    requires Finishes(Bash, h, file, sh, io, bash)
    ensures Finishes(Interp, h, file, sh, io, interp) <==> interp == bash
  {
    var n: nat :| Run(Bash, h, n, File(file), sh, io) == bash;
    ScreenedScriptsAgree(h, n, file, sh, io);
    assert Finishes(Interp, h, file, sh, io, bash);
    if Finishes(Interp, h, file, sh, io, interp) {
      FinishesOnce(Interp, h, file, sh, io, bash, interp);
    }
  }

  // ---- What goes wrong without each half of the condition ----

  /** A host whose `cd` changes the directory and whose other commands do nothing. */
  ghost function DemoHost(): Host
  {
    Host(
      (id: nat, sh: State) => [],
      (text: string) => [],
      (a: seq<nat>, sh: State) => sh.vars,
      (a: seq<nat>, before: map<string, string>, after: map<string, string>) => after,
      (id: nat, sh: State, io: Io) => InProcessResult(sh.cwd, sh.vars, sh.params, {}, io, [], 0, Next),
      (name: string) => Builtin(name),
      (name: string, args: seq<string>, sh: State, io: Io) =>
        InProcessResult(if name == "cd" && |args| == 1 then args[0] else sh.cwd, sh.vars, sh.params, {}, io, [], 0, Next),
      (fields: seq<string>, cwd: string, vars: map<string, string>, io: Io) => ExternalResult(io, [], 0),
      (r: seq<nat>, sh: State, io: Io) => Opened(true, false, io.stdin, io.world),
      (r: seq<nat>, sh: State, out: seq<Chunk>, w: World) => Closed(out, w))
  }

  /** The stage `HEAD /tmp`, where HEAD is spelt `raw` and expands to `cd`. */
  ghost function Cd(raw: string): Stmt
  {
    Stmt(false, [], Call([], [Lit(raw, "cd"), Lit("/tmp", "/tmp")]))
  }

  /** The script `X=1 | HEAD /tmp`. */
  ghost function PipeIntoCd(raw: string): seq<Stmt>
  {
    [Stmt(false, [], Pipe(0, Stmt(false, [], Call([], [])), Cd(raw), false))]
  }

  const DEMO_STATE := State("/", map[], [], map[], 0)
  const DEMO_IO := Io("", 0)

  lemma CdMayChange()
    ensures MayChange("cd")
  {
    TableIsExact("cd");
  }

  lemma DemoIsKnown()
    ensures Known(DemoHost())
  {
    CdMayChange();
    hide Builtin;
  }

  lemma CdRuns(e: Engine, raw: string)
    ensures Run(e, DemoHost(), 8, Cd(raw), DEMO_STATE, DEMO_IO) == Done(DEMO_STATE.(cwd := "/tmp"), DEMO_IO, [], 0, Next)
  {
    var h, ws := DemoHost(), Cd(raw).cmd.args;
    assert ws[1..] == [Lit("/tmp", "/tmp")] && ws[1..][1..] == [];
    assert Expand(e, h, 3, [], DEMO_STATE, DEMO_IO) == Fields([], DEMO_IO, []);
    assert Expand(e, h, 4, ws[1..], DEMO_STATE, DEMO_IO) == Fields(["/tmp"] + [], DEMO_IO, [] + []);
    assert Expand(e, h, 5, ws, DEMO_STATE, DEMO_IO) == Fields(["cd"] + ["/tmp"], DEMO_IO, []);
    assert (["cd"] + ["/tmp"])[1..] == ["/tmp"];
    CdMayChange();
    hide Builtin;
    assert DEMO_STATE.funcs - {} == map[];
    assert RunCall(e, h, 6, [], ws, DEMO_STATE, DEMO_IO) == Done(DEMO_STATE.(cwd := "/tmp"), DEMO_IO, [] + [], 0, Next);
  }

  lemma {:induction false} AssignOnly(e: Engine)
    ensures Run(e, DemoHost(), 8, Stmt(false, [], Call([], [])), DEMO_STATE, DEMO_IO) == Done(DEMO_STATE, DEMO_IO, [], 0, Next)
  {
    assert RunCmd(e, DemoHost(), 7, Call([], []), DEMO_STATE, DEMO_IO) == Done(DEMO_STATE, DEMO_IO, [], 0, Next);
  }

  lemma {:induction false} ThroughPipe(e: Engine, raw: string)
    ensures Run(e, DemoHost(), 10, PipeIntoCd(raw)[0], DEMO_STATE, DEMO_IO)
         == Done(DEMO_STATE.(cwd := if e == Bash then "/" else "/tmp"), DEMO_IO, [], 0, Next)
  {
    var h, pipe := DemoHost(), PipeIntoCd(raw)[0];
    assert RunCmd(e, h, 9, pipe.cmd, DEMO_STATE, DEMO_IO)
        == Done(DEMO_STATE.(cwd := if e == Bash then "/" else "/tmp"), DEMO_IO, [], 0, Next) by {
      hide Run, Cd, DemoHost;
      AssignOnly(e);
      CdRuns(e, raw);
      assert Piped([], false) == "" && Shown([], false) == [];
    }
  }

  /** An unscreened final stage really diverges: bash stays in `/`, the interpreter ends in `/tmp`. */
  lemma {:induction false} PipeIntoCdDiverges(raw: string)
    ensures Run(Bash, DemoHost(), 13, File(PipeIntoCd(raw)), DEMO_STATE, DEMO_IO)
         == Done(DEMO_STATE, DEMO_IO, [], 0, Next)
    ensures Run(Interp, DemoHost(), 13, File(PipeIntoCd(raw)), DEMO_STATE, DEMO_IO)
         == Done(DEMO_STATE.(cwd := "/tmp"), DEMO_IO, [], 0, Next)
  {
    ThroughPipe(Bash, raw);
    ThroughPipe(Interp, raw);
    assert RunSeq(Bash, DemoHost(), 11, PipeIntoCd(raw), DEMO_STATE, DEMO_IO).Done?;
    assert RunSeq(Interp, DemoHost(), 11, PipeIntoCd(raw), DEMO_STATE, DEMO_IO).Done?;
  }

  /**
   The screen reads the spelling of a head, not its meaning: the script `X=1 | \\cd /tmp` passes it and
   still diverges.
   */
  lemma {:induction false} BackslashedHeadSlipsThrough()
    ensures Screened(PipeIntoCd("\\cd"))
    ensures Run(Bash, DemoHost(), 13, File(PipeIntoCd("\\cd")), DEMO_STATE, DEMO_IO)
         != Run(Interp, DemoHost(), 13, File(PipeIntoCd("\\cd")), DEMO_STATE, DEMO_IO)
  {
    PipeIntoCdDiverges("\\cd");
    OneFinalStage("\\cd");
    if InProcess("\\cd") {
      NoBackslashInProcess("\\cd");
    }
  }

  lemma NoBackslashInProcess(name: string)
    requires InProcess(name)
    ensures name != "" && name[0] != '\\'
  {
  }

  lemma OneFinalStage(raw: string)
    ensures Finals(File(PipeIntoCd(raw)), false) == {Cd(raw)}
    ensures Declared(File(PipeIntoCd(raw))) == {}
  {
    var file := File(PipeIntoCd(raw));
    var pipe := Kids(file.cmd)[0];
    var x, y := Kids(pipe.cmd)[0], Kids(pipe.cmd)[1];
    assert y.cmd.args[1..][1..] == [] && SubstBodies(y.cmd.args[1..]) == [];
    assert Kids(x.cmd) == [] && Kids(y.cmd) == [];
    assert Finals(x, true) == {} && Finals(y, false) == {};
    assert Finals(pipe, false) == {y};
    assert Kids(file.cmd) == [pipe] && !LeftOfPipe(file.cmd, 0);
    assert Finals(file, false) == Finals(pipe, false) by {
      forall f | f in Finals(pipe, false) ensures f in Finals(file, false) {
        assert f in Finals(Kids(file.cmd)[0], LeftOfPipe(file.cmd, 0));
      }
    }
    assert Declared(pipe) == {};
  }

  // ---- The screen is exact ----

  ghost predicate Substless(ws: seq<Word>)
  {
    forall i :: 0 <= i < |ws| ==> !ws[i].Subst?
  }

  /** A simple command with a literal head and no command substitution. */
  ghost predicate LiteralCall(stage: Stmt)
  {
    stage.cmd.Call? && stage.cmd.args != [] && stage.cmd.args[0].Lit? && Substless(stage.cmd.args)
  }

  /** The pipeline `X=1 | STAGE`. */
  ghost function Behind(stage: Stmt): Stmt
  {
    Stmt(false, [], Pipe(0, Stmt(false, [], Call([], [])), stage, false))
  }

  /**
   A host whose builtins and declarations change the directory, whose assignments change a variable, whose
   words expand to `:`, and that never fails.
   */
  ghost function MovingHost(): Host
  {
    DemoHost().(
      expand := (id: nat, sh: State) => [":"],
      assign := (a: seq<nat>, sh: State) => sh.vars["X" := if "X" in sh.vars then sh.vars["X"] + "1" else "1"],
      restore := (a: seq<nat>, before: map<string, string>, after: map<string, string>) => before,
      decl := (id: nat, sh: State, io: Io) => InProcessResult(sh.cwd + "/", sh.vars, sh.params, {}, io, [], 0, Next),
      builtin := (name: string, args: seq<string>, sh: State, io: Io) =>
        InProcessResult(if Observer(name) then sh.cwd else sh.cwd + "/", sh.vars, sh.params, {}, io, [], 0, Next))
  }

  lemma MovingIsKnown()
    ensures Known(MovingHost())
  {
    hide Builtin, Observer;
  }

  /** A function that calls `:`. */
  const COLON := Stmt(false, [], Call([], [Lit(":", ":")]))

  /** What the first word of a call expands to there. */
  function Meaning(w: Word): string
  {
    if w.Lit? then w.value else ":"
  }

  lemma {:induction false} SubstlessExpands(e: Engine, fuel: nat, ws: seq<Word>, sh: State, io: Io)
    requires Substless(ws) && fuel > |ws|
    ensures
      var x := Expand(e, MovingHost(), fuel, ws, sh, io);
      x.Fields? && x.io == io && x.err == [] && (ws != [] ==> x.fields != [] && x.fields[0] == Meaning(ws[0]))
  {
    hide Run, Builtin, Observer;
    if ws != [] {
      SubstlessExpands(e, fuel - 1, ws[1..], sh, io);
    }
  }

  lemma {:induction false} NoSubstBodies(ws: seq<Word>)
    requires Substless(ws)
    ensures SubstBodies(ws) == []
  {
    if ws != [] {
      NoSubstBodies(ws[1..]);
    }
  }

  /** The final stages and declarations of `X=1 | STAGE`. */
  lemma {:induction false} BehindIsClean(stage: Stmt, names: set<string>)
    requires LiteralCall(stage) && !NeedsRealbash(stage, names) && Harmless(stage, names)
    ensures Clean(Behind(stage), false, names)
  {
    NoSubstBodies(stage.cmd.args);
    var pipe := Behind(stage);
    assert Kids(pipe.cmd)[1] == stage && Kids(stage.cmd) == [] && Kids(Kids(pipe.cmd)[0].cmd) == [];
  }

  lemma {:induction false} BuiltinMoves(e: Engine, fuel: nat, assigns: seq<nat>, args: seq<Word>, sh: State, io: Io)
    requires args != [] && Substless(args) && fuel > |args| + 1
    requires MayChange(Meaning(args[0])) && Meaning(args[0]) !in sh.funcs
    ensures
      var o := RunCall(e, MovingHost(), fuel, assigns, args, sh, io);
      o.Done? && o.sh.cwd == sh.cwd + "/" && o.out == [] && o.io == io && o.flow == Next
  {
    hide Run, Builtin, Observer, Meaning;
    SubstlessExpands(e, fuel - 1, args, sh, io);
    assert sh.funcs - {} == sh.funcs;
  }

  lemma ColonMayChange()
    ensures MayChange(":")
  {
    TableIsExact(":");
  }

  lemma {:induction false} ColonMoves(e: Engine, fuel: nat, sh: State, io: Io)
    requires ":" !in sh.funcs && fuel > 6
    ensures
      var o := Run(e, MovingHost(), fuel, COLON, sh, io);
      o.Done? && o.sh.cwd == sh.cwd + "/" && o.out == [] && o.io == io && o.flow == Next
  {
    ColonMayChange();
    hide Builtin, Observer, RunCall;
    BuiltinMoves(e, fuel - 2, [], COLON.cmd.args, sh, io);
    assert RunCmd(e, MovingHost(), fuel - 1, COLON.cmd, sh, io) == RunCall(e, MovingHost(), fuel - 2, [], COLON.cmd.args, sh, io);
  }

  /** The word names a builtin that may change the shell, or a function that calls one. */
  ghost predicate MovingHead(w: Word, sh: State)
  {
    var v := Meaning(w);
    if v in sh.funcs then sh.funcs[v] == COLON && ":" !in sh.funcs else MayChange(v)
  }

  lemma {:induction false} HeadMoves(e: Engine, fuel: nat, assigns: seq<nat>, args: seq<Word>, sh: State, io: Io)
    requires args != [] && Substless(args) && fuel > |args| + 8 && MovingHead(args[0], sh)
    ensures
      var o := RunCall(e, MovingHost(), fuel, assigns, args, sh, io);
      o.Done? && o.sh.cwd == sh.cwd + "/"
  {
    hide Run, Builtin, Observer, Expand, Meaning;
    if Meaning(args[0]) in sh.funcs {
      SubstlessExpands(e, fuel - 1, args, sh, io);
      var x := Expand(e, MovingHost(), fuel - 1, args, sh, io);
      ColonMoves(e, fuel - 1, sh.(vars := MovingHost().assign(assigns, sh), params := x.fields[1..]), io);
    } else {
      BuiltinMoves(e, fuel, assigns, args, sh, io);
    }
  }

  /** A stage that changes the shell that runs it: a declaration, a bare assignment, or a call with such a head. */
  ghost predicate Moves(stage: Stmt, sh: State)
  {
    match stage.cmd
    case Decl(_) => true
    case Call(_, args) => Substless(args) && (args != [] ==> MovingHead(args[0], sh))
    case _ => false
  }

  /** The command went through and left another directory or other variables. */
  ghost predicate Moved(sh: State, o: Outcome)
  {
    o.Done? && (o.sh.cwd != sh.cwd || o.sh.vars != sh.vars)
  }

  function Words(stage: Stmt): nat
  {
    if stage.cmd.Call? then |stage.cmd.args| else 0
  }

  lemma {:induction false} CommandMoves(e: Engine, fuel: nat, stage: Stmt, sh: State, io: Io)
    requires Moves(stage, sh) && fuel > Words(stage) + 9
    ensures Moved(sh, RunCmd(e, MovingHost(), fuel, stage.cmd, sh, io))
  {
    hide Builtin, Observer, Run, Expand;
    if stage.cmd.Call? && stage.cmd.args != [] {
      HeadMoves(e, fuel - 1, stage.cmd.assigns, stage.cmd.args, sh, io);
      hide RunCall;
    } else if stage.cmd.Call? {
      AssignMoves(stage.cmd.assigns, sh);
    }
  }

  lemma AssignMoves(assigns: seq<nat>, sh: State)
    ensures MovingHost().assign(assigns, sh) != sh.vars
  {
    var after := MovingHost().assign(assigns, sh);
    assert "X" in sh.vars ==> |after["X"]| == |sh.vars["X"]| + 1;
  }

  lemma {:induction false} StageMoves(e: Engine, fuel: nat, stage: Stmt, sh: State, io: Io)
    requires Moves(stage, sh) && fuel > Words(stage) + 10
    ensures Moved(sh, Run(e, MovingHost(), fuel, stage, sh, io))
  {
    hide Builtin, Observer, RunCmd, Moves;
    var h := MovingHost();
    var o := if stage.redirs == [] then Opened(true, false, io.stdin, io.world) else h.open(stage.redirs, sh, io);
    assert o.ok && o.stdin == io.stdin && o.world == io.world;
    assert Io(o.stdin, o.world) == io;
    CommandMoves(e, fuel - 1, stage, sh, io);
  }

  lemma {:induction false} PipeMoves(e: Engine, fuel: nat, stage: Stmt, sh: State)
    requires Moves(stage, sh) && fuel > Words(stage) + 11
    ensures
      var o := RunCmd(e, MovingHost(), fuel, Behind(stage).cmd, sh, DEMO_IO);
      if e == Bash then o.Done? && o.sh == sh else Moved(sh, o)
  {
    hide Run, MovingHost, Moves;
    NothingBefore(e, fuel - 1, sh);
    StageMoves(e, fuel - 1, stage, sh, DEMO_IO);
    assert Piped([], false) == "";
  }

  lemma {:induction false} EnginesPart(fuel: nat, stage: Stmt, sh: State)
    requires Moves(stage, sh) && fuel > Words(stage) + 12
    ensures Run(Bash, MovingHost(), fuel, Behind(stage), sh, DEMO_IO) != Run(Interp, MovingHost(), fuel, Behind(stage), sh, DEMO_IO)
  {
    hide RunCmd, MovingHost, Moves;
    PipeMoves(Bash, fuel - 1, stage, sh);
    PipeMoves(Interp, fuel - 1, stage, sh);
  }

  lemma NothingBefore(e: Engine, fuel: nat, sh: State)
    requires fuel > 2
    ensures
      var o := Run(e, MovingHost(), fuel, Stmt(false, [], Call([], [])), sh, DEMO_IO);
      o.Done? && o.io == DEMO_IO && o.out == []
  {
    var h := MovingHost();
    hide MovingHost, Builtin, Observer;
    assert RunCall(e, h, fuel - 2, [], [], sh, DEMO_IO) == Done(sh.(vars := h.assign([], sh)), DEMO_IO, [], 0, Next);
    assert RunCmd(e, h, fuel - 1, Call([], []), sh, DEMO_IO) == RunCall(e, h, fuel - 2, [], [], sh, DEMO_IO);
    assert Io(DEMO_IO.stdin, DEMO_IO.world) == DEMO_IO;
  }

  /** For every host, state, input and fuel the engines agree on `X=1 | STAGE`. */
  ghost predicate AlwaysAgree(stage: Stmt, names: set<string>)
  {
    forall h: Host, fuel: nat, sh: State, io: Io :: Known(h) && CleanFuncs(sh, names) ==>
      Run(Bash, h, fuel, Behind(stage), sh, io) == Run(Interp, h, fuel, Behind(stage), sh, io)
  }

  lemma CleanAgrees(stage: Stmt, names: set<string>)
    requires LiteralCall(stage) && !NeedsRealbash(stage, names) && Harmless(stage, names)
    ensures AlwaysAgree(stage, names)
  {
    BehindIsClean(stage, names);
    hide Run, NeedsRealbash, Harmless, Known, CleanFuncs;
    forall h: Host, fuel: nat, sh: State, io: Io | Known(h) && CleanFuncs(sh, names)
      ensures Run(Bash, h, fuel, Behind(stage), sh, io) == Run(Interp, h, fuel, Behind(stage), sh, io)
    {
      RunAgrees(h, fuel, Behind(stage), names, sh, io);
    }
  }

  lemma MovingParts(stage: Stmt, names: set<string>, sh: State)
    requires Moves(stage, sh) && CleanFuncs(sh, names)
    ensures !AlwaysAgree(stage, names)
  {
    hide Run, Moves, Known, CleanFuncs, MovingHost;
    MovingIsKnown();
    EnginesPart(Words(stage) + 13, stage, sh);
  }

  /** A state in which a call of that name changes the shell, if the name may, or is that of a declared function. */
  lemma HeadParts(stage: Stmt, names: set<string>)
    requires stage.cmd.Call? && stage.cmd.args != [] && Substless(stage.cmd.args)
    requires MayChange(Meaning(stage.cmd.args[0])) || Meaning(stage.cmd.args[0]) in names
    ensures !AlwaysAgree(stage, names)
  {
    hide Builtin, Observer, AlwaysAgree, Meaning;
    var v := Meaning(stage.cmd.args[0]);
    var sh := DEMO_STATE.(funcs := if MayChange(v) then map[] else map[v := COLON]);
    if !MayChange(v) {
      ColonIsClean(names);
    }
    MovingParts(stage, names, sh);
  }

  lemma ColonIsClean(names: set<string>)
    ensures Clean(COLON, false, names) && MayChange(":")
  {
    NoSubstBodies(COLON.cmd.args);
    assert Kids(COLON.cmd) == [];
    ColonMayChange();
  }

  /**
   For a literal head that the screen lets pass, what it expands to decides: the engines agree on
   `X=1 | STAGE` for every host, state and input if and only if that changes nothing in the shell.
   */
  lemma {:induction false} HarmlessIffAgrees(stage: Stmt, names: set<string>)
    requires LiteralCall(stage) && !NeedsRealbash(stage, names)
    ensures Harmless(stage, names) <==> AlwaysAgree(stage, names)
  {
    hide InProcess, MayChange, AlwaysAgree;
    if Harmless(stage, names) {
      CleanAgrees(stage, names);
    } else {
      HeadParts(stage, names);
    }
  }

  /**
   A stage without command substitution that is a declaration, a bare assignment, or a call whose head is
   dynamic or spelt as it expands; no word is spelt with nothing.
   */
  ghost predicate Honest(stage: Stmt)
  {
    match stage.cmd
    case Decl(_) => true
    case Call(_, args) =>
      Substless(args) && (args != [] && args[0].Lit? ==> args[0].raw == args[0].value != "")
    case _ => false
  }

  /**
   The screen is exact on such stages: it lets one pass if and only if the engines agree on a pipe into it,
   for every host, state and input.
   */
  lemma {:induction false} VerdictIffAgrees(stage: Stmt, names: set<string>)
    requires Honest(stage)
    ensures !NeedsRealbash(stage, names) <==> AlwaysAgree(stage, names)
  {
    hide InProcess, MayChange, AlwaysAgree, CleanFuncs;
    if !NeedsRealbash(stage, names) {
      CleanAgrees(stage, names);
    } else if stage.cmd.Call? && stage.cmd.args != [] {
      if stage.cmd.args[0].Lit? {
        TableIsExact(stage.cmd.args[0].raw);
      } else {
        ColonMayChange();
      }
      HeadParts(stage, names);
    } else {
      NoFuncs(names);
      MovingParts(stage, names, DEMO_STATE);
    }
  }

  lemma NoFuncs(names: set<string>)
    ensures CleanFuncs(DEMO_STATE, names)
  {
  }

  // ---- A pipeline is judged by its end ----

  /** `A | B | C`, associated to the left. */
  ghost function Chain(stages: seq<Stmt>): Stmt
    requires stages != []
  {
    var n := |stages| - 1;
    if n == 0 then stages[0] else Stmt(false, [], Pipe(n, Chain(stages[..n]), stages[n], false))
  }

  /** Simple commands without command substitution. */
  ghost predicate PlainCalls(stages: seq<Stmt>)
  {
    forall i :: 0 <= i < |stages| ==> stages[i].cmd.Call? && Substless(stages[i].cmd.args)
  }

  lemma PlainCall(stage: Stmt, covered: bool)
    requires stage.cmd.Call? && Substless(stage.cmd.args)
    ensures Finals(stage, covered) == {} && Declared(stage) == {}
  {
    NoSubstBodies(stage.cmd.args);
  }

  lemma PipeFinals(pipe: Stmt, covered: bool)
    requires pipe.cmd.Pipe? && Finals(pipe.cmd.x, true) == {} && Finals(pipe.cmd.y, false) == {}
    requires Declared(pipe.cmd.x) == {} && Declared(pipe.cmd.y) == {}
    ensures Finals(pipe, covered) == (if covered then {} else {pipe.cmd.y}) && Declared(pipe) == {}
  {
    assert Kids(pipe.cmd) == [pipe.cmd.x, pipe.cmd.y];
  }

  lemma {:induction false} ChainFinals(stages: seq<Stmt>, covered: bool)
    requires stages != [] && PlainCalls(stages)
    ensures Finals(Chain(stages), covered) == if covered || |stages| == 1 then {} else {stages[|stages| - 1]}
    ensures Declared(Chain(stages)) == {}
  {
    hide Finals, Declared, Kids;
    var n := |stages| - 1;
    PlainCall(stages[n], covered);
    PlainCall(stages[n], false);
    if n > 0 {
      ChainFinals(stages[..n], true);
      PipeFinals(Chain(stages), covered);
    }
  }

  lemma OneStatement(s: Stmt)
    ensures Finals(File([s]), false) == Finals(s, false) && Declared(File([s])) == Declared(s)
  {
    var file := File([s]);
    assert Kids(file.cmd)[0] == s && !LeftOfPipe(file.cmd, 0);
    forall f | f in Finals(s, false) ensures f in Finals(file, false) {
      assert f in Finals(Kids(file.cmd)[0], LeftOfPipe(file.cmd, 0));
    }
    forall f | f in Declared(s) ensures f in Declared(file) {
      assert f in Declared(Kids(file.cmd)[0]);
    }
  }

  /** Of a pipeline of such commands the screen looks at the last one and at no other. */
  lemma {:induction false} JudgedByItsEnd(stages: seq<Stmt>)
    requires |stages| > 1 && PlainCalls(stages)
    ensures Screened([Chain(stages)]) <==> !NeedsRealbash(stages[|stages| - 1], {})
  {
    hide NeedsRealbash, Finals, Declared, Chain;
    ChainFinals(stages, false);
    OneStatement(Chain(stages));
  }
}
