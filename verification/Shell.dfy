/**
 A fragment of the shell language and its two execution engines.

 Bash runs every stage of a pipeline on a copy of the shell state. The mvdan/sh interpreter runs
 the last stage on the live state. Nothing else differs, so one evaluator takes the engine as a
 parameter and consults it in the pipe rule alone.

 Words expand by pure functions of the shell state, except command substitution, which runs its
 body on a copy in both engines. Programs outside the shell are uninterpreted functions collected
 in a `Host`. Fuel bounds the depth of the evaluation; `Stuck` means it ran out.
 */
module Shell {

  datatype Engine = Bash | Interp

  /** `Lit.raw` is the spelling the parser reports for an unquoted literal word; `value` is what it expands to. */
  datatype Word =
    | Lit(raw: string, value: string)
    | Dynamic(id: nat)
    | Subst(body: Stmt)

  datatype Stmt = Stmt(negated: bool, redirs: seq<nat>, cmd: Cmd)

  datatype Cmd =
    | Call(assigns: seq<nat>, args: seq<Word>)
    | Decl(id: nat)
    | Block(stmts: seq<Stmt>)
    | Subshell(stmts: seq<Stmt>)
    | If(cond: Stmt, thn: Stmt, els: Stmt)
    | Loop(cond: Stmt, body: Stmt)
    | For(name: string, items: seq<Word>, body: Stmt)
    | FuncDecl(name: string, body: Stmt)
    | And(x: Stmt, y: Stmt)
    | Or(x: Stmt, y: Stmt)
    | Pipe(id: nat, x: Stmt, y: Stmt, all: bool)

  /** What a subshell copies. */
  datatype State = State(
    cwd: string,
    vars: map<string, string>,
    params: seq<string>,
    funcs: map<string, Stmt>,
    status: int)

  /** An uninterpreted handle for everything outside the shell: files, processes, the clock. */
  type World = nat

  /** What subshells share with their parent. */
  datatype Io = Io(stdin: string, world: World)

  datatype Chunk = Chunk(fd: nat, text: string)

  datatype Flow = Next | Break(levels: nat) | Continue(levels: nat) | Return | Exit

  datatype Outcome = Stuck | Done(sh: State, io: Io, out: seq<Chunk>, exit: int, flow: Flow)

  datatype Expansion = NoFuel | Fields(fields: seq<string>, io: Io, err: seq<Chunk>)

  datatype Opened = Opened(ok: bool, replacesStdin: bool, stdin: string, world: World)

  datatype Closed = Closed(out: seq<Chunk>, world: World)

  datatype InProcessResult = InProcessResult(
    cwd: string, vars: map<string, string>, params: seq<string>, unset: set<string>,
    io: Io, out: seq<Chunk>, exit: int, flow: Flow)

  datatype ExternalResult = ExternalResult(io: Io, out: seq<Chunk>, exit: int)

  datatype Host = Host(
    expand: (nat, State) -> seq<string>,
    split: string -> seq<string>,
    assign: (seq<nat>, State) -> map<string, string>,
    restore: (seq<nat>, map<string, string>, map<string, string>) -> map<string, string>,
    decl: (nat, State, Io) -> InProcessResult,
    inShell: string -> bool,
    builtin: (string, seq<string>, State, Io) -> InProcessResult,
    external: (seq<string>, string, map<string, string>, Io) -> ExternalResult,
    open: (seq<nat>, State, Io) -> Opened,
    close: (seq<nat>, State, seq<Chunk>, World) -> Closed)

  /**
   The builtins of bash 5.2 in the order of its manual, and the keyword `[[`. What a host runs inside the shell
   process is among them.
   */
  predicate Builtin(name: string)
  {
    name in {
      ".", ":", "[", "alias", "bg", "bind", "break", "builtin", "caller", "cd", "command", "compgen", "complete",
      "compopt", "continue", "declare", "dirs", "disown", "echo", "enable", "eval", "exec", "exit", "export", "false",
      "fc", "fg", "getopts", "hash", "help", "history", "jobs", "kill", "let", "local", "logout", "mapfile", "popd",
      "printf", "pushd", "pwd", "read", "readarray", "readonly", "return", "set", "shift", "shopt", "source", "suspend",
      "test", "times", "trap", "true", "type", "typeset", "ulimit", "umask", "unalias", "unset", "wait", "[["}
  }

  /** Those that leave directory, variables, parameters, functions and control flow as they are, whatever their arguments. */
  predicate Observer(name: string)
  {
    name in {"compopt", "help", "pwd"}
  }

  /** A builtin that may change the state of the shell that runs it. */
  predicate MayChange(name: string)
  {
    Builtin(name) && !Observer(name)
  }

  /** The host runs builtins and nothing else inside the shell, and the observers among them change nothing there. */
  ghost predicate Known(h: Host)
  {
    && (forall name :: h.inShell(name) ==> Builtin(name))
    && (forall name, assigns, args, sh: State, io: Io {:trigger h.builtin(name, args, sh.(vars := h.assign(assigns, sh)), io)} ::
          Observer(name) ==> Observes(h, assigns, sh, h.builtin(name, args, sh.(vars := h.assign(assigns, sh)), io)))
  }

  ghost predicate Observes(h: Host, assigns: seq<nat>, sh: State, r: InProcessResult)
  {
    && r.cwd == sh.cwd && r.params == sh.params && r.unset == {} && r.flow == Next
    && h.restore(assigns, sh.vars, r.vars) == sh.vars
  }

  /** The bytes a pipe carries: stdout, and stderr too for `|&`. */
  function Piped(out: seq<Chunk>, all: bool): string
  {
    if out == [] then ""
    else (if all || out[0].fd == 1 then out[0].text else "") + Piped(out[1..], all)
  }

  /** What the left stage still shows: everything the pipe does not carry. */
  function Shown(out: seq<Chunk>, all: bool): seq<Chunk>
  {
    if out == [] then []
    else (if all || out[0].fd == 1 then [] else [out[0]]) + Shown(out[1..], all)
  }

  function Prepend(out: seq<Chunk>, o: Outcome): Outcome
  {
    if o.Stuck? then o else o.(out := out + o.out)
  }

  function Absorb(sh: State, r: InProcessResult): Outcome
  {
    Done(State(r.cwd, r.vars, r.params, sh.funcs - r.unset, sh.status), r.io, r.out, r.exit, r.flow)
  }

  /** One statement: redirections around a command, an optional `!`, and `$?` updated. */
  function Run(e: Engine, h: Host, fuel: nat, s: Stmt, sh: State, io: Io): Outcome
    decreases fuel
  {
    if fuel == 0 then Stuck
    else
      var o := if s.redirs == [] then Opened(true, false, io.stdin, io.world) else h.open(s.redirs, sh, io);
      if !o.ok then Done(sh.(status := 1), Io(io.stdin, o.world), [], 1, Next)
      else
        match RunCmd(e, h, fuel - 1, s.cmd, sh, Io(o.stdin, o.world))
        case Stuck => Stuck
        case Done(sh1, io1, out1, exit1, flow1) =>
          var c := if s.redirs == [] then Closed(out1, io1.world) else h.close(s.redirs, sh, out1, io1.world);
          var exit := if s.negated then (if exit1 == 0 then 1 else 0) else exit1;
          Done(sh1.(status := exit), Io(if o.replacesStdin then io.stdin else io1.stdin, c.world), c.out, exit, flow1)
  }

  function RunCmd(e: Engine, h: Host, fuel: nat, c: Cmd, sh: State, io: Io): Outcome
    decreases fuel
  {
    if fuel == 0 then Stuck
    else
      match c
      case Call(assigns, args) => RunCall(e, h, fuel - 1, assigns, args, sh, io)
      case Decl(id) => Absorb(sh, h.decl(id, sh, io))
      case Block(body) => RunSeq(e, h, fuel - 1, body, sh, io)
      case Subshell(body) =>
        (match RunSeq(e, h, fuel - 1, body, sh, io)
         case Stuck => Stuck
         case Done(_, io1, out1, exit1, _) => Done(sh, io1, out1, exit1, Next))
      case If(cond, thn, els) =>
        (match Run(e, h, fuel - 1, cond, sh, io)
         case Stuck => Stuck
         case Done(sh1, io1, out1, exit1, flow1) =>
           if flow1 != Next then Done(sh1, io1, out1, exit1, flow1)
           else Prepend(out1, Run(e, h, fuel - 1, if exit1 == 0 then thn else els, sh1, io1)))
      case Loop(cond, body) => RunLoop(e, h, fuel - 1, cond, body, 0, sh, io)
      case For(name, items, body) =>
        (match Expand(e, h, fuel - 1, items, sh, io)
         case NoFuel => Stuck
         case Fields(fields, io1, err) => Prepend(err, RunFor(e, h, fuel - 1, name, fields, body, 0, sh, io1)))
      case FuncDecl(name, body) =>
        // The parser never yields an empty name.
        Done(if name == "" then sh else sh.(funcs := sh.funcs[name := body]), io, [], 0, Next)
      case And(x, y) =>
        (match Run(e, h, fuel - 1, x, sh, io)
         case Stuck => Stuck
         case Done(sh1, io1, out1, exit1, flow1) =>
           if flow1 != Next || exit1 != 0 then Done(sh1, io1, out1, exit1, flow1)
           else Prepend(out1, Run(e, h, fuel - 1, y, sh1, io1)))
      case Or(x, y) =>
        (match Run(e, h, fuel - 1, x, sh, io)
         case Stuck => Stuck
         case Done(sh1, io1, out1, exit1, flow1) =>
           if flow1 != Next || exit1 == 0 then Done(sh1, io1, out1, exit1, flow1)
           else Prepend(out1, Run(e, h, fuel - 1, y, sh1, io1)))
      case Pipe(_, x, y, all) =>
        (match Run(e, h, fuel - 1, x, sh, io)
         case Stuck => Stuck
         case Done(_, ioX, outX, _, _) =>
           match Run(e, h, fuel - 1, y, sh, Io(Piped(outX, all), ioX.world))
           case Stuck => Stuck
           case Done(shY, ioY, outY, exitY, flowY) =>
             // The only rule that looks at the engine: does the last stage keep its own state?
             match e
             case Bash => Done(sh, Io(ioX.stdin, ioY.world), Shown(outX, all) + outY, exitY, Next)
             case Interp => Done(shY, Io(ioX.stdin, ioY.world), Shown(outX, all) + outY, exitY, flowY))
  }

  predicate Leaves(flow: Flow)
  {
    match flow
    case Next => false
    case Continue(levels) => levels > 1
    case _ => true
  }

  function AfterLoop(flow: Flow): Flow
  {
    match flow
    case Break(levels) => if levels > 1 then Break(levels - 1) else Next
    case Continue(levels) => if levels > 1 then Continue(levels - 1) else Next
    case _ => flow
  }

  /** A simple command: functions shadow builtins, every other name is a program, and assignments before any are undone. */
  function RunCall(e: Engine, h: Host, fuel: nat, assigns: seq<nat>, args: seq<Word>, sh: State, io: Io): Outcome
    decreases fuel
  {
    if fuel == 0 then Stuck
    else if args == [] then Done(sh.(vars := h.assign(assigns, sh)), io, [], 0, Next)
    else
      match Expand(e, h, fuel - 1, args, sh, io)
      case NoFuel => Stuck
      case Fields(fields, io1, err) =>
        if fields == [] then Done(sh, io1, err, 0, Next)
        else
          var scoped := sh.(vars := h.assign(assigns, sh));
          if fields[0] in sh.funcs then
            match Run(e, h, fuel - 1, sh.funcs[fields[0]], scoped.(params := fields[1..]), io1)
            case Stuck => Stuck
            case Done(sh2, io2, out2, exit2, flow2) =>
              Done(sh2.(params := sh.params, vars := h.restore(assigns, sh.vars, sh2.vars)), io2, err + out2, exit2,
                   if flow2.Return? then Next else flow2)
          else if h.inShell(fields[0]) then
            var r := h.builtin(fields[0], fields[1..], scoped, io1);
            Prepend(err, Absorb(sh, r.(vars := h.restore(assigns, sh.vars, r.vars))))
          else
            var x := h.external(fields, sh.cwd, scoped.vars, io1);
            Done(sh, x.io, err + x.out, x.exit, Next)
  }

  function RunSeq(e: Engine, h: Host, fuel: nat, ss: seq<Stmt>, sh: State, io: Io): Outcome
    decreases fuel
  {
    if fuel == 0 then Stuck
    else if ss == [] then Done(sh, io, [], 0, Next)
    else if |ss| == 1 then Run(e, h, fuel - 1, ss[0], sh, io)
    else
      match Run(e, h, fuel - 1, ss[0], sh, io)
      case Stuck => Stuck
      case Done(sh1, io1, out1, exit1, flow1) =>
        if flow1 != Next then Done(sh1, io1, out1, exit1, flow1)
        else Prepend(out1, RunSeq(e, h, fuel - 1, ss[1..], sh1, io1))
  }

  /** `while`: the exit status is that of the last body that ran, 0 if none did. */
  function RunLoop(e: Engine, h: Host, fuel: nat, cond: Stmt, body: Stmt, last: int, sh: State, io: Io): Outcome
    decreases fuel
  {
    if fuel == 0 then Stuck
    else
      match Run(e, h, fuel - 1, cond, sh, io)
      case Stuck => Stuck
      case Done(sh1, io1, out1, exit1, flow1) =>
        if flow1 != Next then Done(sh1, io1, out1, exit1, AfterLoop(flow1))
        else if exit1 != 0 then Done(sh1, io1, out1, last, Next)
        else
          match Run(e, h, fuel - 1, body, sh1, io1)
          case Stuck => Stuck
          case Done(sh2, io2, out2, exit2, flow2) =>
            if Leaves(flow2) then Done(sh2, io2, out1 + out2, exit2, AfterLoop(flow2))
            else Prepend(out1 + out2, RunLoop(e, h, fuel - 1, cond, body, exit2, sh2, io2))
  }

  function RunFor(e: Engine, h: Host, fuel: nat, name: string, fields: seq<string>, body: Stmt, last: int, sh: State, io: Io): Outcome
    decreases fuel
  {
    if fuel == 0 then Stuck
    else if fields == [] then Done(sh, io, [], last, Next)
    else
      match Run(e, h, fuel - 1, body, sh.(vars := sh.vars[name := fields[0]]), io)
      case Stuck => Stuck
      case Done(sh1, io1, out1, exit1, flow1) =>
        if Leaves(flow1) then Done(sh1, io1, out1, exit1, AfterLoop(flow1))
        else Prepend(out1, RunFor(e, h, fuel - 1, name, fields[1..], body, exit1, sh1, io1))
  }

  /** One word; a substitution runs on a copy, keeps its stderr and shares stdin and the world. */
  function ExpandWord(e: Engine, h: Host, fuel: nat, w: Word, sh: State, io: Io): Expansion
    decreases fuel
  {
    match w
    case Lit(_, value) => Fields([value], io, [])
    case Dynamic(id) => Fields(h.expand(id, sh), io, [])
    case Subst(body) =>
      if fuel == 0 then NoFuel
      else
        match Run(e, h, fuel - 1, body, sh, io)
        case Stuck => NoFuel
        case Done(_, io1, out1, _, _) => Fields(h.split(Piped(out1, false)), io1, Shown(out1, false))
  }

  function Expand(e: Engine, h: Host, fuel: nat, ws: seq<Word>, sh: State, io: Io): Expansion
    decreases fuel
  {
    if fuel == 0 then NoFuel
    else if ws == [] then Fields([], io, [])
    else
      match ExpandWord(e, h, fuel - 1, ws[0], sh, io)
      case NoFuel => NoFuel
      case Fields(fields1, io1, err1) =>
        match Expand(e, h, fuel - 1, ws[1..], sh, io1)
        case NoFuel => NoFuel
        case Fields(fields2, io2, err2) => Fields(fields1 + fields2, io2, err1 + err2)
  }
}
