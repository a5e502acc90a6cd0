/** The token parser of waf-tools/shellcmd.py: a six-state loop that accepts exactly the command
    lines of the surface syntax and builds the pipeline they stand for. */
module ShellParse {
  import opened Common
  import opened Shell
  import ShellRun

  datatype Mode = BEGIN | COMMAND | CHDIR | STDERR | STDOUT | STDIN

  datatype ParseState = ParseState(mode: Mode, current: Option<Node>, env: map<string, string>, nodes: seq<Node>)

  const START := ParseState(BEGIN, None, map[], [])

  ghost predicate Busy(s: ParseState) {
    match s.mode
    case BEGIN => s.current.None?
    case CHDIR => s.current.Some? && s.current.value.Chdir? && s.env == map[]
    case _ => s.current.Some? && s.current.value.Cmd? && s.env == map[]
  }

  ghost function Append(s: ParseState, node: Node, op: Node): ParseState {
    ParseState(BEGIN, None, map[], s.nodes + [node, op])
  }

  ghost function WithCommand(s: ParseState, mode: Mode, c: Command): ParseState {
    s.(mode := mode, current := Some(Cmd(c)))
  }

  /** One token; None where an assertion of the parser fails. */
  ghost function ReadToken(s: ParseState, token: string): Option<ParseState>
    requires Busy(s)
    ensures ReadToken(s, token).Some? ==> Busy(ReadToken(s, token).value)
  {
    match s.mode
    case BEGIN =>
      if IsAssignment(token) then
        Some(s.(env := s.env[AssignedName(token) := AssignedValue(token)]))
      else if token == "cd" then
        if s.env == map[] then Some(s.(mode := CHDIR, current := Some(Chdir(None)))) else None
      else
        Some(ParseState(COMMAND, Some(Cmd(NewCommand(token, s.env))), map[], s.nodes))
    case COMMAND =>
      var c := s.current.value.command;
      if token == ">" then Some(s.(mode := STDOUT))
      else if token == "2>" then Some(s.(mode := STDERR))
      else if token == "2>&1" then
        if c.stderr.StderrNone? then Some(WithCommand(s, COMMAND, c.(stderr := StderrToStdout))) else None
      else if token == "<" then Some(s.(mode := STDIN))
      else if token == "|" then
        if c.stdout.StdoutNone? then Some(Append(s, Cmd(c.(stdout := StdoutPipe)), Pipe)) else None
      else if token == "&&" then Some(Append(s, Cmd(c), And))
      else if token == "||" then Some(Append(s, Cmd(c), Or))
      else Some(WithCommand(s, COMMAND, c.(argv := c.argv + [token])))
    case CHDIR =>
      if token == "&&" then Some(Append(s, s.current.value, And))
      else if s.current.value.dir.None? then Some(s.(current := Some(Chdir(Some(token))))) else None
    case STDOUT =>
      var c := s.current.value.command;
      if c.stdout.StdoutNone? then Some(WithCommand(s, COMMAND, c.(stdout := StdoutFile(token)))) else None
    case STDERR =>
      var c := s.current.value.command;
      if c.stderr.StderrNone? then Some(WithCommand(s, COMMAND, c.(stderr := StderrFile(token)))) else None
    case STDIN =>
      var c := s.current.value.command;
      if c.stdin.None? then Some(WithCommand(s, COMMAND, c.(stdin := Some(token)))) else None
  }

  /** The rest of the tokens; None where an assertion fails. */
  ghost function ReadAll(s: ParseState, tokens: seq<string>): Option<seq<Node>>
    requires Busy(s)
    decreases |tokens|
  {
    if tokens == [] then
      if s.current.Some? then Some(s.nodes + [s.current.value]) else None
    else
      match ReadToken(s, tokens[0])
      case None => None
      case Some(t) => ReadAll(t, tokens[1..])
  }

  /** The state a failing token leaves behind. */
  ghost function FailState(s: ParseState, token: string): ParseState
    requires Busy(s) && ReadToken(s, token).None?
  {
    if s.mode == BEGIN then s.(current := Some(Chdir(None))) else s
  }

  /** What a failing parse leaves in the two fields. */
  ghost function LeftBy(s: ParseState, tokens: seq<string>): (Option<Node>, seq<Node>)
    requires Busy(s) && ReadAll(s, tokens).None?
    decreases |tokens|
  {
    if tokens == [] then (None, s.nodes)
    else if ReadToken(s, tokens[0]).None? then
      (FailState(s, tokens[0]).current, s.nodes)
    else LeftBy(ReadToken(s, tokens[0]).value, tokens[1..])
  }

  /** Only pairs of a node and an operator have been stored, and no command waits with a pipe. */
  ghost predicate Paired(s: ParseState) {
    && Runnable(s.nodes) && |s.nodes| % 2 == 0
    && (s.current.Some? && s.current.value.Cmd? ==> !s.current.value.command.stdout.StdoutPipe?)
  }

  lemma ReadKeepsPairs(s: ParseState, token: string)
    requires Busy(s) && Paired(s) && ReadToken(s, token).Some?
    ensures Paired(ReadToken(s, token).value)
  {
    var t := ReadToken(s, token).value;
    if t.nodes != s.nodes {
      var n := |s.nodes|;
      assert t.nodes == s.nodes + [t.nodes[n], t.nodes[n + 1]];
      RunnableMore(s.nodes, t.nodes[n], t.nodes[n + 1]);
    }
  }

  class Pipeline {
    var currentCommand: Option<Node>
    var pipeline: seq<Node>

    ghost predicate Valid()
      reads this
    {
      Runnable(pipeline)
    }

    constructor ()
      ensures currentCommand == None && pipeline == [] && Valid()
    {
      currentCommand, pipeline := None, [];
    }

    method CommitCommand() returns (ok: bool)
      modifies this
      ensures ok <==> old(currentCommand).Some?
      ensures ok ==> pipeline == old(pipeline) + [old(currentCommand).value] && currentCommand == None
      ensures !ok ==> pipeline == old(pipeline) && currentCommand == old(currentCommand)
    {
      ok := currentCommand.Some?;
      if ok {
        pipeline := pipeline + [currentCommand.value];
        currentCommand := None;
      }
    }

    /** False stands for a failed assertion; on true the pipeline field is the result. */
    method Parse(tokens: seq<string>) returns (ok: bool)
      modifies this
      ensures Valid() && (ok <==> ReadAll(START, tokens).Some?)
      ensures ok ==> ReadAll(START, tokens) == Some(pipeline) && currentCommand == None
      ensures !ok ==> (currentCommand, pipeline) == LeftBy(START, tokens)
    {
      currentCommand, pipeline := None, [];
      var state, envVars := BEGIN, map[];
      var rest := tokens;
      while rest != []
        invariant Busy(ParseState(state, currentCommand, envVars, pipeline))
        invariant Paired(ParseState(state, currentCommand, envVars, pipeline))
        invariant ReadAll(ParseState(state, currentCommand, envVars, pipeline), rest) == ReadAll(START, tokens)
        invariant ReadAll(START, tokens).None? ==>
          LeftBy(ParseState(state, currentCommand, envVars, pipeline), rest) == LeftBy(START, tokens)
        decreases |rest|
      {
        var token := rest[0];
        rest := rest[1..];
        ghost var before := ParseState(state, currentCommand, envVars, pipeline);
        ok, state, envVars := ParseToken(state, envVars, token);
        if ok { ReadKeepsPairs(before, token); }
        if !ok {
          return false;
        }
      }
      ok := CommitCommand();
      if ok {
        ParsedWellFormed(tokens, pipeline);
        WellFormedRuns(pipeline);
      }
    }

    /** Runs the stored pipeline, whose fields it leaves alone. */
    method Run(exits: nat -> int, around: ShellRun.Surroundings)
      returns (outcome: ShellRun.Outcome, world: ShellRun.World)
      requires Valid()
      ensures
        (outcome, world) == ShellRun.Meaning(ShellRun.Reading(pipeline), ShellRun.Beginning(around), [], [], ".", exits)
    {
      outcome, world := ShellRun.RunNodes(pipeline, exits, around);
    }

    /** The body of the parse loop. */
    method ParseToken(state0: Mode, env0: map<string, string>, token: string)
      returns (ok: bool, state: Mode, envVars: map<string, string>)
      requires Busy(ParseState(state0, currentCommand, env0, pipeline))
      modifies this
      ensures ok <==> ReadToken(ParseState(state0, old(currentCommand), env0, old(pipeline)), token).Some?
      ensures ok ==>
        ReadToken(ParseState(state0, old(currentCommand), env0, old(pipeline)), token)
        == Some(ParseState(state, currentCommand, envVars, pipeline))
      ensures !ok ==> pipeline == old(pipeline)
      ensures !ok ==>
        currentCommand == FailState(ParseState(state0, old(currentCommand), env0, old(pipeline)), token).current
    {
      state, envVars, ok := state0, env0, true;
      match state {
        case BEGIN =>
          if IsAssignment(token) {
            envVars := envVars[AssignedName(token) := AssignedValue(token)];
          } else if token == "cd" {
            currentCommand := Some(Chdir(None));
            if envVars != map[] {
              return false, state, envVars;
            }
            state := CHDIR;
          } else {
            currentCommand := Some(Cmd(NewCommand(token, envVars)));
            envVars := map[];
            state := COMMAND;
          }
        case COMMAND =>
          var c := currentCommand.value.command;
          if token == ">" {
            state := STDOUT;
          } else if token == "2>" {
            state := STDERR;
          } else if token == "2>&1" {
            if !c.stderr.StderrNone? {
              return false, state, envVars;
            }
            currentCommand := Some(Cmd(c.(stderr := StderrToStdout)));
          } else if token == "<" {
            state := STDIN;
          } else if token == "|" {
            if !c.stdout.StdoutNone? {
              return false, state, envVars;
            }
            currentCommand := Some(Cmd(c.(stdout := StdoutPipe)));
            var _ := CommitCommand();
            pipeline := pipeline + [Pipe];
            assert pipeline == old(pipeline) + [pipeline[|pipeline| - 2], Pipe];
            state := BEGIN;
          } else if token == "&&" {
            var _ := CommitCommand();
            pipeline := pipeline + [And];
            assert pipeline == old(pipeline) + [pipeline[|pipeline| - 2], And];
            state := BEGIN;
          } else if token == "||" {
            var _ := CommitCommand();
            pipeline := pipeline + [Or];
            assert pipeline == old(pipeline) + [pipeline[|pipeline| - 2], Or];
            state := BEGIN;
          } else {
            currentCommand := Some(Cmd(c.(argv := c.argv + [token])));
          }
        case CHDIR =>
          if token == "&&" {
            var _ := CommitCommand();
            pipeline := pipeline + [And];
            assert pipeline == old(pipeline) + [pipeline[|pipeline| - 2], And];
            state := BEGIN;
          } else {
            if currentCommand.value.dir.Some? {
              return false, state, envVars;
            }
            currentCommand := Some(Chdir(Some(token)));
          }
        case STDOUT =>
          var c := currentCommand.value.command;
          if !c.stdout.StdoutNone? {
            return false, state, envVars;
          }
          currentCommand := Some(Cmd(c.(stdout := StdoutFile(token))));
          state := COMMAND;
        case STDERR =>
          var c := currentCommand.value.command;
          if !c.stderr.StderrNone? {
            return false, state, envVars;
          }
          currentCommand := Some(Cmd(c.(stderr := StderrFile(token))));
          state := COMMAND;
        case STDIN =>
          var c := currentCommand.value.command;
          if c.stdin.Some? {
            return false, state, envVars;
          }
          currentCommand := Some(Cmd(c.(stdin := Some(token))));
          state := COMMAND;
      }
    }
  }

  // ----------------------------------- every command line parses to its meaning

  lemma {:induction false} ReadAssigns(assigns: seq<string>, done: nat, rest: seq<string>, nodes: seq<Node>)
    requires done <= |assigns| && forall i :: 0 <= i < |assigns| ==> IsAssignment(assigns[i])
    ensures ReadAll(ParseState(BEGIN, None, EnvOf(assigns[..done]), nodes), assigns[done..] + rest)
         == ReadAll(ParseState(BEGIN, None, EnvOf(assigns), nodes), rest)
    decreases |assigns| - done
  {
    if done == |assigns| {
      assert assigns[..done] == assigns && assigns[done..] + rest == rest;
    } else {
      var tokens := assigns[done..] + rest;
      assert tokens[0] == assigns[done] && tokens[1..] == assigns[done + 1..] + rest;
      assert assigns[..done + 1][..done] == assigns[..done];
      ReadAssigns(assigns, done + 1, rest, nodes);
    }
  }

  lemma {:induction false} ReadParts(c: Command, ps: seq<Part>, rest: seq<string>, nodes: seq<Node>)
    requires AddParts(c, ps).Some?
    ensures ReadAll(ParseState(COMMAND, Some(Cmd(c)), map[], nodes), RenderParts(ps) + rest)
         == ReadAll(ParseState(COMMAND, Some(Cmd(AddParts(c, ps).value)), map[], nodes), rest)
    decreases |ps|
  {
    if ps == [] {
      assert RenderParts(ps) + rest == rest;
    } else {
      var d := AddPart(c, ps[0]).value;
      var more := RenderParts(ps[1..]) + rest;
      ReadPart(c, ps[0], more, nodes);
      assert RenderParts(ps) + rest == RenderPart(ps[0]) + more;
      ReadParts(d, ps[1..], rest, nodes);
    }
  }

  lemma ReadPart(c: Command, p: Part, more: seq<string>, nodes: seq<Node>)
    requires AddPart(c, p).Some?
    ensures ReadAll(ParseState(COMMAND, Some(Cmd(c)), map[], nodes), RenderPart(p) + more)
         == ReadAll(ParseState(COMMAND, Some(Cmd(AddPart(c, p).value)), map[], nodes), more)
  {
    var tokens := RenderPart(p) + more;
    if p.Arg? || p.ErrToOut? {
      assert tokens[1..] == more;
      if p.Arg? {
        assert RESERVED[0] == ">" && RESERVED[1] == "2>" && RESERVED[2] == "2>&1" && RESERVED[3] == "<";
        assert RESERVED[4] == "|" && RESERVED[5] == "&&" && RESERVED[6] == "||";
      }
    } else {
      assert tokens[1..][0] == p.file && tokens[1..][1..] == more;
    }
  }

  ghost function AfterElement(e: Element, nodes: seq<Node>): ParseState
    requires ValidElement(e)
  {
    ParseState(if e.Cd? then CHDIR else COMMAND, Some(NodeOf(e)), map[], nodes)
  }

  lemma ReadElement(e: Element, rest: seq<string>, nodes: seq<Node>)
    requires ValidElement(e)
    ensures ReadAll(ParseState(BEGIN, None, map[], nodes), RenderElement(e) + rest)
         == ReadAll(AfterElement(e, nodes), rest)
  {
    match e
    case Simple(assigns, name, parts) =>
      var afterName := RenderParts(parts) + rest;
      assert RenderElement(e) + rest == assigns[0..] + ([name] + afterName);
      ReadAssigns(assigns, 0, [name] + afterName, nodes);
      assert ([name] + afterName)[1..] == afterName;
      ReadParts(NewCommand(name, EnvOf(assigns)), parts, rest, nodes);
    case Cd(dir) =>
      var tokens := RenderElement(e) + rest;
      assert !IsAssignment("cd");
      if dir.None? {
        assert tokens[1..] == rest;
      } else {
        assert tokens[1..][0] == dir.value && tokens[1..][1..] == rest;
      }
  }

  lemma ReadOp(e: Element, op: Operator, rest: seq<string>, nodes: seq<Node>)
    requires ValidElement(e) && (e.Cd? ==> op.OpAnd?)
    requires op.OpPipe? ==> NodeOf(e).Cmd? && NodeOf(e).command.stdout.StdoutNone?
    ensures ReadAll(AfterElement(e, nodes), [RenderOp(op)] + rest)
         == ReadAll(ParseState(BEGIN, None, map[], nodes + [FirstNode(e, op), OpNode(op)]), rest)
  {
    assert ([RenderOp(op)] + rest)[1..] == rest;
  }

  lemma ReadEnd(e: Element, dangling: Option<string>, nodes: seq<Node>)
    requires ValidLine(Last(e, dangling))
    ensures ReadAll(AfterElement(e, nodes), if dangling.Some? then [dangling.value] else [])
      == Some(nodes + [NodeOf(e)])
  {
  }

  lemma {:induction false} ReadLine(line: Line, nodes: seq<Node>)
    requires ValidLine(line)
    ensures ReadAll(ParseState(BEGIN, None, map[], nodes), Render(line)) == Some(nodes + Nodes(line))
  {
    hide ReadToken, ReadAll, RenderElement, NodeOf, FirstNode, ValidElement;
    match line
    case Last(e, dangling) =>
      ReadElement(e, if dangling.Some? then [dangling.value] else [], nodes);
      ReadEnd(e, dangling, nodes);
    case More(e, op, rest) =>
      var first := [FirstNode(e, op), OpNode(op)];
      ReadElement(e, [RenderOp(op)] + Render(rest), nodes);
      assert RenderElement(e) + ([RenderOp(op)] + Render(rest)) == Render(line);
      ReadOp(e, op, Render(rest), nodes);
      ReadLine(rest, nodes + first);
      assert nodes + first + Nodes(rest) == nodes + Nodes(line);
  }

  // ------------------------------------- everything accepted is a command line

  lemma EnvOfMore(assigns: seq<string>, token: string)
    requires forall i :: 0 <= i < |assigns| ==> IsAssignment(assigns[i])
    requires IsAssignment(token)
    ensures forall i :: 0 <= i < |assigns + [token]| ==> IsAssignment((assigns + [token])[i])
    ensures EnvOf(assigns + [token]) == EnvOf(assigns)[AssignedName(token) := AssignedValue(token)]
  {
  }

  lemma {:induction false} PartsMore(c: Command, ps: seq<Part>, p: Part)
    requires AddParts(c, ps).Some?
    ensures AddParts(c, ps + [p]) == AddPart(AddParts(c, ps).value, p)
    ensures RenderParts(ps + [p]) == RenderParts(ps) + RenderPart(p)
    decreases |ps|
  {
    if ps == [] {
      assert ps + [p] == [p] && [p][1..] == [];
    } else {
      PartsMore(AddPart(c, ps[0]).value, ps[1..], p);
      assert (ps + [p])[1..] == ps[1..] + [p];
    }
  }

  /** From the start of a command, some assignments already read. */
  lemma {:induction false} LineBack(assigns: seq<string>, tokens: seq<string>, nodes: seq<Node>) returns (line: Line)
    requires forall i :: 0 <= i < |assigns| ==> IsAssignment(assigns[i])
    requires ReadAll(ParseState(BEGIN, None, EnvOf(assigns), nodes), tokens).Some?
    ensures ValidLine(line) && Render(line) == assigns + tokens
    ensures ReadAll(ParseState(BEGIN, None, EnvOf(assigns), nodes), tokens) == Some(nodes + Nodes(line))
    decreases |tokens|, 2
  {
    hide *;
    FirstToken(assigns, tokens, nodes);
    var token, rest := tokens[0], tokens[1..];
    assert tokens == [token] + rest;
    if IsAssignment(token) {
      line := LineBack(assigns + [token], rest, nodes);
      assert assigns + [token] + rest == assigns + tokens;
    } else if token == "cd" {
      line := CdBack(None, rest, nodes);
      assert assigns + tokens == ["cd"] + rest;
    } else {
      line := CommandBack(assigns, token, [], rest, nodes);
      assert assigns + [token] + rest == assigns + tokens;
    }
  }

  lemma FirstToken(assigns: seq<string>, tokens: seq<string>, nodes: seq<Node>)
    requires forall i :: 0 <= i < |assigns| ==> IsAssignment(assigns[i])
    requires ReadAll(ParseState(BEGIN, None, EnvOf(assigns), nodes), tokens).Some?
    ensures tokens != []
    ensures var s := ParseState(BEGIN, None, EnvOf(assigns), nodes); var token := tokens[0];
      if IsAssignment(token) then
        && (forall i :: 0 <= i < |assigns + [token]| ==> IsAssignment((assigns + [token])[i]))
        && ReadAll(s, tokens) == ReadAll(ParseState(BEGIN, None, EnvOf(assigns + [token]), nodes), tokens[1..])
      else if token == "cd" then
        && assigns == [] && ValidElement(Cd(None)) && RenderElement(Cd(None)) == ["cd"]
        && ReadAll(s, tokens) == ReadAll(AfterElement(Cd(None), nodes), tokens[1..])
      else
        && ValidElement(Simple(assigns, token, [])) && RenderElement(Simple(assigns, token, [])) == assigns + [token]
        && ReadAll(s, tokens) == ReadAll(AfterElement(Simple(assigns, token, []), nodes), tokens[1..])
  {
    EnvEmpty(assigns);
    if IsAssignment(tokens[0]) {
      EnvOfMore(assigns, tokens[0]);
    }
    hide EnvOf, IsAssignment;
  }

  lemma EnvEmpty(assigns: seq<string>)
    requires forall i :: 0 <= i < |assigns| ==> IsAssignment(assigns[i])
    ensures EnvOf(assigns) == map[] ==> assigns == []
  {
    if assigns != [] {
      assert AssignedName(assigns[|assigns| - 1]) in EnvOf(assigns);
    }
  }

  /** Inside a command, some of its parts already read. */
  lemma {:induction false} CommandBack(assigns: seq<string>, name: string, parts: seq<Part>, tokens: seq<string>,
                                       nodes: seq<Node>)
    returns (line: Line)
    requires ValidElement(Simple(assigns, name, parts))
    requires ReadAll(AfterElement(Simple(assigns, name, parts), nodes), tokens).Some?
    ensures ValidLine(line) && Render(line) == RenderElement(Simple(assigns, name, parts)) + tokens
    ensures ReadAll(AfterElement(Simple(assigns, name, parts), nodes), tokens) == Some(nodes + Nodes(line))
    decreases |tokens|, 1
  {
    var e := Simple(assigns, name, parts);
    if tokens == [] {
      line := Last(e, None);
    } else if tokens[0] in [">", "2>", "<"] && |tokens| == 1 {
      line := Last(e, Some(tokens[0]));
      assert tokens == [tokens[0]] && tokens[1..] == [];
    } else if tokens[0] in ["|", "&&", "||"] {
      line := OpBack(e, tokens, nodes);
    } else {
      var p, rest := NextPart(e, tokens, nodes);
      line := CommandBack(assigns, name, parts + [p], rest, nodes);
    }
  }

  lemma {:induction false} OpBack(e: Element, tokens: seq<string>, nodes: seq<Node>) returns (line: Line)
    requires ValidElement(e) && tokens != []
    requires tokens[0] in ["|", "&&", "||"] && (e.Cd? ==> tokens[0] == "&&")
    requires ReadAll(AfterElement(e, nodes), tokens).Some?
    ensures ValidLine(line) && Render(line) == RenderElement(e) + tokens
    ensures ReadAll(AfterElement(e, nodes), tokens) == Some(nodes + Nodes(line))
    decreases |tokens|, 0
  {
    hide *;
    var op := OpAt(e, tokens, nodes);
    var first := [FirstNode(e, op), OpNode(op)];
    ReadOp(e, op, tokens[1..], nodes);
    EnvOfNone();
    var rest := LineBack([], tokens[1..], nodes + first);
    assert [] + tokens[1..] == tokens[1..];
    line := More(e, op, rest);
    MoreLine(e, op, rest);
    Regroup(RenderElement(e), [RenderOp(op)], tokens[1..]);
    Regroup(nodes, first, Nodes(rest));
  }

  lemma EnvOfNone()
    ensures EnvOf([]) == map[]
  {
  }

  lemma MoreLine(e: Element, op: Operator, rest: Line)
    requires ValidElement(e) && (e.Cd? ==> op.OpAnd?) && ValidLine(rest)
    requires op.OpPipe? ==> NodeOf(e).Cmd? && NodeOf(e).command.stdout.StdoutNone?
    ensures ValidLine(More(e, op, rest))
    ensures Nodes(More(e, op, rest)) == [FirstNode(e, op), OpNode(op)] + Nodes(rest)
    ensures Render(More(e, op, rest)) == RenderElement(e) + [RenderOp(op)] + Render(rest)
  {
  }

  lemma OpAt(e: Element, tokens: seq<string>, nodes: seq<Node>) returns (op: Operator)
    requires ValidElement(e) && tokens != []
    requires tokens[0] in ["|", "&&", "||"] && (e.Cd? ==> tokens[0] == "&&")
    requires ReadAll(AfterElement(e, nodes), tokens).Some?
    ensures tokens == [RenderOp(op)] + tokens[1..] && (e.Cd? ==> op.OpAnd?)
    ensures op.OpPipe? ==> NodeOf(e).Cmd? && NodeOf(e).command.stdout.StdoutNone?
  {
    op := if tokens[0] == "|" then OpPipe else if tokens[0] == "&&" then OpAnd else OpOr;
    hide EnvOf, IsAssignment, AddParts;
  }

  /** Reads one argument or redirection off the tokens. */
  lemma NextPart(e: Element, tokens: seq<string>, nodes: seq<Node>) returns (p: Part, rest: seq<string>)
    requires e.Simple? && ValidElement(e) && tokens != [] && tokens[0] !in ["|", "&&", "||"]
    requires tokens[0] in [">", "2>", "<"] ==> |tokens| > 1
    requires ReadAll(AfterElement(e, nodes), tokens).Some?
    ensures |rest| < |tokens| && ValidElement(e.(parts := e.parts + [p]))
    ensures RenderElement(e.(parts := e.parts + [p])) + rest == RenderElement(e) + tokens
    ensures ReadAll(AfterElement(e.(parts := e.parts + [p]), nodes), rest) == ReadAll(AfterElement(e, nodes), tokens)
  {
    hide *;
    var c := CommandState(e, nodes);
    p, rest := PartAt(c, tokens, nodes);
    ElementMore(e, p);
    var _ := CommandState(e.(parts := e.parts + [p]), nodes);
    ReadPart(c, p, rest, nodes);
    assert RenderElement(e) + RenderPart(p) + rest == RenderElement(e) + (RenderPart(p) + rest);
  }

  lemma CommandState(e: Element, nodes: seq<Node>) returns (c: Command)
    requires e.Simple? && ValidElement(e)
    ensures NodeOf(e) == Cmd(c) && AfterElement(e, nodes) == ParseState(COMMAND, Some(Cmd(c)), map[], nodes)
  {
    c := NodeOf(e).command;
  }

  lemma ElementMore(e: Element, p: Part)
    requires e.Simple? && ValidElement(e) && AddPart(NodeOf(e).command, p).Some?
    ensures var f := e.(parts := e.parts + [p]);
      && ValidElement(f) && NodeOf(f) == Cmd(AddPart(NodeOf(e).command, p).value)
      && RenderElement(f) == RenderElement(e) + RenderPart(p)
  {
    PartsMore(NewCommand(e.name, EnvOf(e.assigns)), e.parts, p);
    hide AddPart, RenderPart, EnvOf, IsAssignment;
  }

  lemma PartAt(c: Command, tokens: seq<string>, nodes: seq<Node>) returns (p: Part, rest: seq<string>)
    requires tokens != [] && tokens[0] !in ["|", "&&", "||"]
    requires tokens[0] in [">", "2>", "<"] ==> |tokens| > 1
    requires ReadAll(ParseState(COMMAND, Some(Cmd(c)), map[], nodes), tokens).Some?
    ensures |rest| < |tokens| && AddPart(c, p).Some? && RenderPart(p) + rest == tokens
  {
    if tokens[0] in [">", "2>", "<"] {
      var file := tokens[1];
      p := if tokens[0] == ">" then Out(file) else if tokens[0] == "2>" then Err(file) else In(file);
      rest := tokens[2..];
      assert tokens == [tokens[0]] + [file] + rest;
      assert tokens[1..][0] == file && tokens[1..][1..] == rest;
    } else {
      p := if tokens[0] == "2>&1" then ErrToOut else Arg(tokens[0]);
      rest := tokens[1..];
      assert tokens == [tokens[0]] + rest;
    }
  }

  /** After `cd`, its directory read or not. */
  lemma {:induction false} CdBack(dir: Option<string>, tokens: seq<string>, nodes: seq<Node>) returns (line: Line)
    requires ValidElement(Cd(dir))
    requires ReadAll(AfterElement(Cd(dir), nodes), tokens).Some?
    ensures ValidLine(line) && Render(line) == RenderElement(Cd(dir)) + tokens
    ensures ReadAll(AfterElement(Cd(dir), nodes), tokens) == Some(nodes + Nodes(line))
    decreases |tokens|, 1
  {
    hide *;
    if tokens == [] {
      line := Last(Cd(dir), None);
      CdLast(dir, nodes);
    } else if tokens[0] == "&&" {
      line := OpBack(Cd(dir), tokens, nodes);
    } else {
      CdDir(dir, tokens, nodes);
      line := CdBack(Some(tokens[0]), tokens[1..], nodes);
    }
  }

  lemma CdLast(dir: Option<string>, nodes: seq<Node>)
    requires ValidElement(Cd(dir))
    ensures ValidLine(Last(Cd(dir), None)) && Render(Last(Cd(dir), None)) == RenderElement(Cd(dir)) + []
    ensures ReadAll(AfterElement(Cd(dir), nodes), []) == Some(nodes + Nodes(Last(Cd(dir), None)))
  {
  }

  lemma CdDir(dir: Option<string>, tokens: seq<string>, nodes: seq<Node>)
    requires ValidElement(Cd(dir)) && tokens != [] && tokens[0] != "&&"
    requires ReadAll(AfterElement(Cd(dir), nodes), tokens).Some?
    ensures dir == None && ValidElement(Cd(Some(tokens[0])))
    ensures ReadAll(AfterElement(Cd(dir), nodes), tokens)
         == ReadAll(AfterElement(Cd(Some(tokens[0])), nodes), tokens[1..])
    ensures RenderElement(Cd(Some(tokens[0]))) + tokens[1..] == RenderElement(Cd(dir)) + tokens
  {
  }

  /** The parser accepts exactly the command lines, and builds what they stand for. */
  lemma ParserAcceptsLines(tokens: seq<string>, nodes: seq<Node>)
    ensures ReadAll(START, tokens) == Some(nodes)
       <==> exists line :: ValidLine(line) && Render(line) == tokens && Nodes(line) == nodes
  {
    if ReadAll(START, tokens) == Some(nodes) {
      var line := LineBack([], tokens, []);
      assert [] + tokens == tokens && [] + Nodes(line) == Nodes(line);
    }
    forall line | ValidLine(line) && Render(line) == tokens && Nodes(line) == nodes
      ensures ReadAll(START, tokens) == Some(nodes)
    {
      ReadLine(line, []);
      assert [] + nodes == nodes;
    }
  }

  // ------------------------------------------------------------ well-formed

  lemma {:induction false} PartsKeep(c: Command, ps: seq<Part>)
    requires AddParts(c, ps).Some?
    requires c.argv != [] && c.argv[0] == c.name && !c.stdout.StdoutPipe?
    ensures var d := AddParts(c, ps).value;
      && d.name == c.name && d.env == c.env
      && d.argv != [] && d.argv[0] == d.name && !d.stdout.StdoutPipe?
    decreases |ps|
  {
    if ps != [] {
      PartsKeep(AddPart(c, ps[0]).value, ps[1..]);
    }
  }

  lemma ElementShape(e: Element)
    requires ValidElement(e)
    ensures e.Simple? ==>
      && NodeOf(e).Cmd? && NodeOf(e).command.name == e.name && NodeOf(e).command.env == EnvOf(e.assigns)
    ensures e.Simple? ==> NodeOf(e).command.argv != [] && NodeOf(e).command.argv[0] == e.name
    ensures e.Simple? ==> !NodeOf(e).command.stdout.StdoutPipe?
  {
    if e.Simple? {
      PartsKeep(NewCommand(e.name, EnvOf(e.assigns)), e.parts);
    }
  }

  lemma {:induction false} LineWellFormed(line: Line)
    requires ValidLine(line)
    ensures WellFormed(Nodes(line))
  {
    ElementShape(line.element);
    match line
    case Last(e, _) =>
    case More(e, op, rest) =>
      LineWellFormed(rest);
      assert Nodes(line)[2..] == Nodes(rest);
  }

  lemma ParsedWellFormed(tokens: seq<string>, nodes: seq<Node>)
    requires ReadAll(START, tokens) == Some(nodes)
    ensures WellFormed(nodes)
  {
    ParserAcceptsLines(tokens, nodes);
    var line :| ValidLine(line) && Render(line) == tokens && Nodes(line) == nodes;
    LineWellFormed(line);
  }
}
