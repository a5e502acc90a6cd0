/** Which pipelines the parser can produce: exactly the well-formed ones whose words do not clash
    with the syntax; each of them can be written as tokens that parse back to it. */
module ShellRoundTrip {
  import opened Common
  import opened Shell
  import opened ShellParse

  ghost predicate PlainEnv(env: map<string, string>) {
    forall k :: k in env ==> k != [] && (forall i :: 0 <= i < |k| ==> IsWordChar(k[i])) && IsAssignedValue(env[k])
  }

  /** No word of the node reads as an operator, a redirection, `cd` or an assignment. */
  ghost predicate PlainNode(n: Node) {
    match n
    case Cmd(c) =>
      && !IsAssignment(c.name) && c.name != "cd"
      && (forall i :: 1 <= i < |c.argv| ==> c.argv[i] !in RESERVED)
      && PlainEnv(c.env)
    case Chdir(dir) => dir.Some? ==> dir.value != "&&"
    case _ => true
  }

  ghost predicate Plain(nodes: seq<Node>) {
    forall i :: 0 <= i < |nodes| ==> PlainNode(nodes[i])
  }

  // ------------------------------------------------ parsed pipelines are plain

  lemma WithoutNewlineValue(v: string)
    requires IsAssignedValue(v)
    ensures WithoutNewline(v) == v
  {
  }

  lemma {:induction false} EnvOfPlain(assigns: seq<string>)
    requires forall i :: 0 <= i < |assigns| ==> IsAssignment(assigns[i])
    ensures PlainEnv(EnvOf(assigns))
  {
    if assigns != [] {
      var n := |assigns| - 1;
      EnvOfPlain(assigns[..n]);
      var t := assigns[n];
      assert IsAssignment(t);
      assert forall i :: 0 <= i < WordPrefix(t) ==> IsWordChar(AssignedName(t)[i]);
    }
  }

  lemma {:induction false} PartsPlain(c: Command, ps: seq<Part>)
    requires AddParts(c, ps).Some? && c.argv != []
    requires forall i :: 1 <= i < |c.argv| ==> c.argv[i] !in RESERVED
    ensures forall i :: 1 <= i < |AddParts(c, ps).value.argv| ==> AddParts(c, ps).value.argv[i] !in RESERVED
    decreases |ps|
  {
    if ps != [] {
      PartsPlain(AddPart(c, ps[0]).value, ps[1..]);
    }
  }

  lemma ElementPlain(e: Element)
    requires ValidElement(e)
    ensures PlainNode(NodeOf(e))
  {
    if e.Simple? {
      ElementShape(e);
      PartsPlain(NewCommand(e.name, EnvOf(e.assigns)), e.parts);
      EnvOfPlain(e.assigns);
    }
  }

  lemma {:induction false} LinePlain(line: Line)
    requires ValidLine(line)
    ensures Plain(Nodes(line))
  {
    ElementPlain(line.element);
    match line
    case Last(e, _) =>
    case More(e, op, rest) =>
      LinePlain(rest);
      assert PlainNode(FirstNode(e, op)) && PlainNode(OpNode(op));
      hide PlainNode, NodeOf, FirstNode, ValidElement;
  }

  // --------------------------------------------- plain pipelines can be written

  lemma AssignmentFor(k: string, v: string)
    requires k != [] && (forall i :: 0 <= i < |k| ==> IsWordChar(k[i])) && IsAssignedValue(v)
    ensures IsAssignment(k + "=" + v) && AssignedName(k + "=" + v) == k && AssignedValue(k + "=" + v) == v
  {
    var t := k + "=" + v;
    WordPrefixIs(k, "=" + v);
    assert k + ("=" + v) == t;
    assert t[|k|] == '=' && t[|k| + 1..] == v && t[..|k|] == k;
    WithoutNewlineValue(v);
  }

  lemma {:induction false} WordPrefixIs(k: string, rest: string)
    requires forall i :: 0 <= i < |k| ==> IsWordChar(k[i])
    requires rest != [] && !IsWordChar(rest[0])
    ensures WordPrefix(k + rest) == |k|
  {
    if k == [] {
      assert k + rest == rest;
    } else {
      WordPrefixIs(k[1..], rest);
      assert (k + rest)[1..] == k[1..] + rest;
    }
  }

  lemma PlainSplit(env: map<string, string>, k: string)
    requires PlainEnv(env) && k in env
    ensures PlainEnv(env - {k}) && IsAssignment(k + "=" + env[k])
    ensures AssignedName(k + "=" + env[k]) == k && AssignedValue(k + "=" + env[k]) == env[k]
  {
    AssignmentFor(k, env[k]);
  }

  /** Assignments, in some order, that build the given environment. */
  lemma {:induction false} AssignmentsFor(env: map<string, string>) returns (assigns: seq<string>)
    requires PlainEnv(env)
    ensures forall i :: 0 <= i < |assigns| ==> IsAssignment(assigns[i])
    ensures EnvOf(assigns) == env
    decreases |env|
  {
    hide *;
    if env == map[] {
      assigns := [];
      EnvOfNone();
    } else {
      var k :| k in env;
      var rest := env - {k};
      assert rest.Keys == env.Keys - {k};
      PlainSplit(env, k);
      var before := AssignmentsFor(rest);
      EnvOfMore(before, k + "=" + env[k]);
      assigns := before + [k + "=" + env[k]];
      assert env == rest[k := env[k]];
    }
  }

  ghost function ArgParts(words: seq<string>): (ps: seq<Part>)
    ensures |ps| == |words| && forall i :: 0 <= i < |words| ==> ps[i] == Arg(words[i])
  {
    seq(|words|, i requires 0 <= i < |words| => Arg(words[i]))
  }

  lemma {:induction false} AddArgs(c: Command, words: seq<string>)
    requires forall i :: 0 <= i < |words| ==> words[i] !in RESERVED
    ensures AddParts(c, ArgParts(words)) == Some(c.(argv := c.argv + words))
    decreases |words|
  {
    if words == [] {
      assert c.argv + words == c.argv;
    } else {
      var d := c.(argv := c.argv + [words[0]]);
      AddArgs(d, words[1..]);
      assert ArgParts(words)[1..] == ArgParts(words[1..]);
      assert d.argv + words[1..] == c.argv + words;
    }
  }

  /** The parts of a command: its arguments, then its redirections. */
  ghost function PartsFor(c: Command): seq<Part>
    requires c.argv != []
  {
    ArgParts(c.argv[1..])
    + (if c.stdin.Some? then [In(c.stdin.value)] else [])
    + (if c.stdout.StdoutFile? then [Out(c.stdout.file)] else [])
    + (match c.stderr case StderrNone => [] case StderrToStdout => [ErrToOut] case StderrFile(f) => [Err(f)])
  }

  lemma AddOne(c: Command, ps: seq<Part>, add: seq<Part>)
    requires AddParts(c, ps).Some? && |add| <= 1
    requires add != [] ==> AddPart(AddParts(c, ps).value, add[0]).Some?
    ensures AddParts(c, ps + add) == if add == [] then AddParts(c, ps) else AddPart(AddParts(c, ps).value, add[0])
  {
    if add == [] {
      assert ps + add == ps;
    } else {
      PartsMore(c, ps, add[0]);
      assert add == [add[0]];
    }
  }

  lemma PartsForBuild(c: Command)
    requires c.argv != [] && c.argv[0] == c.name
    requires forall i :: 1 <= i < |c.argv| ==> c.argv[i] !in RESERVED
    ensures AddParts(NewCommand(c.name, c.env), PartsFor(c))
         == Some(if c.stdout.StdoutPipe? then c.(stdout := StdoutNone) else c)
  {
    var start := NewCommand(c.name, c.env);
    var args := ArgParts(c.argv[1..]);
    var input := if c.stdin.Some? then [In(c.stdin.value)] else [];
    var out := if c.stdout.StdoutFile? then [Out(c.stdout.file)] else [];
    var err := match c.stderr case StderrNone => [] case StderrToStdout => [ErrToOut] case StderrFile(f) => [Err(f)];
    AddArgs(start, c.argv[1..]);
    assert start.argv + c.argv[1..] == c.argv;
    hide AddParts;
    AddOne(start, args, input);
    AddOne(start, args + input, out);
    AddOne(start, args + input + out, err);
  }

  lemma ElementFor(n: Node) returns (e: Element)
    requires n.Cmd? || n.Chdir?
    requires PlainNode(n) && (n.Cmd? ==> n.command.argv != [] && n.command.argv[0] == n.command.name)
    ensures ValidElement(e) && (e.Cd? <==> n.Chdir?)
    ensures NodeOf(e) == if n.Cmd? && n.command.stdout.StdoutPipe? then Cmd(n.command.(stdout := StdoutNone)) else n
  {
    match n
    case Cmd(c) =>
      var assigns := AssignmentsFor(c.env);
      PartsForBuild(c);
      e := Simple(assigns, c.name, PartsFor(c));
    case Chdir(dir) =>
      e := Cd(dir);
  }

  /** A command line for a well-formed pipeline of plain words. */
  lemma {:induction false} LineFor(nodes: seq<Node>) returns (line: Line)
    requires WellFormed(nodes) && Plain(nodes)
    ensures ValidLine(line) && Nodes(line) == nodes
    decreases |nodes|
  {
    assert PlainNode(nodes[0]);
    var e := ElementFor(nodes[0]);
    hide PlainNode, NodeOf, ValidElement;
    if |nodes| == 1 {
      line := Last(e, None);
    } else {
      var op := if nodes[1].Pipe? then OpPipe else if nodes[1].And? then OpAnd else OpOr;
      PlainRest(nodes);
      var rest := LineFor(nodes[2..]);
      line := More(e, op, rest);
      LineOf(nodes, e, op, rest);
    }
  }

  lemma PlainRest(nodes: seq<Node>)
    requires Plain(nodes) && |nodes| > 1
    ensures Plain(nodes[2..])
  {
  }

  lemma LineOf(nodes: seq<Node>, e: Element, op: Operator, rest: Line)
    requires WellFormed(nodes) && |nodes| > 1 && nodes[1] == OpNode(op)
    requires ValidElement(e) && (e.Cd? <==> nodes[0].Chdir?) && ValidLine(rest) && Nodes(rest) == nodes[2..]
    requires var n := nodes[0];
      NodeOf(e) == if n.Cmd? && n.command.stdout.StdoutPipe? then Cmd(n.command.(stdout := StdoutNone)) else n
    ensures ValidLine(More(e, op, rest)) && Nodes(More(e, op, rest)) == nodes
  {
    hide NodeOf, ValidElement, Nodes, ValidLine;
    MoreLine(e, op, rest);
    assert nodes == [nodes[0], nodes[1]] + nodes[2..];
  }

  /** A pipeline is the result of some parse exactly when it is well-formed and its words are plain. */
  lemma ParseResults(nodes: seq<Node>)
    ensures (exists tokens :: ReadAll(START, tokens) == Some(nodes)) <==> WellFormed(nodes) && Plain(nodes)
  {
    if tokens :| ReadAll(START, tokens) == Some(nodes) {
      ParserAcceptsLines(tokens, nodes);
      var line :| ValidLine(line) && Render(line) == tokens && Nodes(line) == nodes;
      LineWellFormed(line);
      LinePlain(line);
    }
    if WellFormed(nodes) && Plain(nodes) {
      var line := LineFor(nodes);
      ParserAcceptsLines(Render(line), nodes);
    }
  }

  // ------------------------------------------------------- words, one by one

  lemma ReadName(name: string, rest: seq<string>, nodes: seq<Node>)
    requires !IsAssignment(name) && name != "cd"
    ensures ReadAll(ParseState(BEGIN, None, map[], nodes), [name] + rest)
         == ReadAll(ParseState(COMMAND, Some(Cmd(NewCommand(name, map[]))), map[], nodes), rest)
  {
    assert ([name] + rest)[1..] == rest;
  }

  lemma ReadLast(c: Command, nodes: seq<Node>)
    ensures ReadAll(ParseState(COMMAND, Some(Cmd(c)), map[], nodes), []) == Some(nodes + [Cmd(c)])
  {
  }

  /** What the redirections do: `<` is for standard input and `>` for output, ... */
  lemma RedirectionWords(name: string, f: string, g: string)
    requires !IsAssignment(name) && name != "cd"
    ensures ReadAll(START, [name, "<", f, ">", g])
         == Some([Cmd(Command(name, [name], Some(f), StdoutFile(g), StderrNone, map[]))])
  {
    var c := NewCommand(name, map[]);
    var c1 := c.(stdin := Some(f));
    var c2 := c1.(stdout := StdoutFile(g));
    assert RenderPart(In(f)) == ["<", f] && RenderPart(Out(g)) == [">", g];
    assert AddPart(c, In(f)) == Some(c1) && AddPart(c1, Out(g)) == Some(c2);
    hide *;
    ReadName(name, ["<", f, ">", g], []);
    ReadPart(c, In(f), [">", g], []);
    ReadPart(c1, Out(g), [], []);
    ReadLast(c2, []);
    assert [] + [Cmd(c2)] == [Cmd(c2)] && ["<", f] + [">", g] == ["<", f, ">", g] && [">", g] + [] == [">", g];
    assert [name] + ["<", f, ">", g] == [name, "<", f, ">", g];
  }

  /** ... `2>` is for error, ... */
  lemma ErrorWords(name: string, h: string)
    requires !IsAssignment(name) && name != "cd"
    ensures ReadAll(START, [name, "2>", h])
         == Some([Cmd(Command(name, [name], None, StdoutNone, StderrFile(h), map[]))])
  {
    var c := NewCommand(name, map[]);
    var c1 := c.(stderr := StderrFile(h));
    assert RenderPart(Err(h)) == ["2>", h] && AddPart(c, Err(h)) == Some(c1);
    hide *;
    ReadName(name, ["2>", h], []);
    ReadPart(c, Err(h), [], []);
    ReadLast(c1, []);
    assert [] + [Cmd(c1)] == [Cmd(c1)] && ["2>", h] + [] == ["2>", h] && [name] + ["2>", h] == [name, "2>", h];
  }

  /** ... and `2>&1` lets it join standard output, while another word is an argument. */
  lemma JoinedWords(name: string, word: string)
    requires !IsAssignment(name) && name != "cd" && word !in RESERVED
    ensures ReadAll(START, [name, word, "2>&1"])
         == Some([Cmd(Command(name, [name, word], None, StdoutNone, StderrToStdout, map[]))])
  {
    var c := NewCommand(name, map[]);
    var c1 := c.(argv := [name, word]);
    var c2 := c1.(stderr := StderrToStdout);
    assert c.argv + [word] == [name, word];
    assert RenderPart(Arg(word)) == [word] && RenderPart(ErrToOut) == ["2>&1"];
    assert AddPart(c, Arg(word)) == Some(c1) && AddPart(c1, ErrToOut) == Some(c2);
    hide *;
    ReadName(name, [word, "2>&1"], []);
    ReadPart(c, Arg(word), ["2>&1"], []);
    ReadPart(c1, ErrToOut, [], []);
    ReadLast(c2, []);
    assert [] + [Cmd(c2)] == [Cmd(c2)] && [word] + ["2>&1"] == [word, "2>&1"] && ["2>&1"] + [] == ["2>&1"];
    assert [name] + [word, "2>&1"] == [name, word, "2>&1"];
  }

  /** The three operators. */
  lemma OperatorWords(a: string, b: string, op: string)
    requires !IsAssignment(a) && a != "cd" && !IsAssignment(b) && b != "cd" && op in ["|", "&&", "||"]
    ensures ReadAll(START, [a, op, b]) == Some(
      [Cmd(Command(a, [a], None, if op == "|" then StdoutPipe else StdoutNone, StderrNone, map[])),
       if op == "|" then Pipe else if op == "&&" then And else Or, Cmd(NewCommand(b, map[]))])
  {
    var first := Command(a, [a], None, if op == "|" then StdoutPipe else StdoutNone, StderrNone, map[]);
    var node := if op == "|" then Pipe else if op == "&&" then And else Or;
    assert NewCommand(a, map[]).stdout.StdoutNone?;
    assert Cmd(first) == Cmd(if op == "|" then NewCommand(a, map[]).(stdout := StdoutPipe) else NewCommand(a, map[]));
    hide *;
    ReadName(a, [op, b], []);
    OpTaken(NewCommand(a, map[]), op, [b]);
    ReadName(b, [], [Cmd(first), node]);
    ReadLast(NewCommand(b, map[]), [Cmd(first), node]);
    assert [a] + [op, b] == [a, op, b] && [op] + [b] == [op, b] && [b] + [] == [b];
    assert [Cmd(first), node] + [Cmd(NewCommand(b, map[]))] == [Cmd(first), node, Cmd(NewCommand(b, map[]))];
  }

  lemma OpTaken(c: Command, op: string, rest: seq<string>)
    requires op in ["|", "&&", "||"] && c.stdout.StdoutNone?
    ensures ReadAll(ParseState(COMMAND, Some(Cmd(c)), map[], []), [op] + rest)
         == ReadAll(ParseState(BEGIN, None, map[], [
              Cmd(if op == "|" then c.(stdout := StdoutPipe) else c),
              if op == "|" then Pipe else if op == "&&" then And else Or]), rest)
  {
    var first := Cmd(if op == "|" then c.(stdout := StdoutPipe) else c);
    var node := if op == "|" then Pipe else if op == "&&" then And else Or;
    assert [] + [first, node] == [first, node];
    assert ([op] + rest)[1..] == rest;
  }

  /** An assignment before cd fails, after the cd has been noted. */
  lemma AssignmentBeforeCd(t: string)
    requires IsAssignment(t)
    ensures ReadAll(START, [t, "cd"]) == None && LeftBy(START, [t, "cd"]) == (Some(Chdir(None)), [])
  {
    var s := START.(env := map[AssignedName(t) := AssignedValue(t)]);
    assert START.env[AssignedName(t) := AssignedValue(t)] == s.env;
    assert ReadToken(START, t) == Some(s) && [t, "cd"][1..] == ["cd"];
    assert AssignedName(t) in s.env && s.env != map[];
    CdIsNoAssignment();
    assert ReadToken(s, "cd") == None;
  }

  lemma CdIsNoAssignment()
    ensures !IsAssignment("cd")
  {
  }
}
