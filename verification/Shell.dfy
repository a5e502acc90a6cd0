/** The pipelines of waf-tools/shellcmd.py and the surface syntax they are written in. */
module Shell {
  import opened Common

  datatype Stdout = StdoutNone | StdoutPipe | StdoutFile(file: string)

  datatype Stderr = StderrNone | StderrToStdout | StderrFile(file: string)

  /** An empty `env` stands for env_vars = None. */
  datatype Command = Command(name: string, argv: seq<string>, stdin: Option<string>,
                             stdout: Stdout, stderr: Stderr, env: map<string, string>)

  datatype Node = Cmd(command: Command) | Chdir(dir: Option<string>) | Pipe | And | Or

  function NewCommand(name: string, env: map<string, string>): Command {
    Command(name, [name], None, StdoutNone, StderrNone, env)
  }

  /** What an accepted pipeline looks like: nodes and operators alternate, it starts and ends with a
      node, standard output is a pipe exactly before `|`, and a cd is followed by `&&` or ends it. */
  ghost predicate WellFormed(nodes: seq<Node>) {
    && nodes != []
    && (nodes[0].Cmd? || nodes[0].Chdir?)
    && (nodes[0].Cmd? ==> nodes[0].command.argv != [] && nodes[0].command.argv[0] == nodes[0].command.name)
    && if |nodes| == 1 then
         nodes[0].Cmd? ==> !nodes[0].command.stdout.StdoutPipe?
       else
         && (nodes[1].Pipe? || nodes[1].And? || nodes[1].Or?)
         && (nodes[0].Cmd? ==> (nodes[0].command.stdout.StdoutPipe? <==> nodes[1].Pipe?))
         && (nodes[0].Chdir? ==> nodes[1].And?)
         && WellFormed(nodes[2..])
  }

  /** What can be stored, also by a parse that fails: pairs of a node and an operator, and perhaps a
      node at the end; standard output is a pipe exactly before `|`. */
  ghost predicate Runnable(nodes: seq<Node>) {
    nodes != [] ==>
      && (nodes[0].Cmd? || nodes[0].Chdir?)
      && (nodes[0].Cmd? ==> (nodes[0].command.stdout.StdoutPipe? <==> |nodes| > 1 && nodes[1].Pipe?))
      && (|nodes| > 1 ==>
            && (nodes[1].Pipe? || nodes[1].And? || nodes[1].Or?)
            && (nodes[0].Chdir? ==> nodes[1].And?)
            && Runnable(nodes[2..]))
  }

  lemma {:induction false} WellFormedRuns(nodes: seq<Node>)
    requires WellFormed(nodes)
    ensures Runnable(nodes)
    decreases |nodes|
  {
    if |nodes| > 1 { WellFormedRuns(nodes[2..]); }
  }

  lemma {:induction false} RunnableMore(nodes: seq<Node>, node: Node, op: Node)
    requires Runnable(nodes) && |nodes| % 2 == 0
    requires node.Cmd? || node.Chdir?
    requires (op.Pipe? || op.And? || op.Or?) && (node.Chdir? ==> op.And?)
    requires node.Cmd? ==> (node.command.stdout.StdoutPipe? <==> op.Pipe?)
    ensures Runnable(nodes + [node, op])
    decreases |nodes|
  {
    if nodes == [] {
      assert nodes + [node, op] == [node, op] && [node, op][2..] == [];
    } else {
      RunnableMore(nodes[2..], node, op);
      assert (nodes + [node, op])[2..] == nodes[2..] + [node, op];
    }
  }

  // ----------------------------------------------- environment assignments

  predicate IsWordChar(c: char) {
    'a' <= c <= 'z' || 'A' <= c <= 'Z' || '0' <= c <= '9' || c == '_'
  }

  /** The characters that \s matches in a Python string. */
  predicate IsSpace(c: char) {
    var n := c as int;
    || 9 <= n <= 13 || 28 <= n <= 32 || n == 0x85 || n == 0xA0 || n == 0x1680
    || 0x2000 <= n <= 0x200A || n == 0x2028 || n == 0x2029 || n == 0x202F || n == 0x205F || n == 0x3000
  }

  /** The length of the longest prefix of word characters. */
  function WordPrefix(t: string): (n: nat)
    ensures n <= |t|
    ensures forall i :: 0 <= i < n ==> IsWordChar(t[i])
    ensures n < |t| ==> !IsWordChar(t[n])
  {
    if t == [] || !IsWordChar(t[0]) then 0 else 1 + WordPrefix(t[1..])
  }

  /** The pattern's final $ also matches before one trailing newline. */
  function WithoutNewline(t: string): string {
    if t != [] && t[|t| - 1] == '\n' then t[..|t| - 1] else t
  }

  predicate IsAssignment(t: string) {
    var n := WordPrefix(t);
    && 0 < n < |t| && t[n] == '='
    && IsAssignedValue(WithoutNewline(t[n + 1..]))
  }

  predicate IsAssignedValue(v: string) {
    v != [] && forall i :: 0 <= i < |v| ==> !IsSpace(v[i])
  }

  function AssignedName(t: string): string
    requires IsAssignment(t)
  {
    t[..WordPrefix(t)]
  }

  function AssignedValue(t: string): string
    requires IsAssignment(t)
  {
    WithoutNewline(t[WordPrefix(t) + 1..])
  }

  /** Later assignments to a name replace earlier ones. */
  ghost function EnvOf(assigns: seq<string>): map<string, string>
    requires forall i :: 0 <= i < |assigns| ==> IsAssignment(assigns[i])
  {
    if assigns == [] then map[]
    else
      var n := |assigns| - 1;
      EnvOf(assigns[..n])[AssignedName(assigns[n]) := AssignedValue(assigns[n])]
  }

  // --------------------------------------------------------- surface syntax

  const RESERVED := [">", "2>", "2>&1", "<", "|", "&&", "||"]

  datatype Part = Arg(word: string) | Out(file: string) | Err(file: string) | ErrToOut | In(file: string)

  datatype Element =
    | Simple(assigns: seq<string>, name: string, parts: seq<Part>)
    | Cd(dir: Option<string>)

  datatype Operator = OpPipe | OpAnd | OpOr

  /** A command line; the last command may end in a redirection without a file name, which is dropped. */
  datatype Line =
    | Last(element: Element, dangling: Option<string>)
    | More(element: Element, op: Operator, rest: Line)

  ghost function RenderPart(p: Part): seq<string> {
    match p
    case Arg(word) => [word]
    case Out(file) => [">", file]
    case Err(file) => ["2>", file]
    case ErrToOut => ["2>&1"]
    case In(file) => ["<", file]
  }

  ghost function RenderParts(ps: seq<Part>): seq<string> {
    if ps == [] then [] else RenderPart(ps[0]) + RenderParts(ps[1..])
  }

  ghost function RenderElement(e: Element): seq<string> {
    match e
    case Simple(assigns, name, parts) => assigns + [name] + RenderParts(parts)
    case Cd(None) => ["cd"]
    case Cd(Some(d)) => ["cd", d]
  }

  ghost function RenderOp(op: Operator): string {
    match op
    case OpPipe => "|"
    case OpAnd => "&&"
    case OpOr => "||"
  }

  ghost function Render(line: Line): seq<string> {
    match line
    case Last(e, dangling) => RenderElement(e) + if dangling.Some? then [dangling.value] else []
    case More(e, op, rest) => RenderElement(e) + [RenderOp(op)] + Render(rest)
  }

  /** One more part on a command; None where the part repeats a redirection. */
  ghost function AddPart(c: Command, p: Part): Option<Command> {
    match p
    case Arg(word) => if word in RESERVED then None else Some(c.(argv := c.argv + [word]))
    case Out(file) => if c.stdout.StdoutNone? then Some(c.(stdout := StdoutFile(file))) else None
    case Err(file) => if c.stderr.StderrNone? then Some(c.(stderr := StderrFile(file))) else None
    case ErrToOut => if c.stderr.StderrNone? then Some(c.(stderr := StderrToStdout)) else None
    case In(file) => if c.stdin.None? then Some(c.(stdin := Some(file))) else None
  }

  ghost function AddParts(c: Command, ps: seq<Part>): Option<Command>
    decreases |ps|
  {
    if ps == [] then Some(c)
    else
      match AddPart(c, ps[0])
      case None => None
      case Some(d) => AddParts(d, ps[1..])
  }

  ghost predicate ValidStart(assigns: seq<string>, name: string) {
    && (forall i :: 0 <= i < |assigns| ==> IsAssignment(assigns[i]))
    && !IsAssignment(name) && name != "cd"
  }

  ghost predicate ValidElement(e: Element) {
    match e
    case Simple(assigns, name, parts) =>
      ValidStart(assigns, name) && AddParts(NewCommand(name, EnvOf(assigns)), parts).Some?
    case Cd(dir) => dir.Some? ==> dir.value != "&&"
  }

  ghost function NodeOf(e: Element): Node
    requires ValidElement(e)
  {
    match e
    case Simple(assigns, name, parts) => Cmd(AddParts(NewCommand(name, EnvOf(assigns)), parts).value)
    case Cd(dir) => Chdir(dir)
  }

  ghost function OpNode(op: Operator): Node {
    match op
    case OpPipe => Pipe
    case OpAnd => And
    case OpOr => Or
  }

  ghost predicate ValidLine(line: Line) {
    && ValidElement(line.element)
    && match line {
      case Last(e, dangling) => dangling.Some? ==> e.Simple? && dangling.value in [">", "2>", "<"]
      case More(e, op, rest) =>
        && (e.Cd? ==> op.OpAnd?)
        && (op.OpPipe? ==> NodeOf(e).Cmd? && NodeOf(e).command.stdout.StdoutNone?)
        && ValidLine(rest)
    }
  }

  ghost function FirstNode(e: Element, op: Operator): Node
    requires ValidElement(e)
  {
    match NodeOf(e)
    case Cmd(c) => Cmd(if op.OpPipe? then c.(stdout := StdoutPipe) else c)
    case n => n
  }

  /** The pipeline a command line stands for. */
  ghost function Nodes(line: Line): seq<Node>
    requires ValidLine(line)
  {
    match line
    case Last(e, _) => [NodeOf(e)]
    case More(e, op, rest) => [FirstNode(e, op), OpNode(op)] + Nodes(rest)
  }
}
