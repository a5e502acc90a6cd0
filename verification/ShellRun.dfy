/** Running a pipeline of waf-tools/shellcmd.py: the flat loop over nodes and operators, and the
    recursive meaning it has. Processes and files are seen through the events they cause; the exit
    code of the n-th process started is given by `exits`, and whether the n-th file can be opened and
    the n-th process started by the surroundings. */
module ShellRun {
  import opened Common
  import opened Shell

  datatype Handle = DevNull | File(n: nat)

  datatype Source = InheritIn | FromFile(n: nat) | FromPipe(pid: nat)

  datatype Target = InheritOut | ToPipe | ToStdout | ToHandle(h: Handle)

  datatype Event =
    | OpenRead(file: string, n: nat)
    | OpenWrite(file: string, n: nat)
    | Start(pid: nat, argv: seq<string>, stdin: Source, stdout: Target, stderr: Target,
            env: map<string, string>, cwd: Option<string>)
    | Wait(pid: nat)
    | Close(n: nat)

  datatype Surroundings = Surroundings(canOpen: nat -> bool, canStart: nat -> bool)

  /** What has happened, how many processes and files there have been, and whether one of them could
      not be had, which is an OSError. */
  datatype World = World(events: seq<Event>, pids: nat, files: nat, around: Surroundings, failed: bool)

  function Beginning(around: Surroundings): World {
    World([], 0, 0, around, false)
  }

  datatype Outcome = Exit(code: int) | NoValue | IndexError | TypeError | OSError

  /** os.path.join on two relative or absolute POSIX paths. */
  function JoinPath(a: string, b: string): string {
    if b != "" && b[0] == '/' then b
    else if a == "" || a[|a| - 1] == '/' then a + b
    else a + "/" + b
  }

  function IsNullDevice(file: string): bool {
    file == "NUL:" || file == "/dev/null"
  }

  // ------------------------------------------------------- one command, as a value

  /** Nothing happens any more after a failure. */
  function Open(w: World, e: Event): (World, Handle) {
    if w.failed || !w.around.canOpen(w.files) then (w.(failed := true), DevNull)
    else (w.(events := w.events + [e], files := w.files + 1), File(w.files))
  }

  function OpenOut(w: World, file: string): (World, Handle) {
    if IsNullDevice(file) then (w, DevNull) else Open(w, OpenWrite(file, w.files))
  }

  function OpenStdin(w: World, c: Command, pids: seq<nat>): (World, Source, seq<Handle>) {
    if pids != [] then (w, FromPipe(pids[|pids| - 1]), [])
    else if c.stdin.Some? then
      var (v, h) := Open(w, OpenRead(c.stdin.value, w.files));
      (v, FromFile(w.files), [h])
    else (w, InheritIn, [])
  }

  function OpenStdout(w: World, c: Command): (World, Target, seq<Handle>) {
    match c.stdout
    case StdoutNone => (w, InheritOut, [])
    case StdoutPipe => (w, ToPipe, [])
    case StdoutFile(f) => var (v, h) := OpenOut(w, f); (v, ToHandle(h), [h])
  }

  function OpenStderr(w: World, c: Command): (World, Target, seq<Handle>) {
    match c.stderr
    case StderrNone => (w, InheritOut, [])
    case StderrToStdout => (w, ToStdout, [])
    case StderrFile(f) => var (v, h) := OpenOut(w, f); (v, ToHandle(h), [h])
  }

  /** Opens what the command redirects to and starts it; pids are the processes before it in the pipe. */
  function StartCommand(w: World, c: Command, pids: seq<nat>, cwd: string): (World, seq<Handle>) {
    var (w1, stdin, f1) := OpenStdin(w, c, pids);
    var (w2, stdout, f2) := OpenStdout(w1, c);
    var (w3, stderr, f3) := OpenStderr(w2, c);
    var start := Start(w3.pids, c.argv, stdin, stdout, stderr, c.env, if cwd == "." then None else Some(cwd));
    if w3.failed || !w3.around.canStart(w3.pids) then (w3.(failed := true), [])
    else (w3.(events := w3.events + [start], pids := w3.pids + 1), f1 + f2 + f3)
  }

  ghost function Waits(pids: seq<nat>): (r: seq<Event>) {
    seq(|pids|, i requires 0 <= i < |pids| => Wait(pids[i]))
  }

  ghost function Closes(files: seq<Handle>): seq<Event> {
    if files == [] then []
    else
      var last := files[|files| - 1];
      Closes(files[..|files| - 1]) + if last.File? then [Close(last.n)] else []
  }

  /** Wait for all processes of a pipe, then close its files. */
  ghost function Finish(w: World, pids: seq<nat>, files: seq<Handle>): World {
    w.(events := w.events + Waits(pids) + Closes(files))
  }

  ghost function Status(pids: seq<nat>, exits: nat -> int): int {
    if pids == [] then 0 else exits(pids[|pids| - 1])
  }

  // --------------------------------------------------------- the recursive reading

  /** A command with the directory changes written before it. */
  datatype Stage = Stage(dirs: seq<Option<string>>, command: Command)

  /** A pipe group, and what follows it: `&&` and `||` nest to the right, without precedence.
      Dangling ends in cd, and Cut in an operator, both possibly after an unfinished pipe. */
  datatype Tree =
    | Final(group: seq<Stage>)
    | AndThen(group: seq<Stage>, rest: Tree)
    | OrElse(group: seq<Stage>, rest: Tree)
    | Dangling(group: seq<Stage>, dirs: seq<Option<string>>)
    | Cut(group: seq<Stage>, dirs: seq<Option<string>>)

  /** Nothing has to come before the end of these. */
  ghost predicate Unfinished(t: Tree) {
    t.Dangling? || t.Cut?
  }

  ghost function FlattenDirs(dirs: seq<Option<string>>): seq<Node> {
    if dirs == [] then [] else [Chdir(dirs[0]), And] + FlattenDirs(dirs[1..])
  }

  ghost function FlattenStage(s: Stage): seq<Node> {
    FlattenDirs(s.dirs) + [Cmd(s.command)]
  }

  ghost function FlattenPipe(group: seq<Stage>): seq<Node> {
    if group == [] then []
    else if |group| == 1 then FlattenStage(group[0])
    else FlattenStage(group[0]) + [Pipe] + FlattenPipe(group[1..])
  }

  /** Changes of directory of which the last ends the pipeline. */
  ghost function FlattenLone(dirs: seq<Option<string>>): seq<Node> {
    if dirs == [] then [] else FlattenDirs(dirs[..|dirs| - 1]) + [Chdir(dirs[|dirs| - 1])]
  }

  ghost function FlattenAfter(t: Tree): seq<Node>
    decreases t, 0
  {
    match t
    case Final(_) => []
    case AndThen(_, rest) => [And] + Flatten(rest)
    case OrElse(_, rest) => [Or] + Flatten(rest)
    case Dangling(group, dirs) => (if group == [] then [] else [Pipe]) + FlattenLone(dirs)
    case Cut(group, dirs) => (if group == [] then [] else [Pipe]) + FlattenDirs(dirs)
  }

  /** The nodes of a reading, from left to right. */
  ghost function Flatten(t: Tree): seq<Node>
    decreases t, 1
  {
    FlattenPipe(t.group) + FlattenAfter(t)
  }

  ghost function PrependStage(s: Stage, t: Tree): Tree {
    t.(group := [s] + t.group)
  }

  ghost function PrependDir(d: Option<string>, t: Tree): Tree {
    if t.group != [] then t.(group := t.group[0 := Stage([d] + t.group[0].dirs, t.group[0].command)])
    else if Unfinished(t) then t.(dirs := [d] + t.dirs)
    else t
  }

  /** The reading of a pipeline. */
  ghost function Reading(nodes: seq<Node>): (t: Tree)
    requires Runnable(nodes)
    ensures t.group == [] ==> Unfinished(t)
    ensures t.Dangling? ==> t.dirs != []
    decreases |nodes|
  {
    if nodes == [] then Cut([], []) else
    match nodes[0]
    case Chdir(d) =>
      if |nodes| == 1 then Dangling([], [d]) else PrependDir(d, Reading(nodes[2..]))
    case Cmd(c) =>
      if |nodes| == 1 then Final([Stage([], c)])
      else if nodes[1].Pipe? then PrependStage(Stage([], c), Reading(nodes[2..]))
      else if nodes[1].And? then AndThen([Stage([], c)], Reading(nodes[2..]))
      else OrElse([Stage([], c)], Reading(nodes[2..]))
  }

  lemma FlattenPipeMore(s: Stage, group: seq<Stage>)
    ensures FlattenPipe([s] + group)
         == if group == [] then FlattenStage(s) else FlattenStage(s) + [Pipe] + FlattenPipe(group)
  {
  }

  lemma FlattenAfterStage(s: Stage, t: Tree)
    requires t.group == [] ==> Unfinished(t)
    ensures FlattenAfter(PrependStage(s, t)) == if t.group == [] then [Pipe] + FlattenAfter(t) else FlattenAfter(t)
    ensures PrependStage(s, t).group == [s] + t.group
  {
    hide FlattenDirs, Flatten, FlattenLone;
  }

  lemma FlattenIs(t: Tree)
    ensures Flatten(t) == FlattenPipe(t.group) + FlattenAfter(t)
    ensures t.group == [] ==> Flatten(t) == FlattenAfter(t)
  {
  }

  lemma FlattenPrependStage(s: Stage, t: Tree)
    requires t.group == [] ==> Unfinished(t)
    ensures Flatten(PrependStage(s, t)) == FlattenStage(s) + [Pipe] + Flatten(t)
  {
    hide *;
    FlattenPipeMore(s, t.group);
    FlattenAfterStage(s, t);
    FlattenIs(t);
    FlattenIs(PrependStage(s, t));
    if t.group == [] {
      Regroup(FlattenStage(s), [Pipe], FlattenAfter(t));
    } else {
      Regroup(FlattenStage(s) + [Pipe], FlattenPipe(t.group), FlattenAfter(t));
    }
  }

  lemma FlattenDirsMore(d: Option<string>, dirs: seq<Option<string>>)
    ensures FlattenDirs([d] + dirs) == [Chdir(d), And] + FlattenDirs(dirs)
  {
  }

  lemma FlattenPipeDir(d: Option<string>, group: seq<Stage>)
    requires group != []
    ensures FlattenPipe(group[0 := Stage([d] + group[0].dirs, group[0].command)])
      == [Chdir(d), And] + FlattenPipe(group)
  {
  }

  lemma PrependDirAfter(d: Option<string>, t: Tree)
    ensures t.group != [] ==>
      && PrependDir(d, t).group == t.group[0 := Stage([d] + t.group[0].dirs, t.group[0].command)]
      && FlattenAfter(PrependDir(d, t)) == FlattenAfter(t)
    ensures t.group == [] && Unfinished(t) ==> PrependDir(d, t) == t.(dirs := [d] + t.dirs)
  {
  }

  lemma FlattenEnd(t: Tree)
    requires t.group == [] && Unfinished(t)
    ensures Flatten(t) == if t.Dangling? then FlattenLone(t.dirs) else FlattenDirs(t.dirs)
  {
  }

  lemma FlattenPrependDir(d: Option<string>, t: Tree)
    requires (t.group == [] ==> Unfinished(t)) && (t.Dangling? ==> t.dirs != [])
    ensures Flatten(PrependDir(d, t)) == [Chdir(d), And] + Flatten(t)
  {
    hide Flatten, FlattenAfter, FlattenPipe, FlattenDirs, FlattenLone, PrependDir;
    PrependDirAfter(d, t);
    if t.group == [] {
      FlattenDirsMore(d, t.dirs);
      if t.Dangling? { FlattenLoneMore(d, t.dirs); }
      FlattenEnd(t);
      FlattenEnd(t.(dirs := [d] + t.dirs));
    } else {
      FlattenPipeDir(d, t.group);
      FlattenIs(t);
      FlattenIs(PrependDir(d, t));
      Regroup([Chdir(d), And], FlattenPipe(t.group), FlattenAfter(t));
    }
  }

  lemma FlattenLoneMore(d: Option<string>, dirs: seq<Option<string>>)
    requires dirs != []
    ensures FlattenLone([d] + dirs) == [Chdir(d), And] + FlattenLone(dirs)
  {
    var n := |dirs|;
    assert ([d] + dirs)[..n] == [d] + dirs[..n - 1];
    FlattenDirsMore(d, dirs[..n - 1]);
    hide FlattenDirs;
  }

  lemma ReadingStep(nodes: seq<Node>)
    requires Runnable(nodes)
    ensures nodes == [] ==> Reading(nodes) == Cut([], [])
    ensures |nodes| == 1 ==> Reading(nodes) == match nodes[0] {
      case Cmd(c) => Final([Stage([], c)])
      case Chdir(d) => Dangling([], [d])
    }
    ensures |nodes| > 1 ==>
      && Runnable(nodes[2..]) && (nodes[1].Pipe? || nodes[1].And? || nodes[1].Or?)
      && var t := Reading(nodes[2..]);
         Reading(nodes) == match nodes[0] {
           case Chdir(d) => PrependDir(d, t)
           case Cmd(c) =>
             if nodes[1].Pipe? then PrependStage(Stage([], c), t)
             else if nodes[1].And? then AndThen([Stage([], c)], t)
             else OrElse([Stage([], c)], t)
         }
  {
  }

  /** The reading has the nodes of the pipeline, in order. */
  lemma {:induction false} ReadingKeepsNodes(nodes: seq<Node>)
    requires Runnable(nodes)
    ensures Flatten(Reading(nodes)) == nodes
    decreases |nodes|
  {
    hide Reading, Flatten, FlattenStage, PrependDir, PrependStage;
    ReadingStep(nodes);
    if |nodes| <= 1 {
      FlattenOne(Reading(nodes));
    } else {
      var t := Reading(nodes[2..]);
      ReadingKeepsNodes(nodes[2..]);
      assert nodes == [nodes[0], nodes[1]] + nodes[2..];
      match nodes[0]
      case Chdir(d) => FlattenPrependDir(d, t);
      case Cmd(c) =>
        FlattenBare(c, t);
        if nodes[1].Pipe? { FlattenPrependStage(Stage([], c), t); }
    }
  }

  lemma FlattenOne(t: Tree)
    ensures t == Cut([], []) ==> Flatten(t) == []
    ensures t.Dangling? && t.group == [] && |t.dirs| == 1 ==> Flatten(t) == [Chdir(t.dirs[0])]
    ensures t.Final? && |t.group| == 1 && t.group[0].dirs == [] ==> Flatten(t) == [Cmd(t.group[0].command)]
  {
  }

  lemma FlattenBare(c: Command, t: Tree)
    ensures FlattenStage(Stage([], c)) == [Cmd(c)]
    ensures Flatten(AndThen([Stage([], c)], t)) == [Cmd(c), And] + Flatten(t)
    ensures Flatten(OrElse([Stage([], c)], t)) == [Cmd(c), Or] + Flatten(t)
  {
  }

  // ------------------------------------------------------------- the meaning

  ghost function JoinDirs(cwd: string, dirs: seq<Option<string>>): Option<string>
    decreases |dirs|
  {
    if dirs == [] then Some(cwd)
    else if dirs[0].None? then None
    else JoinDirs(JoinPath(cwd, dirs[0].value), dirs[1..])
  }

  datatype Started =
    | Up(world: World, pids: seq<nat>, files: seq<Handle>, cwd: string)
    | Broken(world: World, error: Outcome)

  /** Start the stages of a pipe one after the other; a cd without a directory breaks off, and so does a
      file or process that cannot be had. */
  ghost function StartStages(group: seq<Stage>, w: World, pids: seq<nat>, files: seq<Handle>, cwd: string): Started {
    if group == [] then Up(w, pids, files, cwd)
    else
      match JoinDirs(cwd, group[0].dirs)
      case None => Broken(w, TypeError)
      case Some(dir) =>
        var (v, added) := StartCommand(w, group[0].command, pids, dir);
        if v.failed then Broken(v, OSError)
        else StartStages(group[1..], v, pids + [w.pids], files + added, dir)
  }

  /** The meaning of a reading whose first pipe has already started the given processes. */
  ghost function Meaning(t: Tree, w: World, pids: seq<nat>, files: seq<Handle>, cwd: string,
                         exits: nat -> int): (Outcome, World)
    decreases t
  {
    match StartStages(t.group, w, pids, files, cwd)
    case Broken(v, error) => (error, v)
    case Up(v, ps, fs, dir) =>
      match t {
        case Final(_) => (Exit(Status(ps, exits)), Finish(v, ps, fs))
        case AndThen(_, rest) =>
          if Status(ps, exits) != 0 then (Exit(Status(ps, exits)), Finish(v, ps, fs))
          else Meaning(rest, Finish(v, ps, fs), [], [], dir, exits)
        case OrElse(_, rest) =>
          if Status(ps, exits) == 0 then (Exit(0), Finish(v, ps, fs))
          else Meaning(rest, Finish(v, ps, fs), [], [], dir, exits)
        case Dangling(_, dirs) =>
          (if dirs != [] && JoinDirs(dir, dirs[..|dirs| - 1]).None? then TypeError else IndexError, v)
        case Cut(_, dirs) => (if JoinDirs(dir, dirs).None? then TypeError else NoValue, v)
      }
  }

  // ---------------------------------------------------------------- the loop

  /** The exit code of a pipe: its last command's if any command failed, else 0. */
  method ExecPipedCommands(commands: seq<nat>, exits: nat -> int, w: World) returns (retval: int, v: World)
    ensures retval == Status(commands, exits)
    ensures v == w.(events := w.events + Waits(commands))
  {
    v := w;
    var retvals: seq<int> := [];
    for i := 0 to |commands|
      invariant |retvals| == i && forall k :: 0 <= k < i ==> retvals[k] == exits(commands[k])
      invariant v == w.(events := w.events + Waits(commands[..i]))
    {
      v := v.(events := v.events + [Wait(commands[i])]);
      retvals := retvals + [exits(commands[i])];
      assert Waits(commands[..i + 1]) == Waits(commands[..i]) + [Wait(commands[i])];
    }
    assert commands[..|commands|] == commands;
    retval := 0;
    for i := 0 to |retvals|
      invariant retval == 0 && forall k :: 0 <= k < i ==> retvals[k] == 0
    {
      if retvals[i] != 0 {
        retval := retvals[|retvals| - 1];
        break;
      }
    }
  }

  method CloseFiles(files: seq<Handle>, w: World) returns (v: World)
    ensures v == w.(events := w.events + Closes(files))
  {
    v := w;
    for i := 0 to |files|
      invariant v == w.(events := w.events + Closes(files[..i]))
    {
      assert files[..i + 1][..i] == files[..i];
      if files[i].File? {
        v := v.(events := v.events + [Close(files[i].n)]);
      }
    }
    assert files[..|files|] == files;
  }

  lemma MeaningOfCd(nodes: seq<Node>, w: World, pids: seq<nat>, files: seq<Handle>, cwd: string, exits: nat -> int)
    requires Runnable(nodes) && nodes != [] && nodes[0].Chdir?
    ensures |nodes| == 1 ==> Meaning(Reading(nodes), w, pids, files, cwd, exits) == (IndexError, w)
    ensures |nodes| > 1 ==> nodes[1].And? && Runnable(nodes[2..])
    ensures |nodes| > 1 && nodes[0].dir.None? ==> Meaning(Reading(nodes), w, pids, files, cwd, exits) == (TypeError, w)
    ensures |nodes| > 1 && nodes[0].dir.Some? ==>
      Meaning(Reading(nodes), w, pids, files, cwd, exits)
      == Meaning(Reading(nodes[2..]), w, pids, files, JoinPath(cwd, nodes[0].dir.value), exits)
  {
    if |nodes| > 1 {
      var t := Reading(nodes[2..]);
      var d := nodes[0].dir;
      if t.group != [] {
        var s := t.group[0];
        assert ([d] + s.dirs)[1..] == s.dirs;
        assert t.group[0 := Stage([d] + s.dirs, s.command)][1..] == t.group[1..];
      } else {
        assert ([d] + t.dirs)[1..] == t.dirs;
        if t.Dangling? {
          var n := |t.dirs|;
          assert ([d] + t.dirs)[..n] == [d] + t.dirs[..n - 1];
          assert ([d] + t.dirs[..n - 1])[1..] == t.dirs[..n - 1];
        }
      }
    }
  }

  /** After the command at the front has been started. */
  lemma MeaningOfCommand(nodes: seq<Node>, w: World, pids: seq<nat>, files: seq<Handle>, cwd: string, exits: nat -> int)
    requires Runnable(nodes) && nodes != [] && nodes[0].Cmd?
    ensures |nodes| > 1 ==> (nodes[1].Pipe? || nodes[1].And? || nodes[1].Or?) && Runnable(nodes[2..])
    ensures
      var (v, added) := StartCommand(w, nodes[0].command, pids, cwd);
      var ps, fs := pids + [w.pids], files + added;
      var whole := Meaning(Reading(nodes), w, pids, files, cwd, exits);
      if v.failed then
        whole == (OSError, v)
      else if |nodes| == 1 then
        whole == (Exit(exits(w.pids)), Finish(v, ps, fs))
      else if nodes[1].Pipe? then
        whole == Meaning(Reading(nodes[2..]), v, ps, fs, cwd, exits)
      else if exits(w.pids) == 0 <==> nodes[1].Or? then
        whole == (Exit(exits(w.pids)), Finish(v, ps, fs))
      else
        whole == Meaning(Reading(nodes[2..]), Finish(v, ps, fs), [], [], cwd, exits)
  {
    var s := Stage([], nodes[0].command);
    var (v, added) := StartCommand(w, nodes[0].command, pids, cwd);
    var ps, fs := pids + [w.pids], files + added;
    assert ps[|ps| - 1] == w.pids;
    assert [s][1..] == [];
    assert StartStages([s], w, pids, files, cwd) == if v.failed then Broken(v, OSError) else Up(v, ps, fs, cwd);
    if |nodes| > 1 && nodes[1].Pipe? {
      var t := Reading(nodes[2..]);
      assert ([s] + t.group)[1..] == t.group;
      assert StartStages([s] + t.group, w, pids, files, cwd)
          == if v.failed then Broken(v, OSError) else StartStages(t.group, v, ps, fs, cwd);
    }
  }

  datatype RunState = BEGIN | PIPE

  /** Work out where the three streams go, opening files on the way, and start the process. */
  method StartProcess(w: World, cmd: Command, state: RunState, pipedCommands: seq<nat>, cwd: string)
    returns (world: World, added: seq<Handle>)
    requires (state == PIPE <==> pipedCommands != []) && !w.failed
    ensures (world, added) == StartCommand(w, cmd, pipedCommands, cwd)
  {
    world := w;
    var stdin;
    added := [];
    if state == PIPE {
      stdin := FromPipe(pipedCommands[|pipedCommands| - 1]);
    } else if cmd.stdin.Some? {
      var (v, h) := Open(world, OpenRead(cmd.stdin.value, world.files));
      if v.failed {
        FailedStart(w, cmd, pipedCommands, cwd);
        return v, [];
      }
      stdin := FromFile(world.files);
      world, added := v, [h];
    } else {
      stdin := InheritIn;
    }

    ghost var w1, f1 := world, added;
    var stdout := InheritOut;
    if cmd.stdout.StdoutPipe? {
      stdout := ToPipe;
    } else if cmd.stdout.StdoutFile? {
      var (v, h) := OpenOut(world, cmd.stdout.file);
      if v.failed {
        FailedStart(w, cmd, pipedCommands, cwd);
        return v, [];
      }
      world, stdout, added := v, ToHandle(h), added + [h];
    }

    ghost var w2, f2 := world, OpenStdout(w1, cmd).2;
    assert added == f1 + f2;
    var stderr := InheritOut;
    if cmd.stderr.StderrToStdout? {
      stderr := ToStdout;
    } else if cmd.stderr.StderrFile? {
      var (v, h) := OpenOut(world, cmd.stderr.file);
      if v.failed {
        FailedStart(w, cmd, pipedCommands, cwd);
        return v, [];
      }
      world, stderr, added := v, ToHandle(h), added + [h];
    }
    assert added == f1 + f2 + OpenStderr(w2, cmd).2;
    if !world.around.canStart(world.pids) {
      return world.(failed := true), [];
    }
    var procCwd := if cwd == "." then None else Some(cwd);
    var start := Start(world.pids, cmd.argv, stdin, stdout, stderr, cmd.env, procCwd);
    world := world.(events := world.events + [start], pids := world.pids + 1);
  }

  /** After a failure nothing more is opened or started. */
  lemma FailedStart(w: World, c: Command, pids: seq<nat>, cwd: string)
    ensures var w1 := OpenStdin(w, c, pids).0; var w2 := OpenStdout(w1, c).0; var w3 := OpenStderr(w2, c).0;
      && (w1.failed ==> w2 == w1) && (w2.failed ==> w3 == w2)
      && (w3.failed ==> StartCommand(w, c, pids, cwd) == (w3, []))
  {
  }

  lemma FinishIs(w: World, pids: seq<nat>, pid: nat, files: seq<Handle>, exits: nat -> int)
    ensures Status(pids + [pid], exits) == exits(pid)
    ensures w.(events := w.events + Waits(pids + [pid])).(events := w.events + Waits(pids + [pid]) + Closes(files))
         == Finish(w, pids + [pid], files)
  {
  }

  lemma StartCommandPids(w: World, c: Command, pids: seq<nat>, cwd: string)
    ensures var v := StartCommand(w, c, pids, cwd).0; !v.failed ==> v.pids == w.pids + 1
  {
  }

  /** The run loop on a copy of the nodes. */
  method RunNodes(nodes: seq<Node>, exits: nat -> int, around: Surroundings) returns (outcome: Outcome, world: World)
    requires Runnable(nodes)
    ensures (outcome, world) == Meaning(Reading(nodes), Beginning(around), [], [], ".", exits)
  {
    hide *;
    var pipeline := nodes;
    var filesToClose: seq<Handle> := [];
    var pipedCommands: seq<nat> := [];
    var state, cwd := BEGIN, ".";
    world := Beginning(around);
    NothingFailed(around);
    while pipeline != []
      invariant Runnable(pipeline) && (state == PIPE <==> pipedCommands != []) && !world.failed
      invariant Meaning(Reading(pipeline), world, pipedCommands, filesToClose, cwd, exits)
             == Meaning(Reading(nodes), Beginning(around), [], [], ".", exits)
      decreases |pipeline|
    {
      var node := pipeline[0];
      if node.Chdir? {
        MeaningOfCd(pipeline, world, pipedCommands, filesToClose, cwd, exits);
        if |pipeline| == 1 {
          return IndexError, world;
        }
        if node.dir.None? {
          return TypeError, world;
        }
        cwd := JoinPath(cwd, node.dir.value);
        pipeline := pipeline[2..];
        continue;
      }
      FrontNode(pipeline);
      MeaningOfCommand(pipeline, world, pipedCommands, filesToClose, cwd, exits);
      StartCommandPids(world, node.command, pipedCommands, cwd);
      var added;
      ghost var pids, pid := pipedCommands, world.pids;
      world, added := StartProcess(world, node.command, state, pipedCommands, cwd);
      if world.failed {
        return OSError, world;
      }
      FinishIs(world, pids, pid, filesToClose + added, exits);
      filesToClose := filesToClose + added;
      pipedCommands := pipedCommands + [world.pids - 1];

      if |pipeline| == 1 {
        var retval;
        retval, world := ExecPipedCommands(pipedCommands, exits, world);
        world := CloseFiles(filesToClose, world);
        return Exit(retval), world;
      }
      var nextNode := pipeline[1];
      pipeline := pipeline[2..];
      if nextNode.Pipe? {
        state := PIPE;
      } else {
        var thisRetval;
        thisRetval, world := ExecPipedCommands(pipedCommands, exits, world);
        world := CloseFiles(filesToClose, world);
        filesToClose := [];
        if nextNode.Or? && thisRetval == 0 {
          return Exit(thisRetval), world;
        }
        if nextNode.And? && thisRetval != 0 {
          return Exit(thisRetval), world;
        }
        state := BEGIN;
        pipedCommands := [];
      }
    }
    NothingLeft(world, pipedCommands, filesToClose, cwd, exits);
    outcome := NoValue;
  }

  lemma NothingFailed(around: Surroundings)
    ensures !Beginning(around).failed
  {
  }

  lemma NothingLeft(w: World, pids: seq<nat>, files: seq<Handle>, cwd: string, exits: nat -> int)
    ensures Runnable([]) && Meaning(Reading([]), w, pids, files, cwd, exits) == (NoValue, w)
  {
  }

  lemma FrontNode(nodes: seq<Node>)
    requires Runnable(nodes) && nodes != []
    ensures nodes[0].Cmd? || nodes[0].Chdir?
  {
  }
}
