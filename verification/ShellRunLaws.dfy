/** What a run of a pipeline does, read off its recursive meaning. */
module ShellRunLaws {
  import opened Common
  import opened Shell
  import opened ShellRun

  // --------------------------------------------- which commands are started

  /** A command as it is called: where, and whether it reads from the command before it. */
  datatype Call = Call(command: Command, cwd: string, piped: bool)

  /** The shape every reading has. */
  ghost predicate Shaped(t: Tree) {
    match t
    case Final(g) => g != []
    case AndThen(g, rest) => g != [] && Shaped(rest)
    case OrElse(g, rest) => g != [] && Shaped(rest)
    case Dangling(_, dirs) => dirs != []
    case Cut(_, _) => true
  }

  ghost predicate AllGiven(dirs: seq<Option<string>>) {
    forall j :: 0 <= j < |dirs| ==> dirs[j].Some?
  }

  ghost predicate DirsGiven(group: seq<Stage>) {
    forall i :: 0 <= i < |group| ==> AllGiven(group[i].dirs)
  }

  /** The directory after some changes, each relative to the one before. */
  ghost function After(cwd: string, dirs: seq<Option<string>>): string
    decreases |dirs|
  {
    if dirs == [] || dirs[0].None? then cwd else After(JoinPath(cwd, dirs[0].value), dirs[1..])
  }

  ghost function GroupDir(group: seq<Stage>, cwd: string): string
    decreases |group|
  {
    if group == [] then cwd else GroupDir(group[1..], After(cwd, group[0].dirs))
  }

  /** The commands of a pipe, up to the first cd without a directory. */
  ghost function GroupCalls(group: seq<Stage>, cwd: string, piped: bool): (r: seq<Call>)
    ensures |r| <= |group|
    decreases |group|
  {
    if group == [] || !AllGiven(group[0].dirs) then []
    else
      var dir := After(cwd, group[0].dirs);
      [Call(group[0].command, dir, piped)] + GroupCalls(group[1..], dir, true)
  }

  /** Whether there is more after the first pipe: its status is its last command's, and `&&` goes on
      after 0, `||` after anything else.  The next process to be started is the n-th. */
  ghost predicate GoesOn(t: Tree, n: nat, exits: nat -> int)
    requires t.group != []
  {
    var status := exits(n + |t.group| - 1);
    DirsGiven(t.group) && ((t.AndThen? && status == 0) || (t.OrElse? && status != 0))
  }

  /** The commands a reading calls for. */
  ghost function Calls(t: Tree, n: nat, cwd: string, exits: nat -> int): seq<Call>
    requires Shaped(t)
  {
    var calls := GroupCalls(t.group, cwd, false);
    if t.group != [] && GoesOn(t, n, exits) then
      calls + Calls(t.rest, n + |t.group|, GroupDir(t.group, cwd), exits)
    else calls
  }

  /** How a run ends: a cd without a directory is a TypeError, a cd at the end an IndexError, and an
      operator at the end gives no value, unless the run has ended before. */
  ghost function Ending(t: Tree, n: nat, exits: nat -> int): Outcome
    requires Shaped(t)
  {
    if !DirsGiven(t.group) then TypeError
    else if t.Dangling? then if AllGiven(t.dirs[..|t.dirs| - 1]) then IndexError else TypeError
    else if t.Cut? then if AllGiven(t.dirs) then NoValue else TypeError
    else if GoesOn(t, n, exits) then Ending(t.rest, n + |t.group|, exits)
    else Exit(exits(n + |t.group| - 1))
  }

  /** A process as it is started, and the files opened just before. */
  datatype Launch = Launch(opens: seq<Event>, start: Event)

  /** The files opened since anything else happened. */
  ghost function JustOpened(events: seq<Event>): seq<Event> {
    if events == [] then []
    else
      var last := events[|events| - 1];
      if last.OpenRead? || last.OpenWrite? then JustOpened(events[..|events| - 1]) + [last] else []
  }

  /** The starts among the events. */
  ghost function Starts(events: seq<Event>): seq<Launch> {
    if events == [] then []
    else
      var front, last := events[..|events| - 1], events[|events| - 1];
      Starts(front) + if last.Start? then [Launch(JustOpened(front), last)] else []
  }

  /** Standard output or error goes to a file: to the null device, which has two names, or to the file
      that the k-th event opens for writing. */
  ghost predicate WritesTo(target: Target, file: string, opens: seq<Event>, k: nat) {
    if file == "NUL:" || file == "/dev/null" then target == ToHandle(DevNull)
    else k < |opens| && opens[k].OpenWrite? && opens[k].file == file && target == ToHandle(File(opens[k].n))
  }

  /** How many files are opened for standard input, output and error. */
  ghost function InputFiles(c: Call): nat {
    if !c.piped && c.command.stdin.Some? then 1 else 0
  }

  ghost function OutputFiles(c: Call): nat {
    if c.command.stdout.StdoutFile? && c.command.stdout.file !in ["NUL:", "/dev/null"] then 1 else 0
  }

  ghost function ErrorFiles(c: Call): nat {
    if c.command.stderr.StderrFile? && c.command.stderr.file !in ["NUL:", "/dev/null"] then 1 else 0
  }

  /** Every stream goes where it is redirected, and just the files for that are opened, in the order
      input, output, error. */
  ghost predicate Redirects(l: Launch, c: Call)
    requires l.start.Start?
  {
    var (i, o, e) := (InputFiles(c), OutputFiles(c), ErrorFiles(c));
    && |l.opens| == i + o + e
    && (match c.command.stdin
        case None => c.piped || l.start.stdin == InheritIn
        case Some(f) =>
          c.piped || (l.opens[0].OpenRead? && l.opens[0].file == f && l.start.stdin == FromFile(l.opens[0].n)))
    && (match c.command.stdout
        case StdoutNone => l.start.stdout == InheritOut
        case StdoutPipe => l.start.stdout == ToPipe
        case StdoutFile(f) => WritesTo(l.start.stdout, f, l.opens, i))
    && (match c.command.stderr
        case StderrNone => l.start.stderr == InheritOut
        case StderrToStdout => l.start.stderr == ToStdout
        case StderrFile(f) => WritesTo(l.start.stderr, f, l.opens, i + o))
  }

  ghost predicate Matches(l: Launch, c: Call, pid: nat) {
    var e := l.start;
    && e.Start? && e.pid == pid && e.argv == c.command.argv && e.env == c.command.env
    && e.cwd == (if c.cwd == "." then None else Some(c.cwd))
    && (e.stdin.FromPipe? <==> c.piped) && (c.piped ==> e.stdin.pid == pid - 1)
    && Redirects(l, c)
  }

  ghost predicate AllMatch(starts: seq<Launch>, calls: seq<Call>, n: nat) {
    |starts| == |calls| && forall i :: 0 <= i < |starts| ==> Matches(starts[i], calls[i], n + i)
  }

  /** Nothing has been opened for a process still to be started. */
  ghost predicate Settled(w: World) {
    JustOpened(w.events) == []
  }

  lemma {:induction false} NoMoreStarts(events: seq<Event>, more: seq<Event>)
    requires forall i :: 0 <= i < |more| ==> more[i].Wait? || more[i].Close?
    ensures Starts(events + more) == Starts(events)
    ensures JustOpened(events) == [] ==> JustOpened(events + more) == []
  {
    if more == [] {
      assert events + more == events;
    } else {
      var n := |more| - 1;
      assert (events + more)[..|events + more| - 1] == events + more[..n];
      NoMoreStarts(events, more[..n]);
    }
  }

  lemma {:induction false} ClosesOnly(files: seq<Handle>)
    ensures forall i :: 0 <= i < |Closes(files)| ==> Closes(files)[i].Close?
  {
    if files != [] { ClosesOnly(files[..|files| - 1]); }
  }

  lemma FinishStartsNothing(w: World, pids: seq<nat>, files: seq<Handle>)
    ensures Starts(Finish(w, pids, files).events) == Starts(w.events)
    ensures Settled(w) ==> Settled(Finish(w, pids, files))
  {
    ClosesOnly(files);
    NoMoreStarts(w.events, Waits(pids));
    NoMoreStarts(w.events + Waits(pids), Closes(files));
  }

  lemma {:induction false} JoinDirsIs(cwd: string, dirs: seq<Option<string>>)
    ensures JoinDirs(cwd, dirs) == if AllGiven(dirs) then Some(After(cwd, dirs)) else None
    decreases |dirs|
  {
    if dirs != [] && dirs[0].Some? {
      JoinDirsIs(JoinPath(cwd, dirs[0].value), dirs[1..]);
      assert AllGiven(dirs) <==> AllGiven(dirs[1..]) by {
        assert forall j :: 0 < j < |dirs| ==> dirs[j] == dirs[1..][j - 1];
      }
    }
  }

  /** The next file or process is one that cannot be had. */
  ghost predicate Fails(w: World) {
    w.failed && (!w.around.canOpen(w.files) || !w.around.canStart(w.pids))
  }

  /** Everything so far could be had. */
  ghost predicate Had(w: World) {
    && (forall n: nat :: n < w.files ==> w.around.canOpen(n))
    && (forall n: nat :: n < w.pids ==> w.around.canStart(n))
  }

  /** Opening what a command redirects to: nothing is started, and a failure is the surroundings'. */
  ghost predicate OnlyOpens(w: World, v: World) {
    && Starts(v.events) == Starts(w.events) && v.pids == w.pids && v.around == w.around
    && (Had(w) ==> Had(v)) && (v.failed ==> Fails(v))
  }

  lemma OpenOnlyOpens(w: World, e: Event)
    requires !w.failed && !e.Start?
    ensures OnlyOpens(w, Open(w, e).0)
  {
  }

  /** After everything a command redirects to has been opened. */
  ghost function Opened(w: World, c: Command, pids: seq<nat>): World {
    OpenStderr(OpenStdout(OpenStdin(w, c, pids).0, c).0, c).0
  }

  lemma OnlyOpensNothing(w: World)
    requires w.failed ==> Fails(w)
    ensures OnlyOpens(w, w)
  {
  }

  lemma StdinOpens(w: World, c: Command, pids: seq<nat>)
    requires !w.failed
    ensures OnlyOpens(w, OpenStdin(w, c, pids).0)
  {
  }

  lemma StdoutOpens(w: World, c: Command)
    requires w.failed ==> Fails(w)
    ensures OnlyOpens(w, OpenStdout(w, c).0)
  {
    OnlyOpensNothing(w);
    if !w.failed && c.stdout.StdoutFile? { OpenOnlyOpens(w, OpenWrite(c.stdout.file, w.files)); }
    hide OnlyOpens;
  }

  lemma StderrOpens(w: World, c: Command)
    requires w.failed ==> Fails(w)
    ensures OnlyOpens(w, OpenStderr(w, c).0)
  {
    OnlyOpensNothing(w);
    if !w.failed && c.stderr.StderrFile? { OpenOnlyOpens(w, OpenWrite(c.stderr.file, w.files)); }
    hide OnlyOpens;
  }

  lemma OpensOnly(w: World, c: Command, pids: seq<nat>)
    requires !w.failed
    ensures OnlyOpens(w, Opened(w, c, pids))
  {
    var w1 := OpenStdin(w, c, pids).0;
    var w2 := OpenStdout(w1, c).0;
    StdinOpens(w, c, pids);
    StdoutOpens(w1, c);
    StderrOpens(w2, c);
    hide *;
  }

  /** Starting a command adds one start, for this command, or fails. */
  ghost predicate StartsOne(w: World, v: World, added: seq<Launch>, c: Command, cwd: string, piped: bool) {
    && Starts(v.events) == Starts(w.events) + added && v.pids == w.pids + |added| && v.around == w.around
    && (Had(w) ==> Had(v))
    && if v.failed then added == [] && Fails(v)
       else |added| == 1 && Matches(added[0], Call(c, cwd, piped), w.pids) && Settled(v)
  }

  lemma OneOpened(events: seq<Event>, e: Event)
    requires e.OpenRead? || e.OpenWrite?
    ensures JustOpened(events + [e]) == JustOpened(events) + [e]
  {
  }

  /** What opening for one stream adds to the files just opened. */
  lemma StreamOpened(w: World, e: Event)
    requires e.OpenRead? || e.OpenWrite?
    ensures var v := Open(w, e).0;
      !v.failed ==> JustOpened(v.events) == JustOpened(w.events) + [e] && !w.failed && Open(w, e).1 == File(w.files)
  {
    OneOpened(w.events, e);
  }

  lemma OutputOpened(w: World, file: string)
    ensures var (v, h) := OpenOut(w, file);
      !v.failed ==>
        && !w.failed
        && JustOpened(v.events) == JustOpened(w.events)
           + (if file == "NUL:" || file == "/dev/null" then [] else [OpenWrite(file, w.files)])
        && h == if file == "NUL:" || file == "/dev/null" then DevNull else File(w.files)
  {
    if !IsNullDevice(file) { StreamOpened(w, OpenWrite(file, w.files)); }
  }

  lemma StdinRedirected(w: World, c: Command, pids: seq<nat>)
    requires Settled(w)
    ensures var (v, stdin, f) := OpenStdin(w, c, pids);
      !v.failed && pids == [] ==> match c.stdin
        case None => JustOpened(v.events) == [] && stdin == InheritIn
        case Some(file) => JustOpened(v.events) == [OpenRead(file, w.files)] && stdin == FromFile(w.files)
    ensures var (v, stdin, f) := OpenStdin(w, c, pids); pids != [] ==> JustOpened(v.events) == []
  {
    if c.stdin.Some? { StreamOpened(w, OpenRead(c.stdin.value, w.files)); }
    hide Open, JustOpened;
  }

  lemma StdoutRedirected(w: World, c: Command)
    ensures var (v, stdout, f) := OpenStdout(w, c);
      !v.failed ==> !w.failed && match c.stdout
        case StdoutNone => JustOpened(v.events) == JustOpened(w.events) && stdout == InheritOut
        case StdoutPipe => JustOpened(v.events) == JustOpened(w.events) && stdout == ToPipe
        case StdoutFile(file) =>
          if file in ["NUL:", "/dev/null"] then
            JustOpened(v.events) == JustOpened(w.events) && stdout == ToHandle(DevNull)
          else
            && JustOpened(v.events) == JustOpened(w.events) + [OpenWrite(file, w.files)]
            && stdout == ToHandle(File(w.files))
  {
    if c.stdout.StdoutFile? { OutputOpened(w, c.stdout.file); }
    hide Open, OpenOut, JustOpened;
  }

  lemma StderrRedirected(w: World, c: Command)
    ensures var (v, stderr, f) := OpenStderr(w, c);
      !v.failed ==> !w.failed && match c.stderr
        case StderrNone => JustOpened(v.events) == JustOpened(w.events) && stderr == InheritOut
        case StderrToStdout => JustOpened(v.events) == JustOpened(w.events) && stderr == ToStdout
        case StderrFile(file) =>
          if file in ["NUL:", "/dev/null"] then
            JustOpened(v.events) == JustOpened(w.events) && stderr == ToHandle(DevNull)
          else
            && JustOpened(v.events) == JustOpened(w.events) + [OpenWrite(file, w.files)]
            && stderr == ToHandle(File(w.files))
  {
    if c.stderr.StderrFile? { OutputOpened(w, c.stderr.file); }
    hide Open, OpenOut, JustOpened;
  }

  lemma StreamsRedirected(w: World, c: Command, pids: seq<nat>, cwd: string)
    requires Settled(w)
    ensures var (w1, stdin, f1) := OpenStdin(w, c, pids);
      var (w2, stdout, f2) := OpenStdout(w1, c);
      var (w3, stderr, f3) := OpenStderr(w2, c);
      var e := Start(w3.pids, c.argv, stdin, stdout, stderr, c.env, if cwd == "." then None else Some(cwd));
      !w3.failed ==> Redirects(Launch(JustOpened(w3.events), e), Call(c, cwd, pids != []))
  {
    hide OpenStdin, OpenStdout, OpenStderr, JustOpened;
    var (w1, stdin, f1) := OpenStdin(w, c, pids);
    var (w2, stdout, f2) := OpenStdout(w1, c);
    StdinRedirected(w, c, pids);
    StdoutRedirected(w1, c);
    StderrRedirected(w2, c);
  }

  lemma StartCommandIs(w: World, c: Command, pids: seq<nat>, cwd: string) returns (e: Event)
    requires Settled(w) && (pids != [] ==> pids[|pids| - 1] == w.pids - 1)
    requires Opened(w, c, pids).pids == w.pids
    ensures var u := Opened(w, c, pids);
      && e.Start? && (!u.failed ==> Matches(Launch(JustOpened(u.events), e), Call(c, cwd, pids != []), w.pids))
      && StartCommand(w, c, pids, cwd).0
         == if u.failed || !u.around.canStart(u.pids) then u.(failed := true)
            else u.(events := u.events + [e], pids := u.pids + 1)
  {
    var (w1, stdin, f1) := OpenStdin(w, c, pids);
    var (w2, stdout, f2) := OpenStdout(w1, c);
    var (w3, stderr, f3) := OpenStderr(w2, c);
    e := Start(w3.pids, c.argv, stdin, stdout, stderr, c.env, if cwd == "." then None else Some(cwd));
    StreamsRedirected(w, c, pids, cwd);
    hide Open, OpenOut, JustOpened, Redirects;
  }

  lemma StartOne(w: World, c: Command, pids: seq<nat>, cwd: string) returns (added: seq<Launch>)
    requires !w.failed && Settled(w) && (pids != [] ==> pids[|pids| - 1] == w.pids - 1)
    ensures StartsOne(w, StartCommand(w, c, pids, cwd).0, added, c, cwd, pids != [])
  {
    OpensOnly(w, c, pids);
    var u := Opened(w, c, pids);
    var e := StartCommandIs(w, c, pids, cwd);
    hide *;
    added := StartedOrNot(w, u, StartCommand(w, c, pids, cwd).0, e, c, cwd, pids != []);
  }

  lemma StartedOrNot(w: World, u: World, v: World, e: Event, c: Command, cwd: string, piped: bool)
    returns (added: seq<Launch>)
    requires OnlyOpens(w, u) && e.Start?
    requires !u.failed ==> Matches(Launch(JustOpened(u.events), e), Call(c, cwd, piped), w.pids)
    requires v == if u.failed || !u.around.canStart(u.pids) then u.(failed := true)
                  else u.(events := u.events + [e], pids := u.pids + 1)
    ensures StartsOne(w, v, added, c, cwd, piped)
  {
    added := if u.failed || !u.around.canStart(u.pids) then [] else [Launch(JustOpened(u.events), e)];
    assert Starts(w.events) + [] == Starts(w.events);
    hide Matches;
  }

  lemma FirstStage(group: seq<Stage>)
    requires group != []
    ensures DirsGiven(group) <==> AllGiven(group[0].dirs) && DirsGiven(group[1..])
  {
  }

  lemma Unroll(group: seq<Stage>, w: World, pids: seq<nat>, files: seq<Handle>, cwd: string)
    requires group != [] && AllGiven(group[0].dirs)
    ensures var dir := After(cwd, group[0].dirs);
      var (v, opens) := StartCommand(w, group[0].command, pids, dir);
      && StartStages(group, w, pids, files, cwd)
         == (if v.failed then Broken(v, OSError)
             else StartStages(group[1..], v, pids + [w.pids], files + opens, dir))
      && GroupDir(group, cwd) == GroupDir(group[1..], dir)
      && forall piped :: GroupCalls(group, cwd, piped)
           == [Call(group[0].command, dir, piped)] + GroupCalls(group[1..], dir, true)
  {
    JoinDirsIs(cwd, group[0].dirs);
    hide StartCommand, AllGiven;
  }

  lemma BreaksOff(group: seq<Stage>, w: World, pids: seq<nat>, files: seq<Handle>, cwd: string)
    requires group != [] && !AllGiven(group[0].dirs)
    ensures StartStages(group, w, pids, files, cwd) == Broken(w, TypeError) && GroupCalls(group, cwd, pids != []) == []
    ensures Starts(w.events) == Starts(w.events) + [] && AllMatch([], [], w.pids)
  {
    JoinDirsIs(cwd, group[0].dirs);
    hide StartCommand, AllGiven;
  }

  /** What starting a pipe comes to: its commands are started in order, each reading from the one
      before, up to a cd without a directory, a file or a process that cannot be had. */
  ghost predicate StartedAs(s: Started, group: seq<Stage>, w: World, pids: seq<nat>, cwd: string, added: seq<Launch>) {
    var calls := GroupCalls(group, cwd, pids != []);
    && Starts(s.world.events) == Starts(w.events) + added && s.world.pids == w.pids + |added|
    && s.world.around == w.around && (Had(w) ==> Had(s.world))
    && |added| <= |calls| && AllMatch(added, calls[..|added|], w.pids)
    && match s {
      case Broken(v, error) =>
        if v.failed then error == OSError && Fails(v)
        else error == TypeError && !DirsGiven(group) && |added| == |calls|
      case Up(v, ps, _, dir) =>
        && !v.failed && Settled(v) && DirsGiven(group) && dir == GroupDir(group, cwd)
        && |added| == |calls| == |group| && |ps| == |pids| + |group|
        && (ps != [] ==> ps[|ps| - 1] == w.pids + |group| - 1)
    }
  }

  lemma {:induction false} StartsOfStages(group: seq<Stage>, w: World, pids: seq<nat>, files: seq<Handle>, cwd: string)
    returns (added: seq<Launch>)
    requires !w.failed && Settled(w) && (pids != [] ==> pids[|pids| - 1] == w.pids - 1)
    ensures StartedAs(StartStages(group, w, pids, files, cwd), group, w, pids, cwd, added)
    decreases |group|
  {
    hide *;
    if group == [] {
      added := [];
      StartedNone(w, pids, files, cwd);
    } else if !AllGiven(group[0].dirs) {
      added := [];
      StartedBroken(group, w, pids, files, cwd);
    } else {
      var dir := After(cwd, group[0].dirs);
      Unroll(group, w, pids, files, cwd);
      var one := StartOne(w, group[0].command, pids, dir);
      var (v, opens) := StartCommand(w, group[0].command, pids, dir);
      OnePid(w, v, one, group[0].command, dir, pids != []);
      if v.failed {
        added := one;
        StartedFailed(v, group, w, pids, cwd, one);
      } else {
        var more := StartsOfStages(group[1..], v, pids + [w.pids], files + opens, dir);
        added := one + more;
        StartedMore(StartStages(group, w, pids, files, cwd), group, w, v, pids, cwd, one, more);
      }
    }
  }

  lemma OnePid(w: World, v: World, added: seq<Launch>, c: Command, cwd: string, piped: bool)
    requires StartsOne(w, v, added, c, cwd, piped)
    ensures !v.failed ==> v.pids == w.pids + 1 && Settled(v)
  {
  }

  lemma StartedNone(w: World, pids: seq<nat>, files: seq<Handle>, cwd: string)
    requires !w.failed && Settled(w) && (pids != [] ==> pids[|pids| - 1] == w.pids - 1)
    ensures StartedAs(StartStages([], w, pids, files, cwd), [], w, pids, cwd, [])
  {
  }

  lemma StartedBroken(group: seq<Stage>, w: World, pids: seq<nat>, files: seq<Handle>, cwd: string)
    requires !w.failed && group != [] && !AllGiven(group[0].dirs)
    ensures StartedAs(StartStages(group, w, pids, files, cwd), group, w, pids, cwd, [])
  {
    FirstStage(group);
    BreaksOff(group, w, pids, files, cwd);
    hide StartStages, GroupCalls, Starts, AllGiven, DirsGiven, Had;
  }

  lemma StartedFailed(v: World, group: seq<Stage>, w: World, pids: seq<nat>, cwd: string, one: seq<Launch>)
    requires group != [] && v.failed
    requires StartsOne(w, v, one, group[0].command, After(cwd, group[0].dirs), pids != [])
    ensures StartedAs(Broken(v, OSError), group, w, pids, cwd, one)
  {
  }

  lemma StartedMore(s: Started, group: seq<Stage>, w: World, v: World, pids: seq<nat>, cwd: string, one: seq<Launch>,
                    more: seq<Launch>)
    requires group != [] && AllGiven(group[0].dirs) && !v.failed
    requires StartsOne(w, v, one, group[0].command, After(cwd, group[0].dirs), pids != [])
    requires StartedAs(s, group[1..], v, pids + [w.pids], After(cwd, group[0].dirs), more)
    ensures StartedAs(s, group, w, pids, cwd, one + more)
  {
    var dir := After(cwd, group[0].dirs);
    FirstStage(group);
    var c, rest := Call(group[0].command, dir, pids != []), GroupCalls(group[1..], dir, true);
    assert GroupCalls(group, cwd, pids != []) == [c] + rest;
    assert GroupDir(group, cwd) == GroupDir(group[1..], dir);
    hide GroupCalls, GroupDir, Starts, AllGiven, DirsGiven, Matches, AllMatch, Had, Fails, After;
    MatchMore(one, more, c, rest, w.pids);
    Regroup(Starts(w.events), one, more);
  }

  lemma MatchMore(one: seq<Launch>, more: seq<Launch>, c: Call, rest: seq<Call>, n: nat)
    requires |one| == 1 && Matches(one[0], c, n) && |more| <= |rest| && AllMatch(more, rest[..|more|], n + 1)
    ensures AllMatch(one + more, ([c] + rest)[..|one + more|], n)
  {
    hide Matches;
    assert ([c] + rest)[..1 + |more|] == [c] + rest[..|more|];
  }

  /** What a run comes to: the commands its reading calls for are started, in order, and it ends as the
      reading says, with the exit code of the last process started; or it is broken off by the first
      file or process that cannot be had. */
  ghost predicate RanAs(t: Tree, w: World, cwd: string, exits: nat -> int, outcome: Outcome, v: World,
                        added: seq<Launch>)
    requires Shaped(t)
  {
    var calls := Calls(t, w.pids, cwd, exits);
    && Starts(v.events) == Starts(w.events) + added && v.pids == w.pids + |added|
    && v.around == w.around && (Had(w) ==> Had(v))
    && |added| <= |calls| && AllMatch(added, calls[..|added|], w.pids)
    && if v.failed then outcome == OSError && Fails(v)
       else
         && |added| == |calls| && outcome == Ending(t, w.pids, exits)
         && (outcome.Exit? ==> |added| > 0 && outcome.code == exits(v.pids - 1))
  }

  lemma {:induction false} RunStartsCalls(t: Tree, w: World, cwd: string, exits: nat -> int)
    returns (added: seq<Launch>)
    requires Shaped(t) && !w.failed && Settled(w)
    ensures var (outcome, v) := Meaning(t, w, [], [], cwd, exits); RanAs(t, w, cwd, exits, outcome, v, added)
    decreases t
  {
    hide *;
    var first := StartsOfStages(t.group, w, [], [], cwd);
    var s := StartStages(t.group, w, [], [], cwd);
    if s.Up? && t.group != [] && GoesOn(t, w.pids, exits) {
      GroupGoesOn(t, w, cwd, exits, first);
      var v := Finish(s.world, s.pids, s.files);
      FinishStartsNothing(s.world, s.pids, s.files);
      FinishKeeps(s.world, s.pids, s.files);
      var more := RunStartsCalls(t.rest, v, s.cwd, exits);
      added := first + more;
      var (outcome, u) := Meaning(t.rest, v, [], [], s.cwd, exits);
      RanOn(t, w, cwd, exits, first, v, outcome, u, more);
    } else {
      added := first;
      CallsFirst(t, w.pids, cwd, exits);
      if s.Broken? {
        GroupBreaks(t, w, cwd, exits, first);
      } else if Unfinished(t) {
        GroupUnfinished(t, w, cwd, exits, first);
      } else {
        GroupEnds(t, w, cwd, exits, first);
      }
    }
  }

  /** The first pipe of a reading after which it goes on, ... */
  lemma GroupGoesOn(t: Tree, w: World, cwd: string, exits: nat -> int, first: seq<Launch>)
    requires Shaped(t) && t.group != [] && GoesOn(t, w.pids, exits)
    requires StartStages(t.group, w, [], [], cwd).Up?
    requires StartedAs(StartStages(t.group, w, [], [], cwd), t.group, w, [], cwd, first)
    ensures (t.AndThen? || t.OrElse?) && Shaped(t.rest)
    ensures var s := StartStages(t.group, w, [], [], cwd);
      && !s.world.failed && Settled(s.world) && s.cwd == GroupDir(t.group, cwd)
      && s.world.around == w.around && (Had(w) ==> Had(s.world))
      && Starts(s.world.events) == Starts(w.events) + first && AllMatch(first, GroupCalls(t.group, cwd, false), w.pids)
      && s.world.pids == w.pids + |t.group| && |first| == |t.group|
      && Meaning(t, w, [], [], cwd, exits) == Meaning(t.rest, Finish(s.world, s.pids, s.files), [], [], s.cwd, exits)
  {
    assert GroupCalls(t.group, cwd, false)[..|first|] == GroupCalls(t.group, cwd, false);
    hide StartStages, GroupCalls, GroupDir, Starts, JoinDirs, AllGiven, DirsGiven, AllMatch, Finish, Had;
  }

  lemma RanOn(t: Tree, w: World, cwd: string, exits: nat -> int, first: seq<Launch>, u: World, outcome: Outcome,
              v: World, more: seq<Launch>)
    requires Shaped(t) && t.group != [] && GoesOn(t, w.pids, exits)
    requires u.pids == w.pids + |t.group| && |first| == |t.group| && u.around == w.around && (Had(w) ==> Had(u))
    requires Starts(u.events) == Starts(w.events) + first && AllMatch(first, GroupCalls(t.group, cwd, false), w.pids)
    requires (t.AndThen? || t.OrElse?) && Shaped(t.rest)
    requires RanAs(t.rest, u, GroupDir(t.group, cwd), exits, outcome, v, more)
    ensures RanAs(t, w, cwd, exits, outcome, v, first + more)
  {
    var calls, rest := GroupCalls(t.group, cwd, false), Calls(t.rest, u.pids, GroupDir(t.group, cwd), exits);
    hide Calls, GroupCalls, GroupDir, Starts, AllMatch, Had, Fails, Ending, GoesOn, Shaped;
    CallsOn(t, w.pids, cwd, exits);
    MatchOn(calls, rest, first, more, w.pids);
    Regroup(Starts(w.events), first, more);
  }

  lemma CallsOn(t: Tree, n: nat, cwd: string, exits: nat -> int)
    requires Shaped(t) && t.group != [] && GoesOn(t, n, exits)
    ensures (t.AndThen? || t.OrElse?) && Shaped(t.rest) && DirsGiven(t.group) && !Unfinished(t)
    ensures Ending(t, n, exits) == Ending(t.rest, n + |t.group|, exits)
    ensures Calls(t, n, cwd, exits)
         == GroupCalls(t.group, cwd, false) + Calls(t.rest, n + |t.group|, GroupDir(t.group, cwd), exits)
  {
  }

  lemma MatchOn(a: seq<Call>, b: seq<Call>, x: seq<Launch>, y: seq<Launch>, n: nat)
    requires |x| == |a| && |y| <= |b| && AllMatch(x, a, n) && AllMatch(y, b[..|y|], n + |x|)
    ensures AllMatch(x + y, (a + b)[..|x + y|], n)
  {
    hide Matches;
    assert (a + b)[..|x + y|] == a + b[..|y|];
  }

  lemma EndMeaning(t: Tree, w: World, cwd: string, exits: nat -> int)
    requires Shaped(t)
    requires var s := StartStages(t.group, w, [], [], cwd);
      && (s.Up? ==> t.group == [] || (DirsGiven(t.group) && !GoesOn(t, w.pids, exits)))
      && (s.Up? && t.group != [] ==> s.pids != [] && s.pids[|s.pids| - 1] == w.pids + |t.group| - 1)
    ensures var s := StartStages(t.group, w, [], [], cwd);
      Meaning(t, w, [], [], cwd, exits)
      == if s.Broken? then (s.error, s.world)
         else if t.Dangling? then
           (if JoinDirs(s.cwd, t.dirs[..|t.dirs| - 1]).None? then TypeError else IndexError, s.world)
         else if t.Cut? then (if JoinDirs(s.cwd, t.dirs).None? then TypeError else NoValue, s.world)
         else (Exit(exits(w.pids + |t.group| - 1)), Finish(s.world, s.pids, s.files))
  {
    hide StartStages, JoinDirs, AllGiven, DirsGiven, Finish;
  }

  lemma {:induction false} CallsFirst(t: Tree, n: nat, cwd: string, exits: nat -> int)
    requires Shaped(t)
    ensures GroupCalls(t.group, cwd, false) <= Calls(t, n, cwd, exits)
    ensures t.group == [] || !GoesOn(t, n, exits) ==> Calls(t, n, cwd, exits) == GroupCalls(t.group, cwd, false)
    ensures !DirsGiven(t.group) ==> (t.group != [] && !GoesOn(t, n, exits)) && Ending(t, n, exits) == TypeError
    ensures DirsGiven(t.group) && (t.group == [] || !GoesOn(t, n, exits)) ==>
      Ending(t, n, exits)
      == if t.Dangling? then if AllGiven(t.dirs[..|t.dirs| - 1]) then IndexError else TypeError
         else if t.Cut? then if AllGiven(t.dirs) then NoValue else TypeError
         else Exit(exits(n + |t.group| - 1))
    ensures (Unfinished(t) <==> t.Dangling? || t.Cut?) && (Unfinished(t) || t.group != [])
  {
  }

  lemma RanHere(t: Tree, w: World, cwd: string, exits: nat -> int, outcome: Outcome, v: World, first: seq<Launch>)
    requires Shaped(t) && |first| <= |GroupCalls(t.group, cwd, false)|
    requires Starts(v.events) == Starts(w.events) + first && v.pids == w.pids + |first|
    requires v.around == w.around && (Had(w) ==> Had(v))
    requires AllMatch(first, GroupCalls(t.group, cwd, false)[..|first|], w.pids)
    requires
      if v.failed then outcome == OSError && Fails(v)
      else
        && (t.group == [] || !GoesOn(t, w.pids, exits)) && |first| == |GroupCalls(t.group, cwd, false)|
        && outcome == Ending(t, w.pids, exits) && (outcome.Exit? ==> |first| > 0 && outcome.code == exits(v.pids - 1))
    ensures RanAs(t, w, cwd, exits, outcome, v, first)
  {
    CallsFirst(t, w.pids, cwd, exits);
    hide Calls, Ending, GroupCalls, Starts, AllMatch, Shaped, GoesOn, Had, Fails;
    assert Calls(t, w.pids, cwd, exits)[..|first|] == GroupCalls(t.group, cwd, false)[..|first|];
  }

  /** ... one that is broken off, ... */
  lemma GroupBreaks(t: Tree, w: World, cwd: string, exits: nat -> int, first: seq<Launch>)
    requires Shaped(t) && StartStages(t.group, w, [], [], cwd).Broken?
    requires StartedAs(StartStages(t.group, w, [], [], cwd), t.group, w, [], cwd, first)
    ensures var (outcome, v) := Meaning(t, w, [], [], cwd, exits); RanAs(t, w, cwd, exits, outcome, v, first)
  {
    var s := StartStages(t.group, w, [], [], cwd);
    var (outcome, v) := Meaning(t, w, [], [], cwd, exits);
    CallsFirst(t, w.pids, cwd, exits);
    EndMeaning(t, w, cwd, exits);
    hide Meaning, Calls, Ending, StartStages, GroupCalls, GroupDir, Starts, AllGiven, DirsGiven, AllMatch, Had, Fails;
    RanHere(t, w, cwd, exits, outcome, v, first);
  }

  /** ... one at the end without a command, ... */
  lemma GroupUnfinished(t: Tree, w: World, cwd: string, exits: nat -> int, first: seq<Launch>)
    requires Shaped(t) && StartStages(t.group, w, [], [], cwd).Up? && Unfinished(t)
    requires StartedAs(StartStages(t.group, w, [], [], cwd), t.group, w, [], cwd, first)
    ensures var (outcome, v) := Meaning(t, w, [], [], cwd, exits); RanAs(t, w, cwd, exits, outcome, v, first)
  {
    var s := StartStages(t.group, w, [], [], cwd);
    var (outcome, v) := Meaning(t, w, [], [], cwd, exits);
    CallsFirst(t, w.pids, cwd, exits);
    EndMeaning(t, w, cwd, exits);
    JoinDirsIs(s.cwd, if t.Dangling? then t.dirs[..|t.dirs| - 1] else t.dirs);
    hide Meaning, Calls, Ending, StartStages, GroupCalls, GroupDir, Starts;
    hide JoinDirs, AllGiven, DirsGiven, AllMatch, Had, Fails;
    RanHere(t, w, cwd, exits, outcome, v, first);
  }

  lemma StartedUp(s: Started, group: seq<Stage>, w: World, cwd: string, first: seq<Launch>)
    requires s.Up? && group != [] && StartedAs(s, group, w, [], cwd, first)
    ensures DirsGiven(group) && !s.world.failed && s.world.around == w.around && (Had(w) ==> Had(s.world))
    ensures |first| == |GroupCalls(group, cwd, false)| == |group| && s.world.pids == w.pids + |group|
    ensures Starts(s.world.events) == Starts(w.events) + first
    ensures AllMatch(first, GroupCalls(group, cwd, false)[..|first|], w.pids)
    ensures s.pids != [] && s.pids[|s.pids| - 1] == w.pids + |group| - 1
  {
  }

  /** ... and one after which it does not go on. */
  lemma GroupEnds(t: Tree, w: World, cwd: string, exits: nat -> int, first: seq<Launch>)
    requires Shaped(t) && StartStages(t.group, w, [], [], cwd).Up? && !Unfinished(t)
    requires t.group != [] && !GoesOn(t, w.pids, exits)
    requires StartedAs(StartStages(t.group, w, [], [], cwd), t.group, w, [], cwd, first)
    ensures var (outcome, v) := Meaning(t, w, [], [], cwd, exits); RanAs(t, w, cwd, exits, outcome, v, first)
  {
    hide *;
    var s := StartStages(t.group, w, [], [], cwd);
    var (outcome, v) := Meaning(t, w, [], [], cwd, exits);
    StartedUp(s, t.group, w, cwd, first);
    CallsFirst(t, w.pids, cwd, exits);
    EndMeaning(t, w, cwd, exits);
    FinishStartsNothing(s.world, s.pids, s.files);
    FinishKeeps(s.world, s.pids, s.files);
    RanHere(t, w, cwd, exits, outcome, v, first);
  }

  lemma FinishKeeps(w: World, pids: seq<nat>, files: seq<Handle>)
    ensures var v := Finish(w, pids, files);
      v.pids == w.pids && v.failed == w.failed && v.around == w.around && (Had(w) <==> Had(v))
  {
  }

  // ------------------------------------------------------- runs that raise

  /** Every cd names a directory and is followed by a command. */
  ghost predicate Sound(t: Tree) {
    && t.group != [] && DirsGiven(t.group)
    && match t {
      case Final(_) => true
      case AndThen(_, rest) => Sound(rest)
      case OrElse(_, rest) => Sound(rest)
      case _ => false
    }
  }

  lemma {:induction false} SoundExits(t: Tree, n: nat, exits: nat -> int)
    requires Sound(t)
    ensures Shaped(t) && Ending(t, n, exits).Exit?
    decreases t
  {
    hide DirsGiven;
    if t.AndThen? || t.OrElse? { SoundExits(t.rest, n + |t.group|, exits); }
  }

  /** Exit codes with which every pipe is run. */
  ghost function GoingOn(t: Tree, n: nat, k: nat): int {
    match t
    case AndThen(group, rest) => if k + 1 == n + |group| then 0 else GoingOn(rest, n + |group|, k)
    case OrElse(group, rest) => if k + 1 == n + |group| then 1 else GoingOn(rest, n + |group|, k)
    case _ => 0
  }

  lemma {:induction false} UnsoundRaises(t: Tree, n: nat, exits: nat -> int)
    requires Shaped(t) && !Sound(t) && forall k: nat :: k >= n ==> exits(k) == GoingOn(t, n, k)
    ensures !Ending(t, n, exits).Exit?
    decreases t
  {
    if DirsGiven(t.group) && !Unfinished(t) {
      assert exits(n + |t.group| - 1) == GoingOn(t, n, n + |t.group| - 1);
      forall k: nat | k >= n + |t.group| ensures exits(k) == GoingOn(t.rest, n + |t.group|, k) {
        assert exits(k) == GoingOn(t, n, k);
      }
      hide DirsGiven, GoingOn;
      UnsoundRaises(t.rest, n + |t.group|, exits);
    }
  }

  /** A pipeline is sound exactly when it returns an exit code whatever the codes of its commands; one
      that is not may still do so with other codes, like `false && cd`. */
  lemma NeverRaisesExactlyWhenSound(t: Tree, n: nat)
    requires Shaped(t)
    ensures Sound(t) <==> forall exits: nat -> int :: Ending(t, n, exits).Exit?
  {
    if Sound(t) {
      forall exits: nat -> int ensures Ending(t, n, exits).Exit? { SoundExits(t, n, exits); }
    } else {
      var exits: nat -> int := (k: nat) => GoingOn(t, n, k);
      UnsoundRaises(t, n, exits);
    }
  }

  /** The pipeline ends in a command, and every cd in it names a directory. */
  ghost predicate SoundNodes(nodes: seq<Node>) {
    && nodes != [] && nodes[|nodes| - 1].Cmd?
    && forall i :: 0 <= i < |nodes| && nodes[i].Chdir? ==> nodes[i].dir.Some?
  }

  lemma SoundStage(c: Command, t: Tree)
    requires t.group == [] ==> Unfinished(t)
    ensures Sound(PrependStage(Stage([], c), t)) <==> Sound(t)
  {
    FirstStage([Stage([], c)] + t.group);
    assert ([Stage([], c)] + t.group)[1..] == t.group;
    if t.group != [] { assert DirsGiven(PrependStage(Stage([], c), t).group) <==> DirsGiven(t.group); }
    hide DirsGiven;
  }

  lemma SoundDir(d: Option<string>, t: Tree)
    requires t.group == [] ==> Unfinished(t)
    ensures Sound(PrependDir(d, t)) <==> d.Some? && Sound(t)
  {
    if t.group != [] {
      var group := PrependDir(d, t).group;
      FirstStage(t.group);
      FirstStage(group);
      assert group[1..] == t.group[1..] && group[0].dirs == [d] + t.group[0].dirs;
      assert AllGiven([d] + t.group[0].dirs) <==> d.Some? && AllGiven(t.group[0].dirs) by {
        assert ([d] + t.group[0].dirs)[0] == d;
        assert forall j :: 0 <= j < |t.group[0].dirs| ==> ([d] + t.group[0].dirs)[j + 1] == t.group[0].dirs[j];
      }
      hide DirsGiven, AllGiven;
    }
  }

  lemma OneStageSound(c: Command)
    ensures DirsGiven([Stage([], c)])
  {
  }

  /** The reading is sound exactly when the pipeline ends in a command and every cd names a directory. */
  lemma {:induction false} SoundReading(nodes: seq<Node>)
    requires Runnable(nodes)
    ensures Shaped(Reading(nodes)) && (Sound(Reading(nodes)) <==> SoundNodes(nodes))
    decreases |nodes|
  {
    hide DirsGiven, Reading;
    ReadingStep(nodes);
    if |nodes| == 1 {
      if nodes[0].Cmd? { OneStageSound(nodes[0].command); }
    } else if nodes != [] {
      SoundReading(nodes[2..]);
      SoundNodesMore(nodes);
      var t := Reading(nodes[2..]);
      hide SoundNodes;
      match nodes[0]
      case Chdir(d) => SoundDir(d, t);
      case Cmd(c) =>
        if nodes[1].Pipe? { SoundStage(c, t); } else { OneStageSound(c); }
    }
  }

  lemma SoundNodesMore(nodes: seq<Node>)
    requires |nodes| > 1 && (nodes[1].Pipe? || nodes[1].And? || nodes[1].Or?)
    ensures SoundNodes(nodes) <==> SoundNodes(nodes[2..]) && (nodes[0].Chdir? ==> nodes[0].dir.Some?)
  {
    assert forall i :: 2 <= i < |nodes| ==> nodes[i] == nodes[2..][i - 2];
  }

  // ------------------------------------------------------------ pipes joined

  /** A command of the pipe writes into a pipe exactly when something comes after it in that pipe. */
  ghost predicate PipeStages(group: seq<Stage>, more: bool) {
    forall i :: 0 <= i < |group| ==> (group[i].command.stdout.StdoutPipe? <==> i < |group| - 1 || more)
  }

  ghost predicate PipesWritten(t: Tree) {
    PipeStages(t.group, Unfinished(t)) && (t.AndThen? || t.OrElse? ==> PipesWritten(t.rest))
  }

  lemma WrittenStage(s: Stage, t: Tree)
    requires PipesWritten(t) && s.command.stdout.StdoutPipe? && (t.group == [] ==> Unfinished(t))
    ensures PipesWritten(PrependStage(s, t))
  {
  }

  lemma WrittenDir(d: Option<string>, t: Tree)
    requires PipesWritten(t)
    ensures PipesWritten(PrependDir(d, t))
  {
  }

  lemma {:induction false} ReadingPipes(nodes: seq<Node>)
    requires Runnable(nodes)
    ensures PipesWritten(Reading(nodes))
    decreases |nodes|
  {
    if |nodes| > 1 {
      ReadingPipes(nodes[2..]);
      match nodes[0]
      case Chdir(d) => WrittenDir(d, Reading(nodes[2..]));
      case Cmd(c) =>
        if nodes[1].Pipe? { WrittenStage(Stage([], c), Reading(nodes[2..])); }
    }
  }

  /** A call reads from a pipe exactly when the call before it writes into one. */
  ghost predicate CallsJoined(calls: seq<Call>) {
    forall k :: 0 <= k < |calls| ==> (calls[k].piped <==> AfterPipe(calls, k))
  }

  ghost predicate AfterPipe(calls: seq<Call>, k: nat)
    requires k < |calls|
  {
    k > 0 && calls[k - 1].command.stdout.StdoutPipe?
  }

  lemma {:induction false} GroupJoined(group: seq<Stage>, more: bool, cwd: string, piped: bool)
    requires PipeStages(group, more)
    ensures var calls := GroupCalls(group, cwd, piped);
      forall k :: 0 <= k < |calls| ==>
        && calls[k].command == group[k].command
        && calls[k].piped == (k > 0 || piped)
    decreases |group|
  {
    if group != [] && AllGiven(group[0].dirs) {
      GroupJoined(group[1..], more, After(cwd, group[0].dirs), true);
    }
  }

  lemma GroupWhole(group: seq<Stage>, cwd: string, piped: bool)
    requires DirsGiven(group)
    ensures |GroupCalls(group, cwd, piped)| == |group|
  {
  }

  lemma JoinedOn(calls: seq<Call>, rest: seq<Call>)
    requires CallsJoined(calls) && CallsJoined(rest)
    requires calls != [] ==> !calls[|calls| - 1].command.stdout.StdoutPipe?
    ensures CallsJoined(calls + rest)
  {
  }

  lemma FirstCallsJoined(t: Tree, cwd: string)
    requires PipesWritten(t)
    ensures var calls := GroupCalls(t.group, cwd, false);
      && CallsJoined(calls)
      && (t.group != [] && DirsGiven(t.group) && !Unfinished(t) ==>
            calls != [] && !calls[|calls| - 1].command.stdout.StdoutPipe?)
  {
    GroupJoined(t.group, Unfinished(t), cwd, false);
    if DirsGiven(t.group) { GroupWhole(t.group, cwd, false); }
    hide GroupCalls, DirsGiven;
  }

  lemma {:induction false} CallsAreJoined(t: Tree, n: nat, cwd: string, exits: nat -> int)
    requires Shaped(t) && PipesWritten(t)
    ensures CallsJoined(Calls(t, n, cwd, exits))
    decreases t
  {
    hide CallsJoined, Calls, GroupCalls, GroupDir, PipeStages, DirsGiven, Unfinished, GoesOn, Shaped;
    FirstCallsJoined(t, cwd);
    if t.group != [] && GoesOn(t, n, exits) {
      CallsOn(t, n, cwd, exits);
      CallsAreJoined(t.rest, n + |t.group|, GroupDir(t.group, cwd), exits);
      JoinedOn(GroupCalls(t.group, cwd, false), Calls(t.rest, n + |t.group|, GroupDir(t.group, cwd), exits));
    } else {
      CallsFirst(t, n, cwd, exits);
    }
  }

  /** A process reads from a pipe exactly when the process started before it writes into one, and then
      from that process. */
  ghost predicate PipesJoined(starts: seq<Launch>) {
    forall k :: 0 <= k < |starts| ==> PipeJoined(starts, k)
  }

  ghost predicate PipeJoined(starts: seq<Launch>, k: nat)
    requires k < |starts|
  {
    && starts[k].start.Start?
    && if k > 0 && starts[k - 1].start.Start? && starts[k - 1].start.stdout == ToPipe then
         starts[k].start.stdin == FromPipe(starts[k - 1].start.pid)
       else !starts[k].start.stdin.FromPipe?
  }

  lemma StartsAreJoined(starts: seq<Launch>, calls: seq<Call>, n: nat)
    requires |starts| <= |calls| && CallsJoined(calls) && AllMatch(starts, calls[..|starts|], n)
    ensures PipesJoined(starts)
  {
  }

  /** What a run of any stored pipeline does.  When every file and process can be had, it starts exactly
      the commands called for, and it returns an exit code whatever the codes exactly when the pipeline
      ends in a command and every cd has a directory. */
  lemma RunOfPipeline(nodes: seq<Node>, exits: nat -> int, around: Surroundings) returns (added: seq<Launch>)
    requires Runnable(nodes)
    ensures Shaped(Reading(nodes))
    ensures var (outcome, v) := Meaning(Reading(nodes), Beginning(around), [], [], ".", exits);
      && Starts(v.events) == added && RanAs(Reading(nodes), Beginning(around), ".", exits, outcome, v, added)
      && Had(v) && (outcome == OSError <==> v.failed)
      && (v.failed ==> !around.canOpen(v.files) || !around.canStart(v.pids))
    ensures PipesJoined(added)
    ensures SoundNodes(nodes) <==> forall e: nat -> int :: Ending(Reading(nodes), 0, e).Exit?
  {
    SoundReading(nodes);
    ReadingPipes(nodes);
    NothingFailed(around);
    assert Had(Beginning(around)) && Beginning(around).events == [];
    hide *;
    NeverRaisesExactlyWhenSound(Reading(nodes), 0);
    added := RunStartsCalls(Reading(nodes), Beginning(around), ".", exits);
    var (outcome, v) := Meaning(Reading(nodes), Beginning(around), [], [], ".", exits);
    RanFromTheBeginning(Reading(nodes), around, exits, outcome, v, added);
    CallsAreJoined(Reading(nodes), 0, ".", exits);
    StartsAreJoined(added, Calls(Reading(nodes), 0, ".", exits), 0);
  }

  lemma {:induction false} EndingNotOSError(t: Tree, n: nat, exits: nat -> int)
    requires Shaped(t)
    ensures Ending(t, n, exits) != OSError
    decreases t
  {
    hide DirsGiven, AllGiven;
    if t.group != [] && GoesOn(t, n, exits) { EndingNotOSError(t.rest, n + |t.group|, exits); }
  }

  lemma RanFromTheBeginning(t: Tree, around: Surroundings, exits: nat -> int, outcome: Outcome, v: World,
                            added: seq<Launch>)
    requires Shaped(t) && RanAs(t, Beginning(around), ".", exits, outcome, v, added)
    ensures Starts(v.events) == added && Had(v) && (outcome == OSError <==> v.failed)
    ensures v.failed ==> !around.canOpen(v.files) || !around.canStart(v.pids)
  {
    EndingNotOSError(t, 0, exits);
    hide Calls, AllMatch, Ending, Shaped;
  }

  /** `c && cd` returns the status of c when that is not 0, and else is an IndexError. */
  lemma CdAtTheEnd(c: Command, exits: nat -> int)
    requires !c.stdout.StdoutPipe?
    ensures
      var nodes := [Cmd(c), And, Chdir(None)];
      && Runnable(nodes) && !SoundNodes(nodes) && Shaped(Reading(nodes))
      && Ending(Reading(nodes), 0, exits) == if exits(0) != 0 then Exit(exits(0)) else IndexError
  {
  }

  // --------------------------------------------- files closed, processes waited for

  /** Every file opened for a redirection is either closed or on the list, once; every process is
      either waited for or on the list. */
  ghost predicate Balanced(w: World, pids: seq<nat>, files: seq<Handle>) {
    && (forall n: nat :: FileBalanced(w, files, n))
    && (forall pid: nat :: PidBalanced(w, pids, pid))
  }

  ghost predicate FileBalanced(w: World, files: seq<Handle>, n: nat) {
    multiset(w.events)[Close(n)] + multiset(files)[File(n)] == if n < w.files then 1 else 0
  }

  ghost predicate PidBalanced(w: World, pids: seq<nat>, pid: nat) {
    multiset(w.events)[Wait(pid)] + multiset(pids)[pid] == if pid < w.pids then 1 else 0
  }

  /** Opening a file for a redirection: one more file, one more entry on the list. */
  lemma BalancedOpen(w: World, pids: seq<nat>, files: seq<Handle>, e: Event)
    requires Balanced(w, pids, files) && (e.OpenRead? || e.OpenWrite?)
    ensures var (v, h) := Open(w, e); !v.failed ==> Balanced(v, pids, files + [h])
  {
    var (v, h) := Open(w, e);
    if !v.failed {
      var fs := files + [h];
      forall n: nat ensures FileBalanced(v, fs, n) { assert FileBalanced(w, files, n); }
      forall pid: nat ensures PidBalanced(v, pids, pid) { assert PidBalanced(w, pids, pid); }
    }
  }

  lemma BalancedNull(w: World, pids: seq<nat>, files: seq<Handle>)
    requires Balanced(w, pids, files)
    ensures Balanced(w, pids, files + [DevNull])
  {
    forall n: nat ensures FileBalanced(w, files + [DevNull], n) { assert FileBalanced(w, files, n); }
  }

  lemma BalancedOpenOut(w: World, pids: seq<nat>, files: seq<Handle>, file: string)
    requires Balanced(w, pids, files)
    ensures var (v, h) := OpenOut(w, file); !v.failed ==> Balanced(v, pids, files + [h])
  {
    hide Balanced, Open;
    if IsNullDevice(file) {
      BalancedNull(w, pids, files);
    } else {
      BalancedOpen(w, pids, files, OpenWrite(file, w.files));
    }
  }

  lemma BalancedStart(w: World, pids: seq<nat>, files: seq<Handle>, e: Event)
    requires Balanced(w, pids, files) && e.Start?
    ensures Balanced(w.(events := w.events + [e], pids := w.pids + 1), pids + [w.pids], files)
  {
    var v, ps := w.(events := w.events + [e], pids := w.pids + 1), pids + [w.pids];
    forall n: nat ensures FileBalanced(v, files, n) { assert FileBalanced(w, files, n); }
    forall pid: nat ensures PidBalanced(v, ps, pid) { assert PidBalanced(w, pids, pid); }
  }

  lemma BalancedCommand(w: World, pids: seq<nat>, files: seq<Handle>, c: Command, cwd: string)
    requires Balanced(w, pids, files) && !w.failed
    ensures var (v, added) := StartCommand(w, c, pids, cwd); !v.failed ==> Balanced(v, pids + [w.pids], files + added)
  {
    hide Balanced, OpenOut, Open;
    var (w1, stdin, f1) := OpenStdin(w, c, pids);
    var (w2, stdout, f2) := OpenStdout(w1, c);
    var (w3, stderr, f3) := OpenStderr(w2, c);
    FailedStart(w, c, pids, cwd);
    if !w3.failed {
      assert files + [] == files && files + f1 + [] == files + f1;
      if f1 != [] { BalancedOpen(w, pids, files, OpenRead(c.stdin.value, w.files)); }
      if f2 != [] { BalancedOpenOut(w1, pids, files + f1, c.stdout.file); }
      assert files + f1 + f2 + [] == files + f1 + f2;
      if f3 != [] { BalancedOpenOut(w2, pids, files + f1 + f2, c.stderr.file); }
      OpensOnly(w, c, pids);
      var e := Start(w3.pids, c.argv, stdin, stdout, stderr, c.env, if cwd == "." then None else Some(cwd));
      BalancedStart(w3, pids, files + f1 + f2 + f3, e);
      assert files + f1 + f2 + f3 == files + (f1 + f2 + f3);
    }
  }

  lemma {:induction false} CloseCount(files: seq<Handle>, n: nat)
    ensures multiset(Closes(files))[Close(n)] == multiset(files)[File(n)]
    ensures forall pid :: multiset(Closes(files))[Wait(pid)] == 0
  {
    if files != [] {
      var m := |files| - 1;
      assert files == files[..m] + [files[m]];
      CloseCount(files[..m], n);
    }
  }

  lemma {:induction false} WaitCount(pids: seq<nat>, pid: nat)
    ensures multiset(Waits(pids))[Wait(pid)] == multiset(pids)[pid]
    ensures forall n :: multiset(Waits(pids))[Close(n)] == 0
  {
    if pids != [] {
      var m := |pids| - 1;
      assert pids == pids[..m] + [pids[m]];
      assert Waits(pids) == Waits(pids[..m]) + [Wait(pids[m])];
      WaitCount(pids[..m], pid);
    }
  }

  /** At the end of a pipe everything is waited for and closed. */
  lemma BalancedFinish(w: World, pids: seq<nat>, files: seq<Handle>)
    requires Balanced(w, pids, files)
    ensures Balanced(Finish(w, pids, files), [], [])
  {
    var v := Finish(w, pids, files);
    assert multiset(v.events) == multiset(w.events) + multiset(Waits(pids)) + multiset(Closes(files));
    forall n: nat ensures FileBalanced(v, [], n) {
      assert FileBalanced(w, files, n);
      CloseCount(files, n);
      WaitCount(pids, 0);
    }
    forall pid: nat ensures PidBalanced(v, [], pid) {
      assert PidBalanced(w, pids, pid);
      CloseCount(files, 0);
      WaitCount(pids, pid);
    }
  }

  lemma {:induction false} BalancedStages(group: seq<Stage>, w: World, pids: seq<nat>, files: seq<Handle>, cwd: string)
    requires Balanced(w, pids, files) && !w.failed
    ensures var s := StartStages(group, w, pids, files, cwd);
      if s.Up? then !s.world.failed && Balanced(s.world, s.pids, s.files) else !s.error.Exit?
    decreases |group|
  {
    hide Balanced, StartCommand;
    if group != [] && JoinDirs(cwd, group[0].dirs).Some? {
      var dir := JoinDirs(cwd, group[0].dirs).value;
      BalancedCommand(w, pids, files, group[0].command, dir);
      var (v, added) := StartCommand(w, group[0].command, pids, dir);
      if !v.failed { BalancedStages(group[1..], v, pids + [w.pids], files + added, dir); }
    }
  }

  /** A run that returns an exit code has waited for every process it started and closed every file it
      opened for a redirection, each exactly once.  The parent's ends of pipes are never closed. */
  lemma {:induction false} RedirectionsClosed(t: Tree, w: World, cwd: string, exits: nat -> int)
    requires Balanced(w, [], []) && !w.failed
    ensures var (outcome, v) := Meaning(t, w, [], [], cwd, exits); outcome.Exit? ==> Balanced(v, [], [])
    decreases t
  {
    hide Balanced, StartStages, Finish, Had;
    BalancedStages(t.group, w, [], [], cwd);
    var s := StartStages(t.group, w, [], [], cwd);
    if s.Up? {
      FinishKeeps(s.world, s.pids, s.files);
      BalancedFinish(s.world, s.pids, s.files);
      var v := Finish(s.world, s.pids, s.files);
      if t.AndThen? || t.OrElse? {
        RedirectionsClosed(t.rest, v, s.cwd, exits);
      }
    }
  }

  lemma NothingOpenAtFirst(around: Surroundings)
    ensures Balanced(Beginning(around), [], []) && !Beginning(around).failed && InOrder(Beginning(around).events)
  {
  }

  // ----------------------------------------------- started, waited for, closed

  /** Waiting comes after the starts, closing after the waiting. */
  ghost predicate InOrder(events: seq<Event>) {
    forall i :: 0 <= i < |events| ==> Follows(events, i)
  }

  ghost predicate Follows(events: seq<Event>, i: nat)
    requires i < |events|
  {
    && (events[i].Wait? ==> i > 0 && (events[i - 1].Start? || events[i - 1].Wait?))
    && (events[i].Close? ==> i > 0 && (events[i - 1].Wait? || events[i - 1].Close?))
  }

  lemma OneMoreInOrder(events: seq<Event>, e: Event)
    requires InOrder(events) && Follows(events + [e], |events|)
    ensures InOrder(events + [e])
  {
    var all := events + [e];
    forall i | 0 <= i < |all| ensures Follows(all, i) {
      if i < |events| {
        assert Follows(events, i) && all[i] == events[i] && (i > 0 ==> all[i - 1] == events[i - 1]);
      }
    }
  }

  lemma OpenInOrder(w: World, e: Event)
    requires InOrder(w.events) && !e.Wait? && !e.Close?
    ensures InOrder(Open(w, e).0.events)
  {
    OneMoreInOrder(w.events, e);
  }

  lemma OpenOutInOrder(w: World, file: string)
    requires InOrder(w.events)
    ensures InOrder(OpenOut(w, file).0.events)
  {
    OpenInOrder(w, OpenWrite(file, w.files));
    hide InOrder, Open;
  }

  lemma OpenedInOrder(w: World, c: Command, pids: seq<nat>)
    requires InOrder(w.events)
    ensures InOrder(Opened(w, c, pids).events)
  {
    var w1 := OpenStdin(w, c, pids).0;
    var w2 := OpenStdout(w1, c).0;
    if pids == [] && c.stdin.Some? { OpenInOrder(w, OpenRead(c.stdin.value, w.files)); }
    if c.stdout.StdoutFile? { OpenOutInOrder(w1, c.stdout.file); }
    if c.stderr.StderrFile? { OpenOutInOrder(w2, c.stderr.file); }
    hide InOrder, Open, OpenOut;
  }

  ghost predicate JustStarted(w: World) {
    w.events != [] && w.events[|w.events| - 1].Start?
  }

  lemma CommandInOrder(w: World, c: Command, pids: seq<nat>, cwd: string)
    requires InOrder(w.events)
    ensures var v := StartCommand(w, c, pids, cwd).0; InOrder(v.events) && (!v.failed ==> JustStarted(v))
  {
    var (w1, stdin, f1) := OpenStdin(w, c, pids);
    var (w2, stdout, f2) := OpenStdout(w1, c);
    var (w3, stderr, f3) := OpenStderr(w2, c);
    OpenedInOrder(w, c, pids);
    hide OpenStdin, OpenStdout, OpenStderr, InOrder;
    OneMoreInOrder(w3.events,
      Start(w3.pids, c.argv, stdin, stdout, stderr, c.env, if cwd == "." then None else Some(cwd)));
  }

  lemma {:induction false} StagesInOrder(group: seq<Stage>, w: World, pids: seq<nat>, files: seq<Handle>, cwd: string)
    requires InOrder(w.events)
    ensures var s := StartStages(group, w, pids, files, cwd);
      InOrder(s.world.events) && (s.Up? && group != [] ==> JustStarted(s.world) && s.pids != [])
    decreases |group|
  {
    hide InOrder, StartCommand;
    if group != [] && JoinDirs(cwd, group[0].dirs).Some? {
      var dir := JoinDirs(cwd, group[0].dirs).value;
      CommandInOrder(w, group[0].command, pids, dir);
      var (v, added) := StartCommand(w, group[0].command, pids, dir);
      if !v.failed { StagesInOrder(group[1..], v, pids + [w.pids], files + added, dir); }
    }
  }

  lemma {:induction false} WaitsInOrder(events: seq<Event>, pids: seq<nat>)
    requires InOrder(events) && events != [] && events[|events| - 1].Start?
    ensures var all := events + Waits(pids);
      InOrder(all) && (pids != [] ==> all[|all| - 1].Wait?) && (pids == [] ==> all == events)
  {
    if pids == [] {
      assert events + Waits(pids) == events;
    } else {
      var n := |pids| - 1;
      WaitsInOrder(events, pids[..n]);
      assert events + Waits(pids) == events + Waits(pids[..n]) + [Wait(pids[n])];
      OneMoreInOrder(events + Waits(pids[..n]), Wait(pids[n]));
      hide InOrder;
    }
  }

  lemma {:induction false} ClosesInOrder(events: seq<Event>, files: seq<Handle>)
    requires InOrder(events) && events != [] && events[|events| - 1].Wait?
    ensures var all := events + Closes(files);
      InOrder(all) && (all[|all| - 1].Wait? || all[|all| - 1].Close?)
  {
    if files == [] {
      assert events + Closes(files) == events;
    } else {
      var n := |files| - 1;
      ClosesInOrder(events, files[..n]);
      if files[n].DevNull? {
        assert Closes(files) == Closes(files[..n]);
      } else {
        assert events + Closes(files) == events + Closes(files[..n]) + [Close(files[n].n)];
        OneMoreInOrder(events + Closes(files[..n]), Close(files[n].n));
      }
      hide InOrder;
    }
  }

  /** The processes of a pipe are waited for once the last of them has been started, and its files are
      closed once the last has been waited for. */
  lemma {:induction false} RunInOrder(t: Tree, w: World, cwd: string, exits: nat -> int)
    requires Shaped(t) && InOrder(w.events)
    ensures InOrder(Meaning(t, w, [], [], cwd, exits).1.events)
    decreases t
  {
    hide InOrder, StartStages, JoinDirs, JustStarted;
    StagesInOrder(t.group, w, [], [], cwd);
    var s := StartStages(t.group, w, [], [], cwd);
    if s.Up? && t.group != [] {
      FinishInOrder(s.world, s.pids, s.files);
      if t.AndThen? || t.OrElse? { RunInOrder(t.rest, Finish(s.world, s.pids, s.files), s.cwd, exits); }
      hide Finish;
    }
  }

  lemma FinishInOrder(w: World, pids: seq<nat>, files: seq<Handle>)
    requires InOrder(w.events) && JustStarted(w) && pids != []
    ensures InOrder(Finish(w, pids, files).events)
  {
    WaitsInOrder(w.events, pids);
    ClosesInOrder(w.events + Waits(pids), files);
    hide InOrder;
  }

  // ------------------------------------------------------- one reading only

  /** The first change of directory, or the first command, taken off a reading. */
  ghost function Peel(t: Tree): Tree
    requires Shaped(t) && (t.group == [] ==> t.dirs != [])
  {
    if t.group == [] then t.(dirs := t.dirs[1..])
    else if t.group[0].dirs != [] then
      t.(group := t.group[0 := Stage(t.group[0].dirs[1..], t.group[0].command)])
    else t.(group := t.group[1..])
  }

  lemma PeelDir(t: Tree)
    requires Shaped(t) && t.group != [] && t.group[0].dirs != []
    ensures Shaped(Peel(t)) && t == PrependDir(t.group[0].dirs[0], Peel(t))
  {
    var s := t.group[0];
    assert s.dirs == [s.dirs[0]] + s.dirs[1..];
    assert t.group == Peel(t).group[0 := s];
  }

  lemma PeelStage(t: Tree)
    requires Shaped(t) && t.group != [] && t.group[0].dirs == []
    requires |t.group| > 1 || Unfinished(t)
    ensures Shaped(Peel(t)) && t == PrependStage(t.group[0], Peel(t))
  {
    assert t.group == [t.group[0]] + t.group[1..];
  }

  /** The change of directory at the front of an end without a command. */
  lemma PeelLone(t: Tree)
    requires Shaped(t) && t.group == [] && (t.Cut? ==> t.dirs != []) && (t.Dangling? ==> |t.dirs| > 1)
    ensures Shaped(Peel(t)) && t == PrependDir(t.dirs[0], Peel(t))
  {
  }

  lemma ShapedReading(t: Tree)
    requires Shaped(t)
    ensures (t.group == [] ==> Unfinished(t)) && (t.Dangling? ==> t.dirs != [])
  {
  }

  lemma ReadDir(d: Option<string>, u: Tree, nodes: seq<Node>)
    requires Runnable(nodes) && nodes == [Chdir(d), And] + Flatten(u)
    ensures |Flatten(u)| < |nodes| && Runnable(Flatten(u)) && Reading(nodes) == PrependDir(d, Reading(Flatten(u)))
  {
  }

  lemma ReadStage(s: Stage, u: Tree, nodes: seq<Node>)
    requires s.dirs == []
    requires Runnable(nodes) && nodes == FlattenStage(s) + [Pipe] + Flatten(u)
    ensures |Flatten(u)| < |nodes| && Runnable(Flatten(u)) && Reading(nodes) == PrependStage(s, Reading(Flatten(u)))
  {
  }

  lemma LastStage(t: Tree)
    requires Shaped(t) && |t.group| == 1 && t.group[0].dirs == [] && !Unfinished(t)
    requires Runnable(Flatten(t))
    ensures t.Final? ==> t == Reading(Flatten(t))
    ensures !t.Final? ==> Shaped(t.rest) && |Flatten(t.rest)| < |Flatten(t)| && Runnable(Flatten(t.rest))
    ensures t.AndThen? ==> Reading(Flatten(t)) == AndThen(t.group, Reading(Flatten(t.rest)))
    ensures t.OrElse? ==> Reading(Flatten(t)) == OrElse(t.group, Reading(Flatten(t.rest)))
  {
    var nodes := Flatten(t);
    var c := t.group[0].command;
    assert t.group == [Stage([], c)];
    ReadingStep(nodes);
    hide Flatten, Reading, FlattenStage;
    if t.Final? {
      FlattenOne(t);
    } else {
      FlattenBare(c, t.rest);
      assert nodes[2..] == Flatten(t.rest);
    }
  }

  lemma OneCd(t: Tree)
    requires t.group == [] && ((t.Cut? && t.dirs == []) || (t.Dangling? && |t.dirs| == 1))
    ensures Runnable(Flatten(t)) && t == Reading(Flatten(t))
  {
  }

  /** `Reading` is the only reading of a pipeline. */
  lemma {:induction false} OneReading(t: Tree)
    requires Shaped(t) && Runnable(Flatten(t))
    ensures t == Reading(Flatten(t))
    decreases |Flatten(t)|
  {
    hide Shaped, Reading, Peel, PrependDir, PrependStage, Flatten;
    ShapedReading(t);
    if t.group == [] && ((t.Cut? && t.dirs == []) || (t.Dangling? && |t.dirs| == 1)) {
      OneCd(t);
    } else if t.group == [] {
      PeelLone(t);
      ShapedReading(Peel(t));
      FlattenPrependDir(t.dirs[0], Peel(t));
      ReadDir(t.dirs[0], Peel(t), Flatten(t));
      OneReading(Peel(t));
    } else if t.group[0].dirs != [] {
      PeelDir(t);
      ShapedReading(Peel(t));
      FlattenPrependDir(t.group[0].dirs[0], Peel(t));
      ReadDir(t.group[0].dirs[0], Peel(t), Flatten(t));
      OneReading(Peel(t));
    } else if |t.group| > 1 || Unfinished(t) {
      PeelStage(t);
      ShapedReading(Peel(t));
      FlattenPrependStage(t.group[0], Peel(t));
      ReadStage(t.group[0], Peel(t), Flatten(t));
      OneReading(Peel(t));
    } else {
      LastStage(t);
      if !t.Final? {
        OneReading(t.rest);
      }
    }
  }
}
