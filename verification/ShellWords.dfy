/** The words of waf-tools/shellcmd.py that have a meaning of their own, by their characters: environment
    assignments, and directories that follow one another. */
module ShellWords {
  import opened Common
  import opened Shell
  import opened ShellRun
  import opened ShellRunLaws

  /** A letter, a digit or the underscore, by its number. */
  ghost predicate InName(c: char) {
    var n := c as int;
    48 <= n <= 57 || 65 <= n <= 90 || n == 95 || 97 <= n <= 122
  }

  lemma WordCharacters(c: char)
    ensures IsWordChar(c) <==> InName(c)
  {
  }

  /** Tabulator, line feed and the like, the blank, and the other separators of Unicode. */
  ghost predicate Separates(c: char) {
    || c in ['\t', '\n', '\r', ' ', '\U{00000B}', '\U{00000C}', '\U{00001C}', '\U{00001D}', '\U{00001E}', '\U{00001F}']
    || c in ['\U{000085}', '\U{0000A0}', '\U{001680}', '\U{002028}', '\U{002029}', '\U{00202F}', '\U{00205F}']
    || c == '\U{003000}'
    || '\U{002000}' <= c <= '\U{00200A}'
  }

  lemma SpaceCharacters(c: char)
    ensures IsSpace(c) <==> Separates(c)
  {
  }

  /** A name, an equals sign and a value, and perhaps a newline. */
  ghost predicate Assigns(t: string, name: string, value: string) {
    && name != "" && (forall i :: 0 <= i < |name| ==> InName(name[i]))
    && value != "" && (forall i :: 0 <= i < |value| ==> !Separates(value[i]))
    && (t == name + "=" + value || t == name + "=" + value + "\n")
  }

  lemma {:induction false} NamePrefix(name: string, rest: string)
    requires forall i :: 0 <= i < |name| ==> InName(name[i])
    requires rest != "" && !InName(rest[0])
    ensures WordPrefix(name + rest) == |name|
  {
    if name == "" {
      assert name + rest == rest;
    } else {
      assert (name + rest)[1..] == name[1..] + rest;
      NamePrefix(name[1..], rest);
    }
  }

  lemma AssignmentParts(t: string)
    requires IsAssignment(t)
    ensures Assigns(t, AssignedName(t), AssignedValue(t))
  {
    var n := WordPrefix(t);
    var rest := t[n + 1..];
    ValueParts(rest);
    NameParts(t, n, rest, WithoutNewline(rest));
    hide WordPrefix, WithoutNewline, Separates, InName;
  }

  lemma ValueParts(rest: string)
    requires IsAssignedValue(WithoutNewline(rest))
    ensures forall i :: 0 <= i < |WithoutNewline(rest)| ==> !Separates(WithoutNewline(rest)[i])
    ensures rest == WithoutNewline(rest) || rest == WithoutNewline(rest) + "\n"
  {
    forall i | 0 <= i < |WithoutNewline(rest)| ensures !Separates(WithoutNewline(rest)[i]) {
      SpaceCharacters(WithoutNewline(rest)[i]);
    }
    hide Separates, IsSpace;
  }

  lemma NameParts(t: string, n: nat, rest: string, value: string)
    requires 0 < n < |t| && t[n] == '=' && rest == t[n + 1..] && (rest == value || rest == value + "\n")
    ensures t == t[..n] + "=" + value || t == t[..n] + "=" + value + "\n"
  {
    assert t == t[..n] + "=" + rest;
    if rest != value { Regroup(t[..n] + "=", value, "\n"); }
  }

  lemma PartsAssign(t: string, name: string, value: string)
    requires Assigns(t, name, value)
    ensures IsAssignment(t) && AssignedName(t) == name && AssignedValue(t) == value
  {
    var rest := value + if t == name + "=" + value then "" else "\n";
    assert t == name + ("=" + rest);
    NamePrefix(name, "=" + rest);
    ValueTaken(value, rest);
    NameTaken(name, rest, t);
    hide WordPrefix, WithoutNewline, InName, Separates;
  }

  lemma ValueTaken(value: string, rest: string)
    requires value != "" && (forall i :: 0 <= i < |value| ==> !Separates(value[i]))
    requires rest == value || rest == value + "\n"
    ensures WithoutNewline(rest) == value && IsAssignedValue(value)
  {
    assert !Separates(value[|value| - 1]) && Separates('\n');
    forall i | 0 <= i < |value| ensures !IsSpace(value[i]) { SpaceCharacters(value[i]); }
    hide Separates, IsSpace;
  }

  lemma NameTaken(name: string, rest: string, t: string)
    requires t == name + ("=" + rest) && WordPrefix(t) == |name|
    ensures t[|name|] == '=' && t[|name| + 1..] == rest && t[..|name|] == name
  {
  }

  /** A token is an assignment exactly when it reads as one, and then of that name and value. */
  lemma AssignmentExactly(t: string, name: string, value: string)
    ensures Assigns(t, name, value) <==> IsAssignment(t) && AssignedName(t) == name && AssignedValue(t) == value
  {
    if IsAssignment(t) { AssignmentParts(t); }
    if Assigns(t, name, value) { PartsAssign(t, name, value); }
    hide Assigns, IsAssignment;
  }

  // -------------------------------------------------------------- directories

  ghost predicate Absolute(dir: string) {
    dir != "" && dir[0] == '/'
  }

  /** An absolute directory takes the place of the current one; another is appended, after one slash. */
  lemma JoinPathMeans(cwd: string, dir: string)
    ensures Absolute(dir) ==> JoinPath(cwd, dir) == dir
    ensures !Absolute(dir) && cwd != "" && cwd[|cwd| - 1] != '/' ==> JoinPath(cwd, dir) == cwd + "/" + dir
    ensures !Absolute(dir) && cwd != "" && cwd[|cwd| - 1] == '/' ==> JoinPath(cwd, dir) == cwd + dir
  {
  }

  lemma OneDirMore(d: Option<string>, dirs: seq<Option<string>>, c: Command)
    ensures PrependDir(d, Final([Stage(dirs, c)])) == Final([Stage([d] + dirs, c)])
  {
    assert [Stage(dirs, c)][0 := Stage([d] + dirs, c)] == [Stage([d] + dirs, c)];
  }

  /** From "." to a and on to b. */
  ghost function TwoOn(a: string, b: string): string {
    var first := if Absolute(a) then a else "./" + a;
    if Absolute(b) then b else if first[|first| - 1] == '/' then first + b else first + "/" + b
  }

  lemma AfterTwo(a: string, b: string)
    ensures After(".", [Some(a), Some(b)]) == TwoOn(a, b)
  {
    assert [Some(a), Some(b)][1..] == [Some(b)] && [Some(b)][1..] == [];
    assert "." + "/" == "./";
    var first := JoinPath(".", a);
    JoinPathMeans(".", a);
    assert first == if Absolute(a) then a else "./" + a;
    JoinPathMeans(first, b);
    assert After(JoinPath(first, b), []) == JoinPath(first, b);
    assert After(first, [Some(b)]) == JoinPath(first, b);
  }

  /** Where c runs in `cd a && cd b && c`. */
  lemma TwoDirectories(a: string, b: string, c: Command, exits: nat -> int)
    requires !c.stdout.StdoutPipe?
    ensures
      var nodes := [Chdir(Some(a)), And, Chdir(Some(b)), And, Cmd(c)];
      && Runnable(nodes) && Shaped(Reading(nodes))
      && Calls(Reading(nodes), 0, ".", exits) == [Call(c, TwoOn(a, b), false)]
  {
    var nodes := [Chdir(Some(a)), And, Chdir(Some(b)), And, Cmd(c)];
    assert nodes[2..] == [Chdir(Some(b)), And, Cmd(c)] && nodes[2..][2..] == [Cmd(c)] && [Cmd(c)][1..] == [];
    assert Runnable([Cmd(c)]) && Runnable(nodes[2..]) && Runnable(nodes);
    ReadingStep([Cmd(c)]);
    ReadingStep(nodes[2..]);
    ReadingStep(nodes);
    OneDirMore(Some(b), [], c);
    OneDirMore(Some(a), [Some(b)], c);
    assert [Some(b)] + [] == [Some(b)] && [Some(a)] + [Some(b)] == [Some(a), Some(b)];
    hide Reading, PrependDir, After;
    AfterTwo(a, b);
  }
}
