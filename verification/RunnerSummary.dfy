/** The result counting at the end of test.py's run_tests, and its independence of the schedule. */
module RunnerSummary {
  import opened Runner

  // ---------------------------------------------------- names and their order

  /** Character by character, shorter first: the order of Python strings. */
  predicate NameLe(a: string, b: string) {
    a == [] || (b != [] && (a[0] < b[0] || (a[0] == b[0] && NameLe(a[1..], b[1..]))))
  }

  lemma {:induction false} NameLeTotal(a: string, b: string)
    ensures NameLe(a, b) || NameLe(b, a)
    ensures NameLe(a, b) && NameLe(b, a) ==> a == b
  {
    if a != [] && b != [] {
      NameLeTotal(a[1..], b[1..]);
      if a[0] == b[0] {
        assert a == [a[0]] + a[1..] && b == [b[0]] + b[1..];
      }
    }
  }

  lemma {:induction false} NameLeTransitive(a: string, b: string, c: string)
    requires NameLe(a, b) && NameLe(b, c)
    ensures NameLe(a, c)
  {
    if a != [] && a[0] == b[0] && b[0] == c[0] {
      NameLeTransitive(a[1..], b[1..], c[1..]);
    }
  }

  ghost predicate SortedNames(s: seq<string>) {
    forall i, j :: 0 <= i < j < |s| ==> NameLe(s[i], s[j])
  }

  function InsertName(x: string, s: seq<string>): (r: seq<string>) {
    if s == [] || NameLe(x, s[0]) then [x] + s else [s[0]] + InsertName(x, s[1..])
  }

  /** list.sort on names. */
  function SortNames(s: seq<string>): (r: seq<string>) {
    if s == [] then [] else InsertName(s[0], SortNames(s[1..]))
  }

  lemma {:induction false} InsertNameBag(x: string, s: seq<string>)
    ensures multiset(InsertName(x, s)) == multiset([x] + s)
  {
    if s != [] && !NameLe(x, s[0]) {
      InsertNameBag(x, s[1..]);
      assert s == [s[0]] + s[1..];
    }
  }

  lemma SortedFront(x: string, s: seq<string>)
    requires SortedNames(s) && forall j :: 0 <= j < |s| ==> NameLe(x, s[j])
    ensures SortedNames([x] + s)
  {
    hide NameLe;
  }

  lemma {:induction false} InsertNameSorts(x: string, s: seq<string>)
    requires SortedNames(s)
    ensures SortedNames(InsertName(x, s))
  {
    if s == [] || NameLe(x, s[0]) {
      forall j | 0 <= j < |s| ensures NameLe(x, s[j]) {
        if j > 0 { NameLeTransitive(x, s[0], s[j]); }
      }
      hide NameLe;
      SortedFront(x, s);
    } else {
      NameLeTotal(x, s[0]);
      hide NameLe;
      var rest := InsertName(x, s[1..]);
      InsertNameSorts(x, s[1..]);
      InsertNameBag(x, s[1..]);
      forall j | 0 <= j < |rest| ensures NameLe(s[0], rest[j]) {
        assert rest[j] in multiset(rest);
        assert rest[j] == x || rest[j] in s[1..];
      }
      SortedFront(s[0], rest);
    }
  }

  lemma {:induction false} SortNamesSorts(s: seq<string>)
    ensures SortedNames(SortNames(s)) && multiset(SortNames(s)) == multiset(s)
  {
    if s != [] {
      SortNamesSorts(s[1..]);
      InsertNameSorts(s[0], SortNames(s[1..]));
      InsertNameBag(s[0], SortNames(s[1..]));
      assert s == [s[0]] + s[1..];
    }
  }

  lemma TailBags(a: seq<string>, b: seq<string>)
    requires a != [] && b != [] && a[0] == b[0] && multiset(a) == multiset(b)
    ensures multiset(a[1..]) == multiset(b[1..])
  {
    assert a == [a[0]] + a[1..] && b == [b[0]] + b[1..];
    var u, v, x := multiset(a[1..]), multiset(b[1..]), multiset{a[0]};
    assert u == (x + u) - x && v == (x + v) - x;
  }

  lemma {:induction false} SortedNamesUnique(a: seq<string>, b: seq<string>)
    requires SortedNames(a) && SortedNames(b) && multiset(a) == multiset(b)
    ensures a == b
  {
    assert |multiset(a)| == |a| && |multiset(b)| == |b|;
    if a != [] {
      assert a[0] in multiset(b) && b[0] in multiset(a);
      var i :| 0 <= i < |b| && b[i] == a[0];
      var j :| 0 <= j < |a| && a[j] == b[0];
      NameLeTotal(a[0], b[0]);
      NameLeTotal(a[0], a[0]);
      assert a[0] == b[0];
      assert a == [a[0]] + a[1..] && b == [b[0]] + b[1..];
      TailBags(a, b);
      SortedNamesUnique(a[1..], b[1..]);
    }
  }

  // ------------------------------------------------------------- the tallies

  datatype Kind = Interrupted | Skipped | Passed | Failed | ValgrindError | Crashed

  function KindOf(job: Job): Kind {
    if job.isBreak then Interrupted
    else if job.isSkip then Skipped
    else if job.returncode == 0 then Passed
    else if job.returncode == 1 then Failed
    else if job.returncode == 2 then ValgrindError
    else Crashed
  }

  function ReportName(job: Job): string {
    if job.isSkip then job.name + " (" + job.skipReason + ")" else job.name
  }

  ghost function CountKind(jobs: seq<Job>, k: Kind): nat {
    if jobs == [] then 0
    else CountKind(jobs[..|jobs| - 1], k) + if KindOf(jobs[|jobs| - 1]) == k then 1 else 0
  }

  /** The names reported under one kind, in order of arrival. */
  ghost function NamesOf(jobs: seq<Job>, k: Kind): seq<string> {
    if jobs == [] then []
    else
      var last := jobs[|jobs| - 1];
      NamesOf(jobs[..|jobs| - 1], k) + if KindOf(last) == k then [ReportName(last)] else []
  }

  /** How often one name is reported under one kind. */
  ghost function NameCount(jobs: seq<Job>, k: Kind, x: string): nat {
    if jobs == [] then 0
    else
      var last := jobs[|jobs| - 1];
      NameCount(jobs[..|jobs| - 1], k, x) + if KindOf(last) == k && ReportName(last) == x then 1 else 0
  }

  datatype Summary = Summary(passed: nat, skipped: nat, failed: nat, crashed: nat, valgrind: nat,
                             skippedNames: seq<string>, failedNames: seq<string>,
                             crashedNames: seq<string>, valgrindNames: seq<string>, result: int)

  ghost function SummaryOf(jobs: seq<Job>, total: nat): Summary {
    Summary(CountKind(jobs, Passed), CountKind(jobs, Skipped), CountKind(jobs, Failed),
            CountKind(jobs, Crashed), CountKind(jobs, ValgrindError),
            SortNames(NamesOf(jobs, Skipped)), SortNames(NamesOf(jobs, Failed)),
            SortNames(NamesOf(jobs, Crashed)), SortNames(NamesOf(jobs, ValgrindError)),
            if CountKind(jobs, Passed) + CountKind(jobs, Skipped) == total then 0 else 1)
  }

  /** The collector loop over the jobs in the order they arrive, and the final return value. */
  method Summarise(jobs: seq<Job>, total: nat) returns (r: Summary)
    ensures r == SummaryOf(jobs, total)
  {
    var passed, skipped, failed, crashed, valgrind := 0, 0, 0, 0, 0;
    var skippedNames, failedNames, crashedNames, valgrindNames := [], [], [], [];
    for i := 0 to |jobs|
      invariant passed == CountKind(jobs[..i], Passed)
      invariant skipped == CountKind(jobs[..i], Skipped) && skippedNames == NamesOf(jobs[..i], Skipped)
      invariant failed == CountKind(jobs[..i], Failed) && failedNames == NamesOf(jobs[..i], Failed)
      invariant crashed == CountKind(jobs[..i], Crashed) && crashedNames == NamesOf(jobs[..i], Crashed)
      invariant valgrind == CountKind(jobs[..i], ValgrindError) && valgrindNames == NamesOf(jobs[..i], ValgrindError)
    {
      var job := jobs[i];
      assert jobs[..i + 1][..i] == jobs[..i] && jobs[..i + 1][i] == job;
      if job.isBreak {
        continue;
      }
      if job.isSkip {
        skipped := skipped + 1;
        skippedNames := skippedNames + [job.name + " (" + job.skipReason + ")"];
      } else {
        if job.returncode == 0 {
          passed := passed + 1;
        } else if job.returncode == 1 {
          failed := failed + 1;
          failedNames := failedNames + [job.name];
        } else if job.returncode == 2 {
          valgrind := valgrind + 1;
          valgrindNames := valgrindNames + [job.name];
        } else {
          crashed := crashed + 1;
          crashedNames := crashedNames + [job.name];
        }
      }
    }
    assert jobs[..|jobs|] == jobs;
    r := Summary(passed, skipped, failed, crashed, valgrind,
      SortNames(skippedNames), SortNames(failedNames), SortNames(crashedNames), SortNames(valgrindNames),
      if passed + skipped == total then 0 else 1);
  }

  // --------------------------------------------- the order of arrival is lost

  ghost function Without(jobs: seq<Job>, i: nat): seq<Job>
    requires i < |jobs|
  {
    jobs[..i] + jobs[i + 1..]
  }

  lemma WithoutLast(jobs: seq<Job>, i: nat)
    requires i < |jobs| - 1
    ensures |Without(jobs, i)| == |jobs| - 1
    ensures Without(jobs, i)[..|jobs| - 2] == Without(jobs[..|jobs| - 1], i)
    ensures Without(jobs, i)[|jobs| - 2] == jobs[|jobs| - 1]
  {
  }

  lemma {:induction false} NameCountIs(jobs: seq<Job>, k: Kind, x: string)
    ensures multiset(NamesOf(jobs, k))[x] == NameCount(jobs, k, x)
  {
    if jobs != [] {
      NameCountIs(jobs[..|jobs| - 1], k, x);
    }
  }

  lemma TallyLast(jobs: seq<Job>, k: Kind, x: string)
    requires jobs != []
    ensures CountKind(jobs, k)
         == CountKind(jobs[..|jobs| - 1], k) + if KindOf(jobs[|jobs| - 1]) == k then 1 else 0
    ensures NameCount(jobs, k, x) == NameCount(jobs[..|jobs| - 1], k, x)
          + if KindOf(jobs[|jobs| - 1]) == k && ReportName(jobs[|jobs| - 1]) == x then 1 else 0
  {
  }

  lemma WithoutEnd(jobs: seq<Job>)
    requires jobs != []
    ensures Without(jobs, |jobs| - 1) == jobs[..|jobs| - 1]
  {
  }

  lemma {:induction false} RemoveOne(jobs: seq<Job>, i: nat, k: Kind, x: string)
    requires i < |jobs|
    ensures CountKind(jobs, k) == CountKind(Without(jobs, i), k) + if KindOf(jobs[i]) == k then 1 else 0
    ensures NameCount(jobs, k, x)
         == NameCount(Without(jobs, i), k, x) + if KindOf(jobs[i]) == k && ReportName(jobs[i]) == x then 1 else 0
  {
    hide *;
    var n := |jobs| - 1;
    TallyLast(jobs, k, x);
    if i == n {
      WithoutEnd(jobs);
    } else {
      RemoveOne(jobs[..n], i, k, x);
      WithoutLast(jobs, i);
      TallyLast(Without(jobs, i), k, x);
    }
  }

  lemma SplitBag<T>(s: seq<T>, i: nat)
    requires i < |s|
    ensures multiset(s) == multiset(s[..i] + s[i + 1..]) + multiset{s[i]}
  {
    assert s == s[..i] + ([s[i]] + s[i + 1..]);
  }

  lemma RemoveBoth(a: seq<Job>, b: seq<Job>, i: nat)
    requires multiset(a) == multiset(b) && a != [] && i < |b| && b[i] == a[|a| - 1]
    ensures multiset(a[..|a| - 1]) == multiset(Without(b, i))
  {
    var n := |a| - 1;
    SplitBag(a, n);
    SplitBag(b, i);
    assert a[..n] + a[n + 1..] == a[..n];
    var u, v, x := multiset(a[..n]), multiset(Without(b, i)), multiset{a[n]};
    assert u + x == v + x;
    assert u == (u + x) - x && v == (v + x) - x;
  }

  lemma {:induction false} SameTally(a: seq<Job>, b: seq<Job>, k: Kind, x: string)
    requires multiset(a) == multiset(b)
    ensures CountKind(a, k) == CountKind(b, k)
    ensures NameCount(a, k, x) == NameCount(b, k, x)
  {
    hide KindOf, ReportName;
    assert |multiset(a)| == |a| && |multiset(b)| == |b|;
    if a != [] {
      var n := |a| - 1;
      assert a[n] in multiset(b);
      var i :| 0 <= i < |b| && b[i] == a[n];
      RemoveBoth(a, b, i);
      SameTally(a[..n], Without(b, i), k, x);
      RemoveOne(b, i, k, x);
    }
  }

  lemma SameSortedNames(a: seq<Job>, b: seq<Job>, k: Kind)
    requires multiset(a) == multiset(b)
    ensures CountKind(a, k) == CountKind(b, k)
    ensures SortNames(NamesOf(a, k)) == SortNames(NamesOf(b, k))
  {
    SameTally(a, b, k, "");
    var u, v := multiset(NamesOf(a, k)), multiset(NamesOf(b, k));
    forall x ensures u[x] == v[x] {
      NameCountIs(a, k, x);
      NameCountIs(b, k, x);
      SameTally(a, b, k, x);
    }
    assert u == v;
    SortNamesSorts(NamesOf(a, k));
    SortNamesSorts(NamesOf(b, k));
    SortedNamesUnique(SortNames(NamesOf(a, k)), SortNames(NamesOf(b, k)));
  }

  /** The summary does not depend on the order in which the jobs come back. */
  lemma OrderDoesNotMatter(a: seq<Job>, b: seq<Job>, total: nat)
    requires multiset(a) == multiset(b)
    ensures SummaryOf(a, total) == SummaryOf(b, total)
  {
    SameSortedNames(a, b, Passed);
    SameSortedNames(a, b, Skipped);
    SameSortedNames(a, b, Failed);
    SameSortedNames(a, b, Crashed);
    SameSortedNames(a, b, ValgrindError);
  }

  // ------------------------------------------------- what a finished run reports

  /** What each job comes back as when there is no interrupt. */
  ghost function Results(c: Config): seq<Job>
    requires ValidConfig(c)
  {
    seq(|c.jobs|, i requires 0 <= i < |c.jobs| =>
      if c.jobs[i].isSkip then c.jobs[i] else c.jobs[i].(returncode := c.codes[i]))
  }

  lemma {:induction false} OccursSome(jobs: seq<Job>, id: int) returns (i: nat)
    requires Occurs(jobs, id) > 0
    ensures i < |jobs| && jobs[i].id == id
  {
    var n := |jobs| - 1;
    if jobs[n].id == id {
      i := n;
    } else {
      i := OccursSome(jobs[..n], id);
    }
  }

  lemma {:induction false} OccursWithout(jobs: seq<Job>, i: nat, id: int)
    requires i < |jobs|
    ensures Occurs(jobs, id) == Occurs(Without(jobs, i), id) + if jobs[i].id == id then 1 else 0
  {
    var n := |jobs| - 1;
    if i == n {
      assert Without(jobs, i) == jobs[..n];
    } else {
      OccursWithout(jobs[..n], i, id);
      WithoutLast(jobs, i);
    }
  }

  lemma {:induction false} OccursPositive(jobs: seq<Job>, i: nat)
    requires i < |jobs|
    ensures Occurs(jobs, jobs[i].id) > 0
  {
    if i < |jobs| - 1 {
      OccursPositive(jobs[..|jobs| - 1], i);
    }
  }

  lemma RestArranged(jobs: seq<Job>, all: seq<Job>, n: nat, i: nat)
    requires 0 < n <= |all| && i < |jobs| && jobs[i].id == n - 1
    requires forall j :: 0 <= j < |jobs| ==> 0 <= jobs[j].id < n && jobs[j] == all[jobs[j].id]
    requires forall id :: 0 <= id < n ==> Occurs(jobs, id) == 1
    ensures forall id :: 0 <= id < n - 1 ==> Occurs(Without(jobs, i), id) == 1
    ensures forall j :: 0 <= j < |jobs| - 1 ==>
      0 <= Without(jobs, i)[j].id < n - 1 && Without(jobs, i)[j] == all[Without(jobs, i)[j].id]
  {
    var rest := Without(jobs, i);
    forall id | 0 <= id < n ensures Occurs(rest, id) == if id == n - 1 then 0 else 1 {
      OccursWithout(jobs, i, id);
    }
    hide Occurs;
    forall j | 0 <= j < |rest| ensures 0 <= rest[j].id < n - 1 && rest[j] == all[rest[j].id] {
      assert rest[j] == jobs[if j < i then j else j + 1];
      OccursPositive(rest, j);
    }
  }

  /** A list in which each id below n occurs once is a rearrangement of the jobs with those ids. */
  lemma {:induction false} Rearranged(jobs: seq<Job>, all: seq<Job>, n: nat)
    requires n <= |all| && |jobs| == n
    requires forall i :: 0 <= i < |jobs| ==> 0 <= jobs[i].id < n && jobs[i] == all[jobs[i].id]
    requires forall id :: 0 <= id < n ==> Occurs(jobs, id) == 1
    ensures multiset(jobs) == multiset(all[..n])
  {
    if n == 0 {
      assert jobs == all[..n];
    } else {
      var i := OccursSome(jobs, n - 1);
      var rest := Without(jobs, i);
      RestArranged(jobs, all, n, i);
      Rearranged(rest, all, n - 1);
      PutBack(jobs, all, n, i);
    }
  }

  lemma PutBack(jobs: seq<Job>, all: seq<Job>, n: nat, i: nat)
    requires i < |jobs| && 0 < n <= |all| && jobs[i] == all[n - 1]
    requires multiset(Without(jobs, i)) == multiset(all[..n - 1])
    ensures multiset(jobs) == multiset(all[..n])
  {
    SplitBag(jobs, i);
    assert all[..n] == all[..n - 1] + [all[n - 1]];
  }

  /** With no interrupt the summary is that of the dispatched jobs, whatever the schedule. */
  lemma ScheduleDoesNotMatter(c: Config, run: seq<State>)
    requires ValidConfig(c) && IsMaximalRun(c, run) && (c.workers > 0 || c.jobs == [])
    requires !run[|run| - 1].interrupted
    ensures multiset(run[|run| - 1].collected) == multiset(Results(c))
    ensures SummaryOf(run[|run| - 1].collected, |c.jobs|) == SummaryOf(Results(c), |c.jobs|)
  {
    MaximalRunsFinish(c, run);
    var s := run[|run| - 1];
    var all := Results(c);
    forall i | 0 <= i < |s.collected|
      ensures 0 <= s.collected[i].id < |c.jobs| && s.collected[i] == all[s.collected[i].id]
    {
      assert Outcome(c, false, s.collected[i]);
    }
    Rearranged(s.collected, all, |c.jobs|);
    assert all[..|c.jobs|] == all;
    OrderDoesNotMatter(s.collected, all, |c.jobs|);
  }

  lemma {:induction false} KindsAddUp(jobs: seq<Job>)
    ensures CountKind(jobs, Passed) + CountKind(jobs, Skipped) + CountKind(jobs, Failed)
          + CountKind(jobs, Crashed) + CountKind(jobs, ValgrindError) + CountKind(jobs, Interrupted) == |jobs|
  {
    if jobs != [] { KindsAddUp(jobs[..|jobs| - 1]); }
  }

  lemma {:induction false} AllGood(jobs: seq<Job>)
    ensures CountKind(jobs, Passed) + CountKind(jobs, Skipped) <= |jobs|
    ensures CountKind(jobs, Passed) + CountKind(jobs, Skipped) == |jobs|
       <==> forall i :: 0 <= i < |jobs| ==> KindOf(jobs[i]).Passed? || KindOf(jobs[i]).Skipped?
  {
    if jobs != [] {
      var n := |jobs| - 1;
      AllGood(jobs[..n]);
      assert forall i :: 0 <= i < n ==> jobs[..n][i] == jobs[i];
      if i :| 0 <= i < n && !KindOf(jobs[..n][i]).Passed? && !KindOf(jobs[..n][i]).Skipped? {
        assert !KindOf(jobs[i]).Passed? && !KindOf(jobs[i]).Skipped?;
      }
    }
  }

  /** On every schedule, interrupted or not: the counters and the interrupted jobs add up to the
      number of tests, and the result is 0 exactly when every job passed or was skipped. */
  lemma SummaryAccounts(c: Config, run: seq<State>)
    requires ValidConfig(c) && IsMaximalRun(c, run) && (c.workers > 0 || c.jobs == [])
    ensures
      var jobs := run[|run| - 1].collected; var r := SummaryOf(jobs, |c.jobs|);
      && r.passed + r.skipped + r.failed + r.crashed + r.valgrind + CountKind(jobs, Interrupted) == |c.jobs|
      && (r.result == 0 <==> forall i :: 0 <= i < |jobs| ==> KindOf(jobs[i]).Passed? || KindOf(jobs[i]).Skipped?)
  {
    MaximalRunsFinish(c, run);
    KindsAddUp(run[|run| - 1].collected);
    AllGood(run[|run| - 1].collected);
  }

  /** Without an interrupt the result is 0 exactly when every job that is not skipped returns 0. */
  lemma ResultWithoutInterrupt(c: Config, run: seq<State>)
    requires ValidConfig(c) && IsMaximalRun(c, run) && (c.workers > 0 || c.jobs == [])
    requires !run[|run| - 1].interrupted
    ensures SummaryOf(run[|run| - 1].collected, |c.jobs|).result == 0
       <==> forall i :: 0 <= i < |c.jobs| ==> c.jobs[i].isSkip || c.codes[i] == 0
  {
    hide *;
    ScheduleDoesNotMatter(c, run);
    ResultOfResults(c);
  }

  lemma ResultOfResults(c: Config)
    requires ValidConfig(c)
    ensures SummaryOf(Results(c), |c.jobs|).result == 0
       <==> forall i :: 0 <= i < |c.jobs| ==> c.jobs[i].isSkip || c.codes[i] == 0
  {
    var all := Results(c);
    AllGood(all);
    hide CountKind, NamesOf, SortNames;
    forall i | 0 <= i < |c.jobs|
      ensures KindOf(all[i]).Passed? || KindOf(all[i]).Skipped? <==> c.jobs[i].isSkip || c.codes[i] == 0
    {
      assert !all[i].isBreak;
    }
  }
}
