/** What the counters and lists of test.py's run_tests say, in terms of return codes and skip flags. */
module RunnerReport {
  import opened Runner
  import opened RunnerSummary
  import opened RunnerInterrupt

  /** A comes before b: where they first differ it has the smaller character, or has ended. */
  ghost predicate Alphabetical(a: string, b: string) {
    a <= b || exists k :: 0 <= k < |a| && k < |b| && a[..k] == b[..k] && a[k] < b[k]
  }

  lemma {:induction false} NameLeMeans(a: string, b: string)
    ensures NameLe(a, b) <==> Alphabetical(a, b)
  {
    if a != [] && b != [] && a[0] == b[0] {
      NameLeMeans(a[1..], b[1..]);
      SameStart(a, b);
      hide Alphabetical;
    } else if NameLe(a, b) && a != [] {
      assert a[..0] == b[..0] && a[0] < b[0];
    }
  }

  lemma SameStart(a: string, b: string)
    requires a != [] && b != [] && a[0] == b[0]
    ensures Alphabetical(a, b) <==> Alphabetical(a[1..], b[1..])
  {
    assert a == [a[0]] + a[1..] && b == [b[0]] + b[1..];
    if k :| 0 <= k < |a[1..]| && k < |b[1..]| && a[1..][..k] == b[1..][..k] && a[1..][k] < b[1..][k] {
      assert a[..k + 1] == [a[0]] + a[1..][..k] && b[..k + 1] == [b[0]] + b[1..][..k];
      assert a[k + 1] < b[k + 1];
    }
    if k :| 0 <= k < |a| && k < |b| && a[..k] == b[..k] && a[k] < b[k] {
      assert a[1..][..k - 1] == a[..k][1..] && b[1..][..k - 1] == b[..k][1..];
      assert a[1..][k - 1] < b[1..][k - 1];
    }
  }

  // ---------------------------------------------------- the jobs that came back

  ghost predicate ExitedWith(job: Job, code: int) {
    !job.isBreak && !job.isSkip && job.returncode == code
  }

  ghost predicate DidPass(job: Job) { ExitedWith(job, 0) }
  ghost predicate DidFail(job: Job) { ExitedWith(job, 1) }
  ghost predicate HadErrors(job: Job) { ExitedWith(job, 2) }
  ghost predicate DidCrash(job: Job) { !job.isBreak && !job.isSkip && job.returncode !in {0, 1, 2} }
  ghost predicate WasSkipped(job: Job) { !job.isBreak && job.isSkip }

  ghost function NameOf(job: Job): string { job.name }
  ghost function NameAndReason(job: Job): string { job.name + " (" + job.skipReason + ")" }

  ghost function Where(jobs: seq<Job>, isOf: Job -> bool): set<nat> {
    set i: nat | i < |jobs| && isOf(jobs[i])
  }

  /** In order of the alphabet, each name as often as there are such jobs with it. */
  ghost predicate Lists(names: seq<string>, jobs: seq<Job>, isOf: Job -> bool, name: Job -> string) {
    && (forall i, j :: 0 <= i < j < |names| ==> Alphabetical(names[i], names[j]))
    && forall x :: multiset(names)[x] == |set i | i in Where(jobs, isOf) && i < |jobs| && name(jobs[i]) == x|
  }

  ghost predicate Reports(jobs: seq<Job>, total: nat, r: Summary) {
    && r.passed == |Where(jobs, DidPass)|
    && r.skipped == |Where(jobs, WasSkipped)| && Lists(r.skippedNames, jobs, WasSkipped, NameAndReason)
    && r.failed == |Where(jobs, DidFail)| && Lists(r.failedNames, jobs, DidFail, NameOf)
    && r.valgrind == |Where(jobs, HadErrors)| && Lists(r.valgrindNames, jobs, HadErrors, NameOf)
    && r.crashed == |Where(jobs, DidCrash)| && Lists(r.crashedNames, jobs, DidCrash, NameOf)
    && r.result == if r.passed + r.skipped == total then 0 else 1
  }

  lemma WhereMore(jobs: seq<Job>, isOf: Job -> bool)
    requires jobs != []
    ensures
      var n := |jobs| - 1;
      && n !in Where(jobs[..n], isOf)
      && Where(jobs, isOf) == Where(jobs[..n], isOf) + if isOf(jobs[n]) then {n} else {}
  {
  }

  lemma {:induction false} CountIs(jobs: seq<Job>, k: Kind, isOf: Job -> bool)
    requires forall job :: isOf(job) <==> KindOf(job) == k
    ensures CountKind(jobs, k) == |Where(jobs, isOf)|
  {
    if jobs == [] {
      assert Where(jobs, isOf) == {};
    } else {
      CountIs(jobs[..|jobs| - 1], k, isOf);
      WhereMore(jobs, isOf);
    }
  }

  ghost function Named(jobs: seq<Job>, isOf: Job -> bool, name: Job -> string, x: string): set<nat> {
    set i | i in Where(jobs, isOf) && i < |jobs| && name(jobs[i]) == x
  }

  lemma {:induction false} NamesAre(jobs: seq<Job>, k: Kind, isOf: Job -> bool, name: Job -> string, x: string)
    requires forall job :: isOf(job) <==> KindOf(job) == k
    requires forall job :: isOf(job) ==> name(job) == ReportName(job)
    ensures multiset(NamesOf(jobs, k))[x] == |Named(jobs, isOf, name, x)|
  {
    if jobs == [] {
      assert Named(jobs, isOf, name, x) == {};
    } else {
      var n := |jobs| - 1;
      NamesAre(jobs[..n], k, isOf, name, x);
      NamedMore(jobs, isOf, name, x);
      assert isOf(jobs[n]) <==> KindOf(jobs[n]) == k;
      hide KindOf, ReportName, Named;
    }
  }

  lemma NamedMore(jobs: seq<Job>, isOf: Job -> bool, name: Job -> string, x: string)
    requires jobs != []
    ensures
      var n := |jobs| - 1;
      && n !in Named(jobs[..n], isOf, name, x)
      && Named(jobs, isOf, name, x)
         == Named(jobs[..n], isOf, name, x) + if isOf(jobs[n]) && name(jobs[n]) == x then {n} else {}
  {
    WhereMore(jobs, isOf);
  }

  lemma ListsNames(jobs: seq<Job>, k: Kind, isOf: Job -> bool, name: Job -> string)
    requires forall job :: isOf(job) <==> KindOf(job) == k
    requires forall job :: isOf(job) ==> name(job) == ReportName(job)
    ensures Lists(SortNames(NamesOf(jobs, k)), jobs, isOf, name)
  {
    var names := SortNames(NamesOf(jobs, k));
    SortNamesSorts(NamesOf(jobs, k));
    hide NamesOf, SortNames, KindOf, ReportName;
    forall i, j | 0 <= i < j < |names| ensures Alphabetical(names[i], names[j]) {
      NameLeMeans(names[i], names[j]);
    }
    forall x ensures multiset(names)[x] == |Named(jobs, isOf, name, x)| {
      NamesAre(jobs, k, isOf, name, x);
    }
    hide Alphabetical;
  }

  /** What the collector computes, whatever jobs come back: each counter is the number of jobs not broken
      off that it is for, and each list has their names in order. */
  lemma SummaryMeans(jobs: seq<Job>, total: nat)
    ensures Reports(jobs, total, SummaryOf(jobs, total))
  {
    CountIs(jobs, Passed, DidPass);
    CountIs(jobs, Skipped, WasSkipped);
    CountIs(jobs, Failed, DidFail);
    CountIs(jobs, ValgrindError, HadErrors);
    CountIs(jobs, Crashed, DidCrash);
    ListsNames(jobs, Skipped, WasSkipped, NameAndReason);
    ListsNames(jobs, Failed, DidFail, NameOf);
    ListsNames(jobs, ValgrindError, HadErrors, NameOf);
    ListsNames(jobs, Crashed, DidCrash, NameOf);
    hide Lists, Where, KindOf, SortNames, NamesOf, CountKind;
  }

  // ---------------------------------------------------- the jobs as dispatched

  /** Jobs neither broken off nor skipped whose process exits with the code. */
  ghost function Exits(c: Config, broken: set<nat>, code: int): set<nat>
    requires ValidConfig(c)
  {
    set id: nat | id < |c.jobs| && id !in broken && !c.jobs[id].isSkip && c.codes[id] == code
  }

  /** The same for any code but 0, 1 and 2. */
  ghost function Crashes(c: Config, broken: set<nat>): set<nat>
    requires ValidConfig(c)
  {
    set id: nat | id < |c.jobs| && id !in broken && !c.jobs[id].isSkip && c.codes[id] !in {0, 1, 2}
  }

  ghost function Skips(c: Config, broken: set<nat>): set<nat> {
    set id: nat | id < |c.jobs| && id !in broken && c.jobs[id].isSkip
  }

  /** The names of these jobs in order of the alphabet, with the reason where one is skipped. */
  ghost predicate ListsJobs(c: Config, ids: set<nat>, names: seq<string>, reasons: bool) {
    && (forall i, j :: 0 <= i < j < |names| ==> Alphabetical(names[i], names[j]))
    && forall x :: multiset(names)[x] == |Bearing(c, ids, reasons, x)|
  }

  ghost function Bearing(c: Config, ids: set<nat>, reasons: bool, x: string): set<nat> {
    set id | id in ids && id < |c.jobs|
      && x == c.jobs[id].name + if reasons then " (" + c.jobs[id].skipReason + ")" else ""
  }

  /** The counters, lists and return value for a set of jobs that are broken off. */
  ghost predicate ReportsJobs(c: Config, broken: set<nat>, r: Summary)
    requires ValidConfig(c)
  {
    && r.passed == |Exits(c, broken, 0)|
    && r.failed == |Exits(c, broken, 1)| && ListsJobs(c, Exits(c, broken, 1), r.failedNames, false)
    && r.valgrind == |Exits(c, broken, 2)| && ListsJobs(c, Exits(c, broken, 2), r.valgrindNames, false)
    && r.crashed == |Crashes(c, broken)| && ListsJobs(c, Crashes(c, broken), r.crashedNames, false)
    && r.skipped == |Skips(c, broken)| && ListsJobs(c, Skips(c, broken), r.skippedNames, true)
    && r.result == if r.passed + r.skipped == |c.jobs| then 0 else 1
  }

  /** The jobs that come back when these are broken off. */
  ghost predicate BrokenOff(c: Config, broken: set<nat>, all: seq<Job>)
    requires ValidConfig(c)
  {
    && |all| == |c.jobs|
    && forall id :: 0 <= id < |all| ==>
         all[id] == if id in broken then c.jobs[id].(isBreak := true) else Results(c)[id]
  }

  lemma SetsAre(c: Config, broken: set<nat>, all: seq<Job>)
    requires ValidConfig(c) && BrokenOff(c, broken, all)
    ensures Where(all, DidPass) == Exits(c, broken, 0)
    ensures Where(all, DidFail) == Exits(c, broken, 1)
    ensures Where(all, HadErrors) == Exits(c, broken, 2)
    ensures Where(all, DidCrash) == Crashes(c, broken)
    ensures Where(all, WasSkipped) == Skips(c, broken)
  {
  }

  lemma ListIs(c: Config, broken: set<nat>, all: seq<Job>, names: seq<string>, isOf: Job -> bool, reasons: bool)
    requires ValidConfig(c) && BrokenOff(c, broken, all)
    requires Lists(names, all, isOf, if reasons then NameAndReason else NameOf)
    ensures ListsJobs(c, Where(all, isOf), names, reasons)
  {
    forall x ensures multiset(names)[x] == |Bearing(c, Where(all, isOf), reasons, x)| {
      BearingIs(c, broken, all, isOf, reasons, x);
    }
    hide Alphabetical, Bearing, Where;
  }

  lemma BearingIs(c: Config, broken: set<nat>, all: seq<Job>, isOf: Job -> bool, reasons: bool, x: string)
    requires ValidConfig(c) && BrokenOff(c, broken, all)
    ensures Bearing(c, Where(all, isOf), reasons, x)
         == Named(all, isOf, if reasons then NameAndReason else NameOf, x)
  {
  }

  lemma ReportIs(c: Config, broken: set<nat>, all: seq<Job>)
    requires ValidConfig(c) && BrokenOff(c, broken, all)
    ensures ReportsJobs(c, broken, SummaryOf(all, |c.jobs|))
  {
    var r := SummaryOf(all, |c.jobs|);
    SummaryMeans(all, |c.jobs|);
    hide BrokenOff, SummaryOf, ListsJobs, Exits, Crashes, Skips, Where, Lists;
    SetsAre(c, broken, all);
    ListIs(c, broken, all, r.failedNames, DidFail, false);
    ListIs(c, broken, all, r.valgrindNames, HadErrors, false);
    ListIs(c, broken, all, r.crashedNames, DidCrash, false);
    ListIs(c, broken, all, r.skippedNames, WasSkipped, true);
  }

  /** Without an interrupt every schedule reports what the codes and skip flags of the jobs say. */
  lemma UninterruptedReport(c: Config, run: seq<State>)
    requires ValidConfig(c) && IsMaximalRun(c, run) && (c.workers > 0 || c.jobs == [])
    requires !run[|run| - 1].interrupted
    ensures ReportsJobs(c, {}, SummaryOf(run[|run| - 1].collected, |c.jobs|))
  {
    ScheduleDoesNotMatter(c, run);
    assert BrokenOff(c, {}, Results(c));
    hide *;
    ReportIs(c, {}, Results(c));
  }

  /** With one, the same of the jobs that had been looked at. */
  lemma InterruptedReport(c: Config, run: seq<State>, i: nat)
    requires ValidConfig(c) && IsMaximalRun(c, run) && (c.workers > 0 || c.jobs == [])
    requires InterruptedAt(run, i)
    ensures var broken := set id: nat | id < |c.jobs| && Untouched(run[i], id);
      ReportsJobs(c, broken, SummaryOf(run[|run| - 1].collected, |c.jobs|))
  {
    InterruptDecides(c, run, i);
    var broken := set id: nat | id < |c.jobs| && Untouched(run[i], id);
    assert BrokenOff(c, broken, Expected(c, run[i]));
    hide Untouched, Expected, BrokenOff, SummaryOf, ReportsJobs, IsMaximalRun, Results;
    ReportIs(c, broken, Expected(c, run[i]));
  }
}
