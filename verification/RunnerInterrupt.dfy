/** What an interrupt does to the jobs of test.py's run_tests. */
module RunnerInterrupt {
  import opened Runner
  import opened RunnerSummary

  /** No worker has looked at the interrupt flag for this job: it has not been taken, or only just. */
  ghost predicate Untouched(s: State, id: nat) {
    id >= s.gets || exists w :: 0 <= w < |s.workers| && s.workers[w].Got? && s.workers[w].job.id == id
  }

  /** What comes back after an interrupt in this state: untouched jobs are broken off, with everything
      else about them as it was, and the others have their results. */
  ghost function Expected(c: Config, s: State): seq<Job>
    requires ValidConfig(c)
  {
    seq(|c.jobs|, id requires 0 <= id < |c.jobs| =>
      if Untouched(s, id) then c.jobs[id].(isBreak := true) else Results(c)[id])
  }

  ghost predicate Comes(c: Config, s: State, job: Job)
    requires ValidConfig(c)
  {
    0 <= job.id < |c.jobs| && job == Expected(c, s)[job.id]
  }

  /** What is held after an interrupt in state s. */
  ghost predicate WorkerComes(c: Config, s: State, w: Worker)
    requires ValidConfig(c)
  {
    match w
    case Got(job) => 0 <= job.id < |c.jobs| && job == c.jobs[job.id] && Untouched(s, job.id)
    case Running(job) =>
      0 <= job.id < |c.jobs| && job == c.jobs[job.id] && !job.isSkip && !Untouched(s, job.id)
    case Returning(job) => Comes(c, s, job)
    case _ => true
  }

  /** From an interrupt in state s on. */
  ghost predicate OnCourse(c: Config, s: State, t: State)
    requires ValidConfig(c)
  {
    && t.interrupted && s.gets <= t.gets
    && (forall w :: 0 <= w < |t.workers| ==> WorkerComes(c, s, t.workers[w]))
    && (forall i :: 0 <= i < |t.output| ==> Comes(c, s, t.output[i]))
    && (forall i :: 0 <= i < |t.collected| ==> Comes(c, s, t.collected[i]))
  }

  // ------------------------------------------------------------ the interrupt

  /** Two workers do not hold the same job. */
  lemma HeldTwice(ws: seq<Worker>, v: nat, w: nat, id: int)
    requires v < |ws| && w < |ws| && v != w && HeldBy(ws[v], id) > 0 && HeldBy(ws[w], id) > 0
    ensures Held(ws, id) > 1
  {
    HeldUpdate(ws, v, NotStarted, id);
    HeldSome(ws[v := NotStarted], w, id);
  }

  /** A job that is somewhere past the look at the flag is not untouched. */
  lemma WorkerTouched(c: Config, s: State, w: nat)
    requires ValidConfig(c) && Inv(c, s) && w < c.workers && (s.workers[w].Running? || s.workers[w].Returning?)
    requires s.workers[w].job.id >= 0
    ensures !Untouched(s, s.workers[w].job.id)
  {
    var id := s.workers[w].job.id;
    ConservedAt(c, s, id);
    HeldSome(s.workers, w, id);
    if v :| 0 <= v < |s.workers| && s.workers[v].Got? && s.workers[v].job.id == id {
      HeldTwice(s.workers, v, w, id);
    }
  }

  lemma ListTouched(c: Config, s: State, id: nat)
    requires ValidConfig(c) && Inv(c, s) && Occurs(s.output, id) + Occurs(s.collected, id) > 0
    ensures !Untouched(s, id)
  {
    ConservedAt(c, s, id);
    if v :| 0 <= v < |s.workers| && s.workers[v].Got? && s.workers[v].job.id == id {
      HeldSome(s.workers, v, id);
    }
  }

  /** The state in which there is an interrupt is on course itself. */
  lemma InterruptStarts(c: Config, s: State)
    requires ValidConfig(c) && Inv(c, s) && !s.interrupted
    ensures OnCourse(c, s, s.(interrupted := true))
  {
    forall w | 0 <= w < |s.workers| ensures WorkerComes(c, s, s.workers[w]) {
      assert WorkerFits(c, false, s.workers[w]);
      if s.workers[w].Running? || s.workers[w].Returning? {
        WorkerTouched(c, s, w);
      }
    }
    forall i | 0 <= i < |s.output| ensures Comes(c, s, s.output[i]) {
      assert Outcome(c, false, s.output[i]);
      OccursPositive(s.output, i);
      ListTouched(c, s, s.output[i].id);
    }
    forall i | 0 <= i < |s.collected| ensures Comes(c, s, s.collected[i]) {
      assert Outcome(c, false, s.collected[i]);
      OccursPositive(s.collected, i);
      ListTouched(c, s, s.collected[i].id);
    }
    hide Outcome, Comes, Inv;
  }

  // -------------------------------------------------------------- every step

  lemma WorkerOnCourse(c: Config, s: State, t: State, w: nat)
    requires ValidConfig(c) && Inv(c, t) && OnCourse(c, s, t) && Enabled(c, t, WorkerStep(w))
    ensures OnCourse(c, s, StepWorker(c, t, w))
  {
    var u := StepWorker(c, t, w);
    if t.workers[w].Waiting? {
      WorkerFlow(c, t, w);
      SentAt(c, t.main, t.gets);
    }
    assert WorkerComes(c, s, t.workers[w]);
    hide Flow, Sent, Conserved, MainFits, StopsFit, OutcomesFit, Untouched;
    assert WorkerComes(c, s, u.workers[w]) by { NextComes(c, s, t, w); }
    hide Expected;
  }

  lemma NextComes(c: Config, s: State, t: State, w: nat)
    requires ValidConfig(c) && Sized(c, t) && t.interrupted && s.gets <= t.gets && Enabled(c, t, WorkerStep(w))
    requires WorkerComes(c, s, t.workers[w])
    requires t.workers[w].Waiting? ==> t.input[0] == if t.gets < |c.jobs| then c.jobs[t.gets] else STOP
    ensures WorkerComes(c, s, StepWorker(c, t, w).workers[w])
  {
  }

  lemma MainOnCourse(c: Config, s: State, t: State)
    requires ValidConfig(c) && Inv(c, t) && OnCourse(c, s, t) && Enabled(c, t, MainStep)
    ensures OnCourse(c, s, StepMain(c, t))
  {
    hide Comes, Inv;
    assert Sized(c, t) by { InvSized(c, t); }
    if t.main.Starting? && t.main.k < c.workers { assert WorkerComes(c, s, Waiting); }
    hide WorkerComes;
  }

  lemma StepTaken(c: Config, run: seq<State>, i: nat) returns (a: Action)
    requires ValidConfig(c) && IsRun(c, run) && i < |run| - 1
    ensures Inv(c, run[i]) && Sized(c, run[i]) && Inv(c, run[i + 1]) && Sized(c, run[i + 1])
    ensures Enabled(c, run[i], a) && run[i + 1] == Apply(c, run[i], a)
  {
    RunInv(c, run, i);
    InvSized(c, run[i]);
    RunInv(c, run, i + 1);
    InvSized(c, run[i + 1]);
    assert Next(c, run[i], run[i + 1]);
    a :| Enabled(c, run[i], a) && run[i + 1] == Apply(c, run[i], a);
    hide Inv;
  }

  lemma {:induction false} StaysOnCourse(c: Config, run: seq<State>, i: nat, j: nat)
    requires ValidConfig(c) && IsRun(c, run) && i <= j < |run| && run[i].interrupted
    requires OnCourse(c, run[i], run[i])
    ensures OnCourse(c, run[i], run[j])
  {
    hide *;
    if i < j {
      StaysOnCourse(c, run, i, j - 1);
      var a := StepTaken(c, run, j - 1);
      StepOnCourse(c, run[i], run[j - 1], a);
    }
  }

  lemma StepOnCourse(c: Config, s: State, t: State, a: Action)
    requires ValidConfig(c) && Inv(c, t) && OnCourse(c, s, t) && Enabled(c, t, a)
    ensures OnCourse(c, s, Apply(c, t, a))
  {
    assert t.interrupted;
    hide Inv, OnCourse;
    match a
    case Interrupt =>
    case WorkerStep(w) => WorkerOnCourse(c, s, t, w);
    case MainStep => MainOnCourse(c, s, t);
  }

  /** The state right after the interrupt. */
  ghost predicate InterruptedAt(run: seq<State>, i: nat) {
    0 < i < |run| && run[i].interrupted && !run[i - 1].interrupted
  }

  lemma AtInterrupt(c: Config, run: seq<State>, i: nat)
    requires ValidConfig(c) && IsRun(c, run) && InterruptedAt(run, i)
    ensures run[i] == run[i - 1].(interrupted := true)
    ensures OnCourse(c, run[i], run[i])
  {
    var a := StepTaken(c, run, i - 1);
    ApplyThread(c, run[i - 1], a);
    InterruptStarts(c, run[i - 1]);
    SameCourse(c, run[i - 1], run[i], run[i]);
    hide *;
  }

  lemma SameCourse(c: Config, s: State, t: State, u: State)
    requires ValidConfig(c) && t == s.(interrupted := true) && OnCourse(c, s, u)
    ensures OnCourse(c, t, u)
  {
    assert forall id: nat :: Untouched(s, id) <==> Untouched(t, id);
    assert Expected(c, s) == Expected(c, t);
    hide Expected, Untouched;
  }

  lemma {:induction false} FirstInterrupted(c: Config, run: seq<State>, k: nat) returns (i: nat)
    requires ValidConfig(c) && IsRun(c, run) && k < |run| && run[k].interrupted
    ensures i <= k && InterruptedAt(run, i)
  {
    if k > 0 && run[k - 1].interrupted {
      i := FirstInterrupted(c, run, k - 1);
    } else {
      i := k;
    }
  }

  // ------------------------------------------------------------- the theorems

  /** What runs in t was running in s, in the same worker. */
  ghost predicate NothingNew(s: State, t: State) {
    && t.interrupted && |t.workers| == |s.workers|
    && forall w :: 0 <= w < |t.workers| && t.workers[w].Running? ==> s.workers[w] == t.workers[w]
  }

  lemma StepLaunchesNothing(c: Config, s: State, t: State, a: Action)
    requires ValidConfig(c) && Sized(c, t) && Enabled(c, t, a) && NothingNew(s, t)
    ensures NothingNew(s, Apply(c, t, a))
  {
  }

  lemma NothingNewAtFirst(s: State)
    requires s.interrupted
    ensures NothingNew(s, s)
  {
  }

  /** After an interrupt no process is launched: what runs later was running then, in the same worker. */
  lemma {:induction false} NothingLaunched(c: Config, run: seq<State>, i: nat, j: nat)
    requires ValidConfig(c) && IsRun(c, run) && i <= j < |run| && run[i].interrupted
    ensures NothingNew(run[i], run[j])
    decreases j
  {
    hide *;
    if i < j {
      NothingLaunched(c, run, i, j - 1);
      var a := StepTaken(c, run, j - 1);
      StepLaunchesNothing(c, run[i], run[j - 1], a);
    } else {
      NothingNewAtFirst(run[i]);
    }
  }

  lemma ExpectedBag(c: Config, s: State, t: State)
    requires ValidConfig(c) && OnCourse(c, s, t) && Final(c, t)
    ensures multiset(t.collected) == multiset(Expected(c, s))
  {
    var all := Expected(c, s);
    forall i | 0 <= i < |t.collected|
      ensures 0 <= t.collected[i].id < |c.jobs| && t.collected[i] == all[t.collected[i].id]
    {
      assert Comes(c, s, t.collected[i]);
    }
    Rearranged(t.collected, all, |c.jobs|);
    assert all[..|c.jobs|] == all;
  }

  /** What comes back, and is reported, is decided by the state at the interrupt, whatever the schedule
      after it: jobs not yet looked at are broken off, and all others have the results they have without
      an interrupt. */
  lemma InterruptDecides(c: Config, run: seq<State>, i: nat)
    requires ValidConfig(c) && IsMaximalRun(c, run) && (c.workers > 0 || c.jobs == [])
    requires InterruptedAt(run, i)
    ensures multiset(run[|run| - 1].collected) == multiset(Expected(c, run[i]))
    ensures SummaryOf(run[|run| - 1].collected, |c.jobs|) == SummaryOf(Expected(c, run[i]), |c.jobs|)
  {
    MaximalRunsFinish(c, run);
    AtInterrupt(c, run, i);
    StaysOnCourse(c, run, i, |run| - 1);
    ExpectedBag(c, run[i], run[|run| - 1]);
    OrderDoesNotMatter(run[|run| - 1].collected, Expected(c, run[i]), |c.jobs|);
    hide *;
  }

  /** What is untouched later was untouched at the interrupt. */
  lemma UntouchedBefore(c: Config, s: State, t: State, id: nat)
    requires ValidConfig(c) && OnCourse(c, s, t) && Untouched(t, id)
    ensures Untouched(s, id)
  {
    if w :| 0 <= w < |t.workers| && t.workers[w].Got? && t.workers[w].job.id == id {
      assert WorkerComes(c, s, t.workers[w]);
    }
  }

  /** A job untouched in an interrupted state comes back once, broken off, its return code as dispatched. */
  lemma UntouchedComesBack(c: Config, run: seq<State>, k: nat, id: nat)
    requires ValidConfig(c) && IsMaximalRun(c, run) && (c.workers > 0 || c.jobs == [])
    requires k < |run| && run[k].interrupted && id < |c.jobs| && Untouched(run[k], id)
    ensures var jobs := run[|run| - 1].collected;
      && Occurs(jobs, id) == 1
      && forall n :: 0 <= n < |jobs| && jobs[n].id == id ==> jobs[n] == c.jobs[id].(isBreak := true)
  {
    MaximalRunsFinish(c, run);
    var i := FirstInterrupted(c, run, k);
    AtInterrupt(c, run, i);
    StaysOnCourse(c, run, i, k);
    StaysOnCourse(c, run, i, |run| - 1);
    UntouchedBefore(c, run[i], run[k], id);
    var jobs := run[|run| - 1].collected;
    forall n | 0 <= n < |jobs| && jobs[n].id == id ensures jobs[n] == c.jobs[id].(isBreak := true) {
      assert Comes(c, run[i], jobs[n]);
    }
    hide OnCourse, Untouched, Outcome;
  }

  lemma ExpectedResult(c: Config, s: State)
    requires ValidConfig(c)
    ensures SummaryOf(Expected(c, s), |c.jobs|).result == 0
       <==> forall id :: 0 <= id < |c.jobs| ==> !Untouched(s, id) && (c.jobs[id].isSkip || c.codes[id] == 0)
  {
    var all := Expected(c, s);
    AllGood(all);
    hide CountKind, NamesOf, SortNames, Untouched;
    forall id | 0 <= id < |c.jobs|
      ensures KindOf(all[id]).Passed? || KindOf(all[id]).Skipped?
         <==> !Untouched(s, id) && (c.jobs[id].isSkip || c.codes[id] == 0)
    {
      assert !Results(c)[id].isBreak;
    }
  }

  /** An interrupted run returns 0 exactly when every job had been looked at before the interrupt, and
      every one that is not skipped exits with 0. */
  lemma ResultWithInterrupt(c: Config, run: seq<State>, i: nat)
    requires ValidConfig(c) && IsMaximalRun(c, run) && (c.workers > 0 || c.jobs == [])
    requires InterruptedAt(run, i)
    ensures SummaryOf(run[|run| - 1].collected, |c.jobs|).result == 0
       <==> forall id :: 0 <= id < |c.jobs| ==> !Untouched(run[i], id) && (c.jobs[id].isSkip || c.codes[id] == 0)
  {
    assert 0 < i < |run|;
    hide *;
    InterruptDecides(c, run, i);
    ExpectedResult(c, run[i]);
  }

  /** In particular it returns 1 when some job is untouched in any interrupted state. */
  lemma BrokenOffFails(c: Config, run: seq<State>, k: nat, id: nat)
    requires ValidConfig(c) && IsMaximalRun(c, run) && (c.workers > 0 || c.jobs == [])
    requires k < |run| && run[k].interrupted && id < |c.jobs| && Untouched(run[k], id)
    ensures SummaryOf(run[|run| - 1].collected, |c.jobs|).result == 1
  {
    var i := FirstInterrupted(c, run, k);
    AtInterrupt(c, run, i);
    StaysOnCourse(c, run, i, k);
    UntouchedBefore(c, run[i], run[k], id);
    ResultWithInterrupt(c, run, i);
    hide OnCourse, Untouched, CountKind, NamesOf, SortNames, IsRun, Inv;
  }
}
