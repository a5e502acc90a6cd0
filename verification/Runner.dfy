/** The parallel test runner of test.py as a step relation: a main thread, worker threads, two
    first-in first-out queues and an interrupt flag, under every interleaving. */
module Runner {

  /** A unit of work, or the special job that tells one worker to stop. */
  datatype Job = Job(id: int, name: string, isSkip: bool, skipReason: string, isBreak: bool,
                     returncode: int)

  const STOP := Job(-1, "", false, "", true, 0)

  /** The jobs to dispatch, the return code each process would give, and the number of workers. */
  datatype Config = Config(jobs: seq<Job>, codes: seq<int>, workers: nat)

  ghost predicate ValidConfig(c: Config) {
    && |c.codes| == |c.jobs|
    && forall i :: 0 <= i < |c.jobs| ==> c.jobs[i].id == i && !c.jobs[i].isBreak
  }

  datatype Worker =
    | NotStarted
    | Waiting            // in input_queue.get
    | Got(job: Job)      // about to look at the interrupt flag
    | Running(job: Job)  // the process has been launched
    | Returning(job: Job) // about to put the job on the output queue
    | Exited

  datatype Main =
    | Starting(k: nat)
    | Dispatching(k: nat)
    | Stopping(k: nat)
    | Collecting(k: nat)
    | Joining(k: nat)
    | Done

  /** `gets` and `stops` are history: items taken from the input queue, stop jobs taken by each worker. */
  datatype State = State(main: Main, input: seq<Job>, output: seq<Job>, workers: seq<Worker>,
                         interrupted: bool, collected: seq<Job>, gets: nat, stops: seq<nat>)

  datatype Action = MainStep | WorkerStep(w: nat) | Interrupt

  ghost predicate Init(c: Config, s: State) {
    s == State(Starting(0), [], [], seq(c.workers, _ => NotStarted), false, [], 0, seq(c.workers, _ => 0))
  }

  /** An action is enabled unless its thread is blocked or gone. */
  ghost predicate Enabled(c: Config, s: State, a: Action)
    requires |s.workers| == |s.stops| == c.workers
  {
    match a
    case Interrupt => !s.interrupted
    case WorkerStep(w) =>
      && w < c.workers
      && match s.workers[w] {
        case NotStarted => false
        case Waiting => s.input != []
        case Got(_) => true
        case Running(_) => true
        case Returning(_) => true
        case Exited => false
      }
    case MainStep =>
      match s.main {
        case Collecting(k) => k < |c.jobs| ==> s.output != []
        case Joining(k) => k < c.workers ==> s.workers[k].Exited?
        case Done => false
        case _ => true
      }
  }

  ghost function StepWorker(c: Config, s: State, w: nat): State
    requires |s.workers| == |s.stops| == c.workers && Enabled(c, s, WorkerStep(w))
    requires ValidConfig(c)
  {
    match s.workers[w]
    case Waiting =>
      var job := s.input[0];
      var t := s.(input := s.input[1..], gets := s.gets + 1);
      if job.isBreak then
        t.(workers := s.workers[w := Exited], stops := s.stops[w := s.stops[w] + 1])
      else
        t.(workers := s.workers[w := Got(job)])
    case Got(job) =>
      if s.interrupted then s.(workers := s.workers[w := Returning(job.(isBreak := true))])
      else if job.isSkip then s.(workers := s.workers[w := Returning(job)])
      else s.(workers := s.workers[w := Running(job)])
    case Running(job) =>
      var code := if 0 <= job.id < |c.codes| then c.codes[job.id] else 0;
      s.(workers := s.workers[w := Returning(job.(returncode := code))])
    case Returning(job) =>
      s.(workers := s.workers[w := Waiting], output := s.output + [job])
  }

  ghost function StepMain(c: Config, s: State): State
    requires |s.workers| == |s.stops| == c.workers && Enabled(c, s, MainStep)
  {
    match s.main
    case Starting(k) =>
      if k < c.workers then s.(main := Starting(k + 1), workers := s.workers[k := Waiting])
      else s.(main := Dispatching(0))
    case Dispatching(k) =>
      if k < |c.jobs| then s.(main := Dispatching(k + 1), input := s.input + [c.jobs[k]])
      else s.(main := Stopping(0))
    case Stopping(k) =>
      if k < c.workers then s.(main := Stopping(k + 1), input := s.input + [STOP])
      else s.(main := Collecting(0))
    case Collecting(k) =>
      if k < |c.jobs| then
        s.(main := Collecting(k + 1), output := s.output[1..], collected := s.collected + [s.output[0]])
      else s.(main := Joining(0))
    case Joining(k) =>
      if k < c.workers then s.(main := Joining(k + 1)) else s.(main := Done)
  }

  ghost function Apply(c: Config, s: State, a: Action): State
    requires |s.workers| == |s.stops| == c.workers && Enabled(c, s, a) && ValidConfig(c)
  {
    match a
    case Interrupt => s.(interrupted := true)
    case WorkerStep(w) => StepWorker(c, s, w)
    case MainStep => StepMain(c, s)
  }

  ghost predicate Next(c: Config, s: State, t: State)
    requires ValidConfig(c)
  {
    && |s.workers| == |s.stops| == c.workers
    && exists a :: Enabled(c, s, a) && t == Apply(c, s, a)
  }

  /** Some thread can move; the interrupt comes from outside and is never waited for. */
  ghost predicate CanStep(c: Config, s: State) {
    |s.workers| == |s.stops| == c.workers && exists a :: a != Interrupt && Enabled(c, s, a)
  }

  ghost predicate IsRun(c: Config, run: seq<State>)
    requires ValidConfig(c)
  {
    && |run| > 0
    && Init(c, run[0])
    && forall i :: 0 <= i < |run| - 1 ==> Next(c, run[i], run[i + 1])
  }

  /** A run in which no thread can go on. */
  ghost predicate IsMaximalRun(c: Config, run: seq<State>)
    requires ValidConfig(c)
  {
    IsRun(c, run) && !CanStep(c, run[|run| - 1])
  }

  // --------------------------------------------------------- the invariant

  ghost function Stops(n: nat): (r: seq<Job>)
    ensures |r| == n && forall i :: 0 <= i < n ==> r[i] == STOP
  {
    seq(n, _ => STOP)
  }

  /** Everything main has put on the input queue so far, in order. */
  ghost function Sent(c: Config, m: Main): seq<Job> {
    match m
    case Starting(_) => []
    case Dispatching(k) => if k <= |c.jobs| then c.jobs[..k] else c.jobs
    case Stopping(k) => c.jobs + Stops(k)
    case _ => c.jobs + Stops(c.workers)
  }

  ghost function HeldBy(w: Worker, id: int): nat {
    match w
    case Got(job) => if job.id == id then 1 else 0
    case Running(job) => if job.id == id then 1 else 0
    case Returning(job) => if job.id == id then 1 else 0
    case _ => 0
  }

  /** How many workers hold the job with the given id. */
  ghost function Held(ws: seq<Worker>, id: int): nat {
    if ws == [] then 0
    else Held(ws[..|ws| - 1], id) + HeldBy(ws[|ws| - 1], id)
  }

  /** How often the job with the given id is in the list. */
  ghost function Occurs(jobs: seq<Job>, id: int): nat {
    if jobs == [] then 0
    else Occurs(jobs[..|jobs| - 1], id) + if jobs[|jobs| - 1].id == id then 1 else 0
  }

  ghost function Min(a: nat, b: nat): nat {
    if a < b then a else b
  }

  /** How a finished job may differ from the one dispatched. */
  ghost predicate Outcome(c: Config, interrupted: bool, job: Job)
    requires ValidConfig(c)
  {
    && 0 <= job.id < |c.jobs|
    && var j := c.jobs[job.id];
       || (interrupted && job == j.(isBreak := true))
       || (j.isSkip && job == j)
       || (!j.isSkip && job == j.(returncode := c.codes[job.id]))
  }

  ghost predicate WorkerFits(c: Config, interrupted: bool, w: Worker)
    requires ValidConfig(c)
  {
    match w
    case Got(job) => 0 <= job.id < |c.jobs| && job == c.jobs[job.id]
    case Running(job) => 0 <= job.id < |c.jobs| && job == c.jobs[job.id] && !job.isSkip
    case Returning(job) => Outcome(c, interrupted, job)
    case _ => true
  }

  ghost function ExitedCount(ws: seq<Worker>): nat {
    if ws == [] then 0
    else ExitedCount(ws[..|ws| - 1]) + if ws[|ws| - 1].Exited? then 1 else 0
  }

  /** Main's own place, and what it implies for the worker threads. */
  ghost predicate MainFits(c: Config, s: State) {
    match s.main
    case Starting(k) =>
      && k <= c.workers && s.collected == []
      && forall w :: 0 <= w < |s.workers| ==> (s.workers[w].NotStarted? <==> w >= k)
    case Dispatching(k) => k <= |c.jobs| && s.collected == [] && AllStarted(s)
    case Stopping(k) => k <= c.workers && s.collected == [] && AllStarted(s)
    case Collecting(k) => k <= |c.jobs| && |s.collected| == k && AllStarted(s)
    case Joining(k) =>
      && k <= c.workers && |s.collected| == |c.jobs| && AllStarted(s)
      && forall w :: 0 <= w < k && w < |s.workers| ==> s.workers[w].Exited?
    case Done =>
      && |s.collected| == |c.jobs|
      && forall w :: 0 <= w < |s.workers| ==> s.workers[w].Exited?
  }

  ghost predicate AllStarted(s: State) {
    forall w :: 0 <= w < |s.workers| ==> !s.workers[w].NotStarted?
  }

  /** Whether the job with the given id has been taken from the input queue. */
  ghost function Taken(c: Config, gets: nat, id: int): nat {
    if 0 <= id < |c.jobs| && id < gets then 1 else 0
  }

  /** A job that has been taken is in one place only; one that has not is in none. */
  ghost predicate InOnePlace(c: Config, s: State, id: int) {
    Held(s.workers, id) + Occurs(s.output, id) + Occurs(s.collected, id) == Taken(c, s.gets, id)
  }

  ghost predicate Conserved(c: Config, s: State) {
    forall id :: InOnePlace(c, s, id)
  }

  /** The input queue is what main has sent less what has been taken, in order. */
  ghost predicate Flow(c: Config, s: State) {
    && s.gets <= |Sent(c, s.main)|
    && s.input == Sent(c, s.main)[s.gets..]
    && (c.workers == 0 ==> s.gets == 0)
  }

  /** Every stop job taken has ended the one worker that took it. */
  ghost predicate StopsFit(c: Config, s: State)
    requires |s.workers| == |s.stops| == c.workers
  {
    && ExitedCount(s.workers) == s.gets - Min(s.gets, |c.jobs|)
    && forall w :: 0 <= w < c.workers ==> s.stops[w] == if s.workers[w].Exited? then 1 else 0
  }

  /** Jobs change only as the worker loop changes them. */
  ghost predicate OutcomesFit(c: Config, s: State)
    requires ValidConfig(c) && |s.workers| == c.workers
  {
    && (forall w :: 0 <= w < c.workers ==> WorkerFits(c, s.interrupted, s.workers[w]))
    && (forall i :: 0 <= i < |s.output| ==> Outcome(c, s.interrupted, s.output[i]))
    && (forall i :: 0 <= i < |s.collected| ==> Outcome(c, s.interrupted, s.collected[i]))
  }

  ghost predicate Inv(c: Config, s: State)
    requires ValidConfig(c)
  {
    && |s.workers| == |s.stops| == c.workers
    && Flow(c, s) && Conserved(c, s) && MainFits(c, s) && StopsFit(c, s) && OutcomesFit(c, s)
  }

  // ------------------------------------------------------- counting facts

  lemma {:induction false} HeldUpdate(ws: seq<Worker>, w: nat, x: Worker, id: int)
    requires w < |ws|
    ensures Held(ws[w := x], id) + HeldBy(ws[w], id) == Held(ws, id) + HeldBy(x, id)
  {
    var n := |ws| - 1;
    var us := ws[w := x];
    if w < n {
      HeldUpdate(ws[..n], w, x, id);
      assert us[..n] == ws[..n][w := x];
    } else {
      assert us[..n] == ws[..n];
    }
  }

  lemma {:induction false} ExitedUpdate(ws: seq<Worker>, w: nat, x: Worker)
    requires w < |ws|
    ensures ExitedCount(ws[w := x]) + (if ws[w].Exited? then 1 else 0)
         == ExitedCount(ws) + (if x.Exited? then 1 else 0)
  {
    var n := |ws| - 1;
    var us := ws[w := x];
    if w < n {
      ExitedUpdate(ws[..n], w, x);
      assert us[..n] == ws[..n][w := x];
    } else {
      assert us[..n] == ws[..n];
    }
  }

  lemma OccursLast(jobs: seq<Job>, job: Job, id: int)
    ensures Occurs(jobs + [job], id) == Occurs(jobs, id) + if job.id == id then 1 else 0
  {
  }

  lemma {:induction false} OccursFirst(jobs: seq<Job>, id: int)
    requires jobs != []
    ensures Occurs(jobs, id) == Occurs(jobs[1..], id) + if jobs[0].id == id then 1 else 0
  {
    var n := |jobs| - 1;
    if n > 0 {
      OccursFirst(jobs[..n], id);
      assert jobs[..n][1..] == jobs[1..][..n - 1];
    }
  }

  lemma {:induction false} NoneHeld(ws: seq<Worker>, id: int)
    requires forall w :: 0 <= w < |ws| ==> HeldBy(ws[w], id) == 0
    ensures Held(ws, id) == 0
  {
    if ws != [] {
      NoneHeld(ws[..|ws| - 1], id);
    }
  }

  lemma {:induction false} SomeNotExited(ws: seq<Worker>)
    ensures ExitedCount(ws) <= |ws|
    ensures ExitedCount(ws) == |ws| <==> forall w :: 0 <= w < |ws| ==> ws[w].Exited?
  {
    if ws != [] {
      var n := |ws| - 1;
      SomeNotExited(ws[..n]);
      if forall w :: 0 <= w < n ==> ws[..n][w].Exited? {
        assert forall w :: 0 <= w < n ==> ws[w] == ws[..n][w];
      } else {
        var w :| 0 <= w < n && !ws[..n][w].Exited?;
        assert !ws[w].Exited?;
      }
    }
  }

  lemma {:induction false} FreshThreads(ws: seq<Worker>)
    requires forall w :: 0 <= w < |ws| ==> ws[w] == NotStarted
    ensures ExitedCount(ws) == 0
  {
    if ws != [] {
      FreshThreads(ws[..|ws| - 1]);
    }
  }

  // ------------------------------------------------- every step keeps it

  lemma InitInv(c: Config, s: State)
    requires ValidConfig(c) && Init(c, s)
    ensures Inv(c, s)
  {
    FreshThreads(s.workers);
    forall id ensures InOnePlace(c, s, id) {
      NoneHeld(s.workers, id);
    }
  }

  lemma InterruptInv(c: Config, s: State)
    requires ValidConfig(c) && Inv(c, s)
    ensures Inv(c, s.(interrupted := true))
  {
    var t := s.(interrupted := true);
    forall w | 0 <= w < c.workers ensures WorkerFits(c, true, t.workers[w]) {
      assert WorkerFits(c, s.interrupted, s.workers[w]);
    }
    forall id ensures InOnePlace(c, t, id) {
      assert InOnePlace(c, s, id);
    }
  }

  ghost predicate Sized(c: Config, s: State) {
    |s.workers| == |s.stops| == c.workers
  }

  // One lemma for each part of the invariant, first for the worker threads.

  lemma WorkerFlow(c: Config, s: State, w: nat)
    requires ValidConfig(c) && Sized(c, s) && Enabled(c, s, WorkerStep(w)) && Flow(c, s)
    ensures Flow(c, StepWorker(c, s, w))
    ensures s.workers[w].Waiting? ==> s.input[0] == Sent(c, s.main)[s.gets]
  {
    var sent := Sent(c, s.main);
    hide Sent;
    if s.workers[w].Waiting? {
      assert sent[s.gets..][1..] == sent[s.gets + 1..];
    }
  }

  lemma SentAt(c: Config, m: Main, i: nat)
    requires i < |Sent(c, m)|
    ensures Sent(c, m)[i] == if i < |c.jobs| then c.jobs[i] else STOP
  {
  }

  lemma ConservedAt(c: Config, s: State, id: int)
    requires Conserved(c, s)
    ensures InOnePlace(c, s, id)
  {
  }

  lemma AllInOnePlace(c: Config, s: State)
    requires forall id :: InOnePlace(c, s, id)
    ensures Conserved(c, s)
  {
  }

  lemma WorkerConserved(c: Config, s: State, w: nat)
    requires ValidConfig(c) && Sized(c, s) && Enabled(c, s, WorkerStep(w)) && Flow(c, s) && Conserved(c, s)
    ensures Conserved(c, StepWorker(c, s, w))
  {
    if s.workers[w].Waiting? {
      WorkerFlow(c, s, w);
      SentAt(c, s.main, s.gets);
    }
    hide *;
    forall id ensures InOnePlace(c, StepWorker(c, s, w), id) {
      ConservedAt(c, s, id);
      WorkerKeepsPlace(c, s, w, id);
    }
    AllInOnePlace(c, StepWorker(c, s, w));
  }

  lemma WorkerChange(c: Config, s: State, w: nat, id: int)
    requires ValidConfig(c) && Sized(c, s) && Enabled(c, s, WorkerStep(w))
    requires s.workers[w].Waiting? ==> s.input[0] == if s.gets < |c.jobs| then c.jobs[s.gets] else STOP
    ensures var t := StepWorker(c, s, w);
      && |t.workers| == |s.workers| && t.workers == s.workers[w := t.workers[w]] && t.collected == s.collected
      && HeldBy(t.workers[w], id) + Occurs(t.output, id) + Taken(c, s.gets, id)
         == HeldBy(s.workers[w], id) + Occurs(s.output, id) + Taken(c, t.gets, id)
  {
    if s.workers[w].Returning? { OccursLast(s.output, s.workers[w].job, id); }
    hide Occurs;
  }

  lemma WorkerKeepsPlace(c: Config, s: State, w: nat, id: int)
    requires ValidConfig(c) && Sized(c, s) && Enabled(c, s, WorkerStep(w)) && InOnePlace(c, s, id)
    requires s.workers[w].Waiting? ==> s.input[0] == if s.gets < |c.jobs| then c.jobs[s.gets] else STOP
    ensures InOnePlace(c, StepWorker(c, s, w), id)
  {
    var t := StepWorker(c, s, w);
    hide Held, HeldBy, Occurs, StepWorker;
    WorkerChange(c, s, w, id);
    HeldUpdate(s.workers, w, t.workers[w], id);
    assert InOnePlace(c, s, id) && InOnePlace(c, t, id);
  }

  lemma WorkerMainFits(c: Config, s: State, w: nat)
    requires ValidConfig(c) && Sized(c, s) && Enabled(c, s, WorkerStep(w)) && MainFits(c, s)
    ensures MainFits(c, StepWorker(c, s, w))
  {
    WorkerMoves(c, s, w);
    hide Enabled, StepWorker;
  }

  /** A worker that takes a step has been started and has not exited; main stays where it is. */
  lemma WorkerMoves(c: Config, s: State, w: nat)
    requires ValidConfig(c) && Sized(c, s) && Enabled(c, s, WorkerStep(w))
    ensures w < |s.workers| && !s.workers[w].NotStarted? && !s.workers[w].Exited?
    ensures var t := StepWorker(c, s, w);
      && t.main == s.main && t.collected == s.collected && |t.workers| == |s.workers|
      && !t.workers[w].NotStarted? && t.workers == s.workers[w := t.workers[w]]
  {
  }

  lemma WorkerStops(c: Config, s: State, w: nat)
    requires ValidConfig(c) && Sized(c, s) && Enabled(c, s, WorkerStep(w)) && Flow(c, s) && StopsFit(c, s)
    ensures StopsFit(c, StepWorker(c, s, w))
  {
    var t := StepWorker(c, s, w);
    if s.workers[w].Waiting? {
      WorkerFlow(c, s, w);
      SentAt(c, s.main, s.gets);
    }
    ExitedUpdate(s.workers, w, t.workers[w]);
    hide Sent, Flow, ExitedCount;
  }

  lemma WorkerOutcomes(c: Config, s: State, w: nat)
    requires ValidConfig(c) && Sized(c, s) && Enabled(c, s, WorkerStep(w)) && Flow(c, s) && OutcomesFit(c, s)
    ensures OutcomesFit(c, StepWorker(c, s, w))
  {
    var t := StepWorker(c, s, w);
    if s.workers[w].Waiting? {
      WorkerFlow(c, s, w);
      SentAt(c, s.main, s.gets);
    }
    hide Sent, Flow;
    assert WorkerFits(c, s.interrupted, s.workers[w]);
    assert WorkerFits(c, t.interrupted, t.workers[w]);
    hide Outcome;
  }

  lemma WorkerInv(c: Config, s: State, w: nat)
    requires ValidConfig(c) && Inv(c, s) && Enabled(c, s, WorkerStep(w))
    ensures Inv(c, StepWorker(c, s, w))
  {
    assert Sized(c, StepWorker(c, s, w));
    hide Flow, Conserved, MainFits, StopsFit, OutcomesFit, StepWorker;
    WorkerFlow(c, s, w);
    WorkerConserved(c, s, w);
    WorkerMainFits(c, s, w);
    WorkerStops(c, s, w);
    WorkerOutcomes(c, s, w);
  }

  // The same for main.

  lemma SentMore(c: Config, m: Main)
    requires m.Dispatching? || m.Stopping?
    ensures m.Dispatching? && m.k < |c.jobs| ==> Sent(c, Dispatching(m.k + 1)) == Sent(c, m) + [c.jobs[m.k]]
    ensures m.Dispatching? && m.k == |c.jobs| ==> Sent(c, Stopping(0)) == Sent(c, m)
    ensures m.Stopping? && m.k < c.workers ==> Sent(c, Stopping(m.k + 1)) == Sent(c, m) + [STOP]
    ensures m.Stopping? && m.k == c.workers ==> Sent(c, Collecting(0)) == Sent(c, m)
  {
  }

  lemma MainFlow(c: Config, s: State)
    requires ValidConfig(c) && Sized(c, s) && Enabled(c, s, MainStep) && Flow(c, s) && MainFits(c, s)
    ensures Flow(c, StepMain(c, s))
  {
    var t := StepMain(c, s);
    match s.main
    case Dispatching(k) => SentMore(c, s.main); hide Sent;
    case Stopping(k) => SentMore(c, s.main); hide Sent;
    case Starting(k) => assert Sent(c, t.main) == [];
    case Collecting(k) =>
    case Joining(k) =>
  }

  lemma MainConserved(c: Config, s: State)
    requires ValidConfig(c) && Sized(c, s) && Enabled(c, s, MainStep) && Conserved(c, s) && MainFits(c, s)
    ensures Conserved(c, StepMain(c, s))
  {
    var t := StepMain(c, s);
    forall id ensures InOnePlace(c, t, id) {
      assert InOnePlace(c, s, id);
      if s.main.Starting? && s.main.k < c.workers {
        HeldUpdate(s.workers, s.main.k, Waiting, id);
      } else if s.main.Collecting? && s.main.k < |c.jobs| {
        OccursFirst(s.output, id);
        OccursLast(s.collected, s.output[0], id);
      }
    }
  }

  lemma MainMainFits(c: Config, s: State)
    requires ValidConfig(c) && Sized(c, s) && Enabled(c, s, MainStep) && MainFits(c, s)
    ensures MainFits(c, StepMain(c, s))
  {
  }

  lemma MainStops(c: Config, s: State)
    requires ValidConfig(c) && Sized(c, s) && Enabled(c, s, MainStep) && MainFits(c, s) && StopsFit(c, s)
    ensures StopsFit(c, StepMain(c, s))
  {
    if s.main.Starting? && s.main.k < c.workers {
      ExitedUpdate(s.workers, s.main.k, Waiting);
    }
    hide ExitedCount;
  }

  lemma MainOutcomes(c: Config, s: State)
    requires ValidConfig(c) && Sized(c, s) && Enabled(c, s, MainStep) && OutcomesFit(c, s)
    ensures OutcomesFit(c, StepMain(c, s))
  {
    hide Outcome;
    if s.main.Starting? && s.main.k < c.workers {
      assert WorkerFits(c, s.interrupted, Waiting);
    }
    hide WorkerFits;
  }

  lemma MainInv(c: Config, s: State)
    requires ValidConfig(c) && Inv(c, s) && Enabled(c, s, MainStep)
    ensures Inv(c, StepMain(c, s))
  {
    assert Sized(c, StepMain(c, s));
    hide Flow, Conserved, MainFits, StopsFit, OutcomesFit, StepMain;
    MainFlow(c, s);
    MainConserved(c, s);
    MainMainFits(c, s);
    MainStops(c, s);
    MainOutcomes(c, s);
  }

  lemma StepInv(c: Config, s: State, a: Action)
    requires ValidConfig(c) && Inv(c, s) && Enabled(c, s, a)
    ensures Inv(c, Apply(c, s, a))
  {
    hide Inv;
    match a
    case Interrupt => InterruptInv(c, s);
    case MainStep => MainInv(c, s);
    case WorkerStep(w) => WorkerInv(c, s, w);
  }

  lemma {:induction false} RunInv(c: Config, run: seq<State>, i: nat)
    requires ValidConfig(c) && IsRun(c, run) && i < |run|
    ensures Inv(c, run[i])
  {
    hide Inv;
    if i == 0 {
      InitInv(c, run[0]);
    } else {
      RunInv(c, run, i - 1);
      assert Next(c, run[i - 1], run[i - 1 + 1]);
      var a :| Enabled(c, run[i - 1], a) && run[i] == Apply(c, run[i - 1], a);
      StepInv(c, run[i - 1], a);
    }
  }

  // ------------------------------------------------------------ termination

  ghost function WorkerLeft(w: Worker): nat {
    match w
    case Got(_) => 3
    case Running(_) => 2
    case Returning(_) => 1
    case _ => 0
  }

  ghost function WorkersLeft(ws: seq<Worker>): nat {
    if ws == [] then 0
    else WorkersLeft(ws[..|ws| - 1]) + WorkerLeft(ws[|ws| - 1])
  }

  ghost function MainLeft(c: Config, m: Main): int {
    match m
    case Starting(k) => 3 * c.workers + 2 * |c.jobs| + 5 - k
    case Dispatching(k) => 2 * c.workers + 2 * |c.jobs| + 4 - k
    case Stopping(k) => 2 * c.workers + |c.jobs| + 3 - k
    case Collecting(k) => c.workers + |c.jobs| + 2 - k
    case Joining(k) => c.workers + 1 - k
    case Done => 0
  }

  /** An upper bound on the number of steps still to come. */
  ghost function StepsLeft(c: Config, s: State): int {
    MainLeft(c, s.main) + 4 * (|c.jobs| + c.workers - s.gets) + WorkersLeft(s.workers)
    + if s.interrupted then 0 else 1
  }

  lemma {:induction false} LeftUpdate(ws: seq<Worker>, w: nat, x: Worker)
    requires w < |ws|
    ensures WorkersLeft(ws[w := x]) + WorkerLeft(ws[w]) == WorkersLeft(ws) + WorkerLeft(x)
  {
    var n := |ws| - 1;
    var us := ws[w := x];
    if w < n {
      LeftUpdate(ws[..n], w, x);
      assert us[..n] == ws[..n][w := x];
    } else {
      assert us[..n] == ws[..n];
    }
  }

  lemma StepsLeftNat(c: Config, s: State)
    requires ValidConfig(c) && Inv(c, s)
    ensures StepsLeft(c, s) >= 0
  {
    assert |Sent(c, s.main)| <= |c.jobs| + c.workers;
  }

  lemma WorkerDecreases(c: Config, s: State, w: nat)
    requires ValidConfig(c) && Sized(c, s) && Enabled(c, s, WorkerStep(w))
    ensures StepsLeft(c, StepWorker(c, s, w)) < StepsLeft(c, s)
  {
    LeftUpdate(s.workers, w, StepWorker(c, s, w).workers[w]);
    hide WorkersLeft, MainLeft;
  }

  lemma MainDecreases(c: Config, s: State)
    requires ValidConfig(c) && Sized(c, s) && Enabled(c, s, MainStep) && MainFits(c, s)
    ensures StepsLeft(c, StepMain(c, s)) < StepsLeft(c, s)
  {
    if s.main.Starting? && s.main.k < c.workers {
      LeftUpdate(s.workers, s.main.k, Waiting);
    }
    hide WorkersLeft, AllStarted;
  }

  lemma StepDecreases(c: Config, s: State, a: Action)
    requires ValidConfig(c) && Inv(c, s) && Enabled(c, s, a)
    ensures StepsLeft(c, Apply(c, s, a)) < StepsLeft(c, s)
  {
    match a
    case Interrupt =>
    case WorkerStep(w) => WorkerDecreases(c, s, w);
    case MainStep => MainDecreases(c, s);
  }

  lemma {:induction false} RunLength(c: Config, run: seq<State>, i: nat)
    requires ValidConfig(c) && IsRun(c, run) && i < |run|
    ensures StepsLeft(c, run[i]) + i <= StepsLeft(c, run[0])
  {
    if i > 0 {
      RunLength(c, run, i - 1);
      RunInv(c, run, i - 1);
      assert Next(c, run[i - 1], run[i - 1 + 1]);
      var a :| Enabled(c, run[i - 1], a) && run[i] == Apply(c, run[i - 1], a);
      StepDecreases(c, run[i - 1], a);
    }
  }

  lemma {:induction false} NothingLeft(ws: seq<Worker>)
    requires forall w :: 0 <= w < |ws| ==> ws[w] == NotStarted
    ensures WorkersLeft(ws) == 0
  {
    if ws != [] { NothingLeft(ws[..|ws| - 1]); }
  }

  /** Every run ends: none is longer than a fixed multiple of the jobs and workers. */
  lemma EveryRunIsShort(c: Config, run: seq<State>)
    requires ValidConfig(c) && IsRun(c, run)
    ensures |run| <= 7 * c.workers + 6 * |c.jobs| + 7
  {
    RunLength(c, run, |run| - 1);
    RunInv(c, run, |run| - 1);
    StepsLeftNat(c, run[|run| - 1]);
    NothingLeft(run[0].workers);
  }

  // --------------------------------------------------------------- progress

  /** Everything done: main is past its joins, every worker has taken exactly one stop job and
      has exited, both queues are empty, and every job has come back exactly once. */
  ghost predicate Final(c: Config, s: State)
    requires ValidConfig(c)
  {
    && s.main.Done?
    && |s.workers| == |s.stops| == c.workers
    && (forall w :: 0 <= w < c.workers ==> s.workers[w].Exited? && s.stops[w] == 1)
    && s.input == [] && s.output == []
    && |s.collected| == |c.jobs|
    && (forall i :: 0 <= i < |c.jobs| ==> Occurs(s.collected, i) == 1)
    && (forall i :: 0 <= i < |s.collected| ==> Outcome(c, s.interrupted, s.collected[i]))
  }

  /** Total number of jobs with ids below n, given how often each id occurs. */
  ghost function TotalBelow(jobs: seq<Job>, n: nat): nat {
    if n == 0 then 0 else TotalBelow(jobs, n - 1) + Occurs(jobs, n - 1)
  }

  lemma {:induction false} TotalOf(jobs: seq<Job>, n: nat)
    requires forall i :: 0 <= i < |jobs| ==> 0 <= jobs[i].id < n
    ensures TotalBelow(jobs, n) == |jobs|
  {
    if jobs == [] {
      TotalNone(n);
    } else {
      var m := |jobs| - 1;
      TotalOf(jobs[..m], n);
      TotalOneMore(jobs, n);
    }
  }

  lemma {:induction false} TotalNone(n: nat)
    ensures TotalBelow([], n) == 0
  {
    if n > 0 { TotalNone(n - 1); }
  }

  lemma {:induction false} TotalOneMore(jobs: seq<Job>, n: nat)
    requires jobs != [] && 0 <= jobs[|jobs| - 1].id
    ensures TotalBelow(jobs, n) == TotalBelow(jobs[..|jobs| - 1], n) + if jobs[|jobs| - 1].id < n then 1 else 0
  {
    if n > 0 { TotalOneMore(jobs, n - 1); }
  }

  lemma {:induction false} TotalOnes(jobs: seq<Job>, n: nat, k: nat)
    requires forall i :: 0 <= i < n ==> Occurs(jobs, i) == if i < k then 1 else 0
    ensures TotalBelow(jobs, n) == Min(n, k)
  {
    if n > 0 { TotalOnes(jobs, n - 1, k); }
  }

  /** When nothing is in flight, all jobs taken so far have been collected. */
  lemma QuietCount(c: Config, s: State)
    requires ValidConfig(c) && Inv(c, s) && s.output == []
    requires forall w :: 0 <= w < c.workers ==> s.workers[w].Waiting? || s.workers[w].Exited?
    ensures |s.collected| == Min(|c.jobs|, s.gets)
    ensures forall i :: 0 <= i < |c.jobs| ==> Occurs(s.collected, i) == if i < s.gets then 1 else 0
  {
    forall i | 0 <= i < |c.jobs| ensures Occurs(s.collected, i) == if i < s.gets then 1 else 0 {
      assert InOnePlace(c, s, i);
      NoneHeld(s.workers, i);
    }
    forall i | 0 <= i < |s.collected| ensures 0 <= s.collected[i].id < |c.jobs| {
      assert Outcome(c, s.interrupted, s.collected[i]);
    }
    TotalOf(s.collected, |c.jobs|);
    TotalOnes(s.collected, |c.jobs|, s.gets);
  }

  lemma {:induction false} HeldSome(ws: seq<Worker>, w: nat, id: int)
    requires w < |ws| && HeldBy(ws[w], id) > 0
    ensures Held(ws, id) > 0
  {
    var n := |ws| - 1;
    if w < n {
      HeldSome(ws[..n], w, id);
    }
  }

  lemma {:induction false} TotalFull(jobs: seq<Job>, n: nat)
    requires forall i :: 0 <= i < n ==> Occurs(jobs, i) <= 1
    ensures TotalBelow(jobs, n) <= n
    ensures TotalBelow(jobs, n) == n ==> forall i :: 0 <= i < n ==> Occurs(jobs, i) == 1
  {
    if n > 0 { TotalFull(jobs, n - 1); }
  }

  /** When as many jobs as were dispatched have been collected, each was collected once and
      nothing is left in flight. */
  lemma AllCollected(c: Config, s: State)
    requires ValidConfig(c) && Inv(c, s) && |s.collected| == |c.jobs|
    ensures forall i :: 0 <= i < |c.jobs| ==> Occurs(s.collected, i) == 1
    ensures s.output == [] && s.gets >= |c.jobs|
    ensures forall w :: 0 <= w < c.workers ==> !s.workers[w].Got? && !s.workers[w].Running? && !s.workers[w].Returning?
  {
    forall i | 0 <= i < |s.collected| ensures 0 <= s.collected[i].id < |c.jobs| {
      assert Outcome(c, s.interrupted, s.collected[i]);
    }
    TotalOf(s.collected, |c.jobs|);
    forall i | 0 <= i < |c.jobs| ensures Occurs(s.collected, i) <= 1 {
      assert InOnePlace(c, s, i);
    }
    TotalFull(s.collected, |c.jobs|);
    if |c.jobs| > 0 {
      assert InOnePlace(c, s, |c.jobs| - 1);
    }
    if s.output != [] {
      var id := s.output[0].id;
      assert Outcome(c, s.interrupted, s.output[0]);
      ConservedAt(c, s, id);
      OccursFirst(s.output, id);
      assert false;
    }
    forall w | 0 <= w < c.workers
      ensures !s.workers[w].Got? && !s.workers[w].Running? && !s.workers[w].Returning?
    {
      assert WorkerFits(c, s.interrupted, s.workers[w]);
      if s.workers[w].Got? || s.workers[w].Running? || s.workers[w].Returning? {
        var id := s.workers[w].job.id;
        ConservedAt(c, s, id);
        HeldSome(s.workers, w, id);
        assert false;
      }
    }
  }

  ghost predicate Blocked(c: Config, s: State, w: nat)
    requires w < |s.workers|
  {
    s.workers[w].NotStarted? || s.workers[w].Exited? || (s.workers[w].Waiting? && s.input == [])
  }

  /** In a stuck state workers wait or have exited, and main waits to collect, to join, or is done. */
  lemma AllThreadsBlocked(c: Config, s: State)
    requires Sized(c, s) && !CanStep(c, s)
    ensures forall w :: 0 <= w < c.workers ==> Blocked(c, s, w)
    ensures s.main.Collecting? || s.main.Joining? || s.main.Done?
    ensures s.main.Collecting? ==> s.main.k < |c.jobs| && s.output == []
    ensures s.main.Joining? ==> s.main.k < c.workers && !s.workers[s.main.k].Exited?
  {
    forall w | 0 <= w < c.workers ensures Blocked(c, s, w) {
      assert !Enabled(c, s, WorkerStep(w));
    }
    assert !Enabled(c, s, MainStep);
  }

  lemma NotStuckCollecting(c: Config, s: State)
    requires ValidConfig(c) && Inv(c, s) && !CanStep(c, s)
    requires c.workers > 0
    ensures !s.main.Collecting?
  {
    if s.main.Collecting? {
      AllThreadsBlocked(c, s);
      hide OutcomesFit, Conserved, CanStep;
      forall w | 0 <= w < c.workers ensures s.workers[w].Waiting? || s.workers[w].Exited? {
        assert Blocked(c, s, w);
      }
      QuietCount(c, s);
      forall w | 0 <= w < c.workers ensures s.workers[w].Exited? {
        assert Blocked(c, s, w);
      }
      SomeNotExited(s.workers);
      assert false;
    }
  }

  lemma NotStuckJoining(c: Config, s: State)
    requires ValidConfig(c) && Inv(c, s) && !CanStep(c, s)
    ensures !s.main.Joining?
  {
    if s.main.Joining? {
      AllThreadsBlocked(c, s);
      assert Blocked(c, s, s.main.k);
      AllCollected(c, s);
      SomeNotExited(s.workers);
      hide OutcomesFit, Conserved, CanStep;
      assert false;
    }
  }

  lemma DoneIsFinal(c: Config, s: State)
    requires ValidConfig(c) && Inv(c, s) && s.main.Done?
    ensures Final(c, s)
  {
    AllCollected(c, s);
    SomeNotExited(s.workers);
    hide Outcome, Conserved;
  }

  /** The only states in which nothing can move are the final ones: there is no deadlock. */
  lemma NoDeadlock(c: Config, s: State)
    requires ValidConfig(c) && Inv(c, s) && !CanStep(c, s)
    requires c.workers > 0 || c.jobs == []
    ensures Final(c, s)
  {
    AllThreadsBlocked(c, s);
    NotStuckJoining(c, s);
    if c.workers > 0 { NotStuckCollecting(c, s); }
    DoneIsFinal(c, s);
  }

  // ------------------------------------------------------------ the theorems

  /** Every maximal run, under any interleaving and with an interrupt at any moment or none,
      ends in a final state. */
  lemma MaximalRunsFinish(c: Config, run: seq<State>)
    requires ValidConfig(c) && IsMaximalRun(c, run)
    requires c.workers > 0 || c.jobs == []
    ensures Final(c, run[|run| - 1])
  {
    RunInv(c, run, |run| - 1);
    NoDeadlock(c, run[|run| - 1]);
  }

  /** No worker takes a stop job before all jobs have been dispatched and taken. */
  lemma StopsComeLast(c: Config, run: seq<State>, i: nat, w: nat)
    requires ValidConfig(c) && IsRun(c, run) && i < |run|
    requires w < |run[i].stops| && run[i].stops[w] > 0
    ensures run[i].gets > |c.jobs|
    ensures forall j :: 0 <= j < |run[i].input| ==> run[i].input[j] == STOP
    ensures !run[i].main.Starting? && !run[i].main.Dispatching?
  {
    var s := run[i];
    RunInv(c, run, i);
    SomeExited(s.workers, w);
    forall j | 0 <= j < |s.input| ensures s.input[j] == STOP {
      SentAt(c, s.main, s.gets + j);
    }
  }

  lemma {:induction false} SomeExited(ws: seq<Worker>, w: nat)
    requires w < |ws| && ws[w].Exited?
    ensures ExitedCount(ws) > 0
  {
    var n := |ws| - 1;
    if w < n { SomeExited(ws[..n], w); }
  }

  lemma ExtendRun(c: Config, run: seq<State>, a: Action)
    requires ValidConfig(c) && IsRun(c, run)
    requires Sized(c, run[|run| - 1]) && Enabled(c, run[|run| - 1], a)
    ensures IsRun(c, run + [Apply(c, run[|run| - 1], a)])
  {
  }

  lemma InvSized(c: Config, s: State)
    requires ValidConfig(c) && Inv(c, s)
    ensures Sized(c, s)
  {
  }

  lemma ApplyThread(c: Config, s: State, a: Action)
    requires ValidConfig(c) && Sized(c, s) && Enabled(c, s, a)
    ensures Apply(c, s, a).interrupted == (s.interrupted || a == Interrupt)
    ensures a == Interrupt ==> Apply(c, s, a) == s.(interrupted := true)
  {
  }

  lemma OneStepMore(c: Config, run: seq<State>) returns (more: seq<State>)
    requires ValidConfig(c) && IsRun(c, run) && CanStep(c, run[|run| - 1])
    ensures IsRun(c, more) && run <= more && more != []
    ensures more[|more| - 1].interrupted == run[|run| - 1].interrupted
    ensures 0 <= StepsLeft(c, more[|more| - 1]) < StepsLeft(c, run[|run| - 1])
  {
    var s := run[|run| - 1];
    RunInv(c, run, |run| - 1);
    InvSized(c, s);
    hide Inv, IsRun, Enabled, Apply, StepsLeft;
    var a :| a != Interrupt && Enabled(c, s, a);
    ApplyThread(c, s, a);
    ExtendRun(c, run, a);
    StepDecreases(c, s, a);
    StepInv(c, s, a);
    StepsLeftNat(c, Apply(c, s, a));
    more := run + [Apply(c, s, a)];
  }

  /** A run can be continued until no thread can go on, without an interrupt of its own. */
  lemma {:induction false} Complete(c: Config, run: seq<State>) returns (whole: seq<State>)
    requires ValidConfig(c) && IsRun(c, run)
    ensures IsMaximalRun(c, whole) && run <= whole
    ensures whole[|whole| - 1].interrupted == run[|run| - 1].interrupted
    decreases StepsLeft(c, run[|run| - 1])
  {
    if CanStep(c, run[|run| - 1]) {
      var more := OneStepMore(c, run);
      hide *;
      whole := Complete(c, more);
    } else {
      whole := run;
    }
  }

  lemma NoWorkersNoEnd(c: Config, s: State)
    requires ValidConfig(c) && Inv(c, s) && c.workers == 0 && c.jobs != []
    ensures !Final(c, s)
  {
  }

  /** The runner finishes on every schedule, interrupted or not, exactly when there is a worker or
      nothing to do. */
  lemma FinishesExactlyWithWorkers(c: Config)
    requires ValidConfig(c)
    ensures (forall run :: IsMaximalRun(c, run) ==> Final(c, run[|run| - 1]))
       <==> c.workers > 0 || c.jobs == []
  {
    if c.workers > 0 || c.jobs == [] {
      forall run | IsMaximalRun(c, run) ensures Final(c, run[|run| - 1]) {
        MaximalRunsFinish(c, run);
      }
    } else {
      var run := UninterruptedRun(c);
      RunInv(c, run, |run| - 1);
      NoWorkersNoEnd(c, run[|run| - 1]);
    }
  }

  /** There is a run to the end without an interrupt, ... */
  lemma UninterruptedRun(c: Config) returns (whole: seq<State>)
    requires ValidConfig(c)
    ensures IsMaximalRun(c, whole) && !whole[|whole| - 1].interrupted
  {
    var s := State(Starting(0), [], [], seq(c.workers, _ => NotStarted), false, [], 0, seq(c.workers, _ => 0));
    whole := Complete(c, [s]);
  }

  /** ... and one with an interrupt at any moment at which there has been none. */
  lemma InterruptAtAnyMoment(c: Config, run: seq<State>) returns (whole: seq<State>)
    requires ValidConfig(c) && IsRun(c, run) && !run[|run| - 1].interrupted
    ensures IsMaximalRun(c, whole) && run < whole && whole[|run|] == run[|run| - 1].(interrupted := true)
    ensures whole[|whole| - 1].interrupted
  {
    var s := run[|run| - 1];
    RunInv(c, run, |run| - 1);
    InvSized(c, s);
    assert Enabled(c, s, Interrupt);
    ApplyThread(c, s, Interrupt);
    ExtendRun(c, run, Interrupt);
    hide *;
    var more := run + [Apply(c, s, Interrupt)];
    whole := Complete(c, more);
    assert whole[|run|] == more[|run|];
  }

  // ------------------------------------------------- how many workers there are

  /** From the number of processors and the process limit, where 0 stands for no limit. */
  function WorkerCount(processors: int, limit: int): nat {
    var count := if limit != 0 && limit <= processors then limit else processors;
    if count < 0 then 0 else count
  }

  /** There is a worker exactly when there is a processor and the limit is not negative; a negative
      limit takes the place of the number of processors. */
  lemma SomeWorker(processors: int, limit: int)
    ensures WorkerCount(processors, limit) > 0 <==> processors > 0 && limit >= 0
    ensures 0 < limit && 0 < processors ==>
      WorkerCount(processors, limit) == if limit < processors then limit else processors
  {
  }

  /** So the process limit decides whether the runner finishes: with jobs to do and a negative limit it
      does not, ... */
  lemma FinishesExactlyWithinLimit(c: Config, processors: int, limit: int)
    requires ValidConfig(c) && c.workers == WorkerCount(processors, limit)
    ensures (forall run :: IsMaximalRun(c, run) ==> Final(c, run[|run| - 1]))
       <==> (processors > 0 && limit >= 0) || c.jobs == []
  {
    SomeWorker(processors, limit);
    FinishesExactlyWithWorkers(c);
    hide *;
  }

  /** ... on any schedule, for instance one job on four processors with a limit of -1. */
  lemma NegativeLimitHangs(c: Config, run: seq<State>)
    requires ValidConfig(c) && |c.jobs| == 1 && c.workers == WorkerCount(4, -1) && IsMaximalRun(c, run)
    ensures !Final(c, run[|run| - 1])
  {
    SomeWorker(4, -1);
    RunInv(c, run, |run| - 1);
    NoWorkersNoEnd(c, run[|run| - 1]);
  }
}
