/**
 * The test runner's worker pool: one thread dispatches, collects and joins, and the workers pass
 * jobs from one queue to another.
 */
module WorkerPool {
  // One input queue, one output queue, a fixed number of workers and a main thread that
  // dispatches, collects and joins.  An interrupt may come at any moment.

  /** A test to run; tests to be skipped go through the workers too. */
  datatype Test = Test(skip: bool)

  /** A job on a queue; `id` is its place in the order of dispatch. */
  datatype Job = Job(id: nat, isBreak: bool, isSkip: bool, code: int)

  /** A worker about to look at a job is `Checking`; `Gone` remembers the job that stopped it. */
  datatype Worker = Idle | Checking(job: Job) | Running(job: Job) | Gone(last: nat)

  datatype Tally = Tally(passed: nat, failed: nat, skipped: nat, valgrind: nat, crashed: nat, interrupted: nat)

  /** History: where the job with some id is. */
  datatype Place = Queued | With(worker: nat) | Out(position: nat) | Ended(worker: nat)

  /**
   * `results` are the jobs put on the output queue, in order; the first `collected` of them
   * have been taken off it again.  `places` are those of the dispatched jobs.
   */
  datatype Pool = Pool(
    tests: seq<Test>,
    input: seq<Job>,
    workers: seq<Worker>,
    results: seq<Job>,
    collected: nat,
    tally: Tally,
    joined: nat,
    threadExit: bool,
    places: seq<Place>)

  datatype Op = Dispatch | Get(w: nat) | Check(w: nat) | Finish(w: nat, code: int) | Collect | Join | Interrupt

  ghost predicate Start(p: Pool) {
    && p == Pool(p.tests, [], p.workers, [], 0, Tally(0, 0, 0, 0, 0, 0), 0, p.threadExit, [])
    && forall w :: 0 <= w < |p.workers| ==> p.workers[w] == Idle
  }

  function Total(p: Pool): nat {
    |p.tests| + |p.workers|
  }

  /** The job dispatched when `i` have been: the tests, then one break for each worker. */
  function JobAt(p: Pool, i: nat): Job {
    if i < |p.tests| then Job(i, false, p.tests[i].skip, 0) else Job(i, true, false, 0)
  }

  function Tallied(t: Tally, job: Job): Tally {
    if job.isBreak then t.(interrupted := t.interrupted + 1)
    else if job.isSkip then t.(skipped := t.skipped + 1)
    else if job.code == 0 then t.(passed := t.passed + 1)
    else if job.code == 1 then t.(failed := t.failed + 1)
    else if job.code == 2 then t.(valgrind := t.valgrind + 1)
    else t.(crashed := t.crashed + 1)
  }

  predicate Enabled(p: Pool, op: Op) {
    match op
    case Dispatch => |p.places| < Total(p)
    case Get(w) => w < |p.workers| && p.workers[w] == Idle && p.input != []
    case Check(w) => w < |p.workers| && p.workers[w].Checking? && p.workers[w].job.id < |p.places|
    case Finish(w, _) => w < |p.workers| && p.workers[w].Running? && p.workers[w].job.id < |p.places|
    case Collect => |p.places| == Total(p) && p.collected < |p.tests| && p.collected < |p.results|
    case Join => |p.places| == Total(p) && p.collected == |p.tests| && p.joined < |p.workers| && p.workers[p.joined].Gone?
    case Interrupt => true
  }

  ghost function Put(p: Pool, w: nat, job: Job): Pool
    requires w < |p.workers| && job.id < |p.places|
  {
    p.(workers := p.workers[w := Idle], results := p.results + [job], places := p.places[job.id := Out(|p.results|)])
  }

  ghost function Take(p: Pool, w: nat): Pool
    requires w < |p.workers| && p.input != []
  {
    var job := p.input[0];
    p.(input := p.input[1..], workers := p.workers[w := Checking(job)],
       places := if job.id < |p.places| then p.places[job.id := With(w)] else p.places)
  }

  ghost function Stop(p: Pool, w: nat, id: nat): Pool
    requires w < |p.workers| && id < |p.places|
  {
    p.(workers := p.workers[w := Gone(id)], places := p.places[id := Ended(w)])
  }

  ghost function Begin(p: Pool, w: nat, job: Job): Pool
    requires w < |p.workers|
  {
    p.(workers := p.workers[w := Running(job)])
  }

  ghost function Do(p: Pool, op: Op): Pool
    requires Enabled(p, op)
  {
    match op
    case Dispatch => p.(input := p.input + [JobAt(p, |p.places|)], places := p.places + [Queued])
    case Get(w) => Take(p, w)
    case Check(w) =>
      var job := p.workers[w].job;
      if job.isBreak then Stop(p, w, job.id)
      else if p.threadExit then Put(p, w, job.(isBreak := true))
      else if job.isSkip then Put(p, w, job)
      else Begin(p, w, job)
    case Finish(w, code) => Put(p, w, p.workers[w].job.(code := code))
    case Collect => p.(collected := p.collected + 1, tally := Tallied(p.tally, p.results[p.collected]))
    case Join => p.(joined := p.joined + 1)
    case Interrupt => p.(threadExit := true)
  }

  ghost predicate Execution(ps: seq<Pool>, ops: seq<Op>) {
    && |ps| == |ops| + 1 && Start(ps[0])
    && forall i :: 0 <= i < |ops| ==> Enabled(ps[i], ops[i]) && ps[i + 1] == Do(ps[i], ops[i])
  }

  ghost predicate Over(p: Pool) {
    |p.places| == Total(p) && p.collected == |p.tests| && p.joined == |p.workers|
  }

  /** The exit status of the runner. */
  function Verdict(p: Pool): nat {
    if p.tally.passed + p.tally.skipped == |p.tests| then 0 else 1
  }

  // ----- Where every job is -----

  /** The input queue holds the latest jobs, in order of dispatch. */
  ghost predicate InputRight(p: Pool) {
    && |p.input| <= |p.places| <= Total(p)
    && (forall k :: 0 <= k < |p.input| ==> p.input[k] == JobAt(p, |p.places| - |p.input| + k))
    && (forall i :: 0 <= i < |p.places| ==> (p.places[i] == Queued <==> i >= |p.places| - |p.input|))
  }

  ghost predicate HeldBy(p: Pool, w: nat, job: Job)
    requires w < |p.workers|
  {
    p.workers[w] == Checking(job) || p.workers[w] == Running(job)
  }

  /** A busy worker has a dispatched job, which is marked as being with it. */
  ghost predicate Holders(p: Pool) {
    forall w :: 0 <= w < |p.workers| && (p.workers[w].Checking? || p.workers[w].Running?) ==>
      var job := p.workers[w].job;
      && job.id < |p.places| && job == JobAt(p, job.id) && p.places[job.id] == With(w)
      && (p.workers[w].Running? ==> !job.isBreak && !job.isSkip)
  }

  /** A worker that is gone was stopped by a break. */
  ghost predicate Stopped(p: Pool) {
    forall w :: 0 <= w < |p.workers| && p.workers[w].Gone? ==>
      var id := p.workers[w].last;
      |p.tests| <= id < |p.places| && p.places[id] == Ended(w)
  }

  /** Nobody else is marked as having a job. */
  ghost predicate Marked(p: Pool) {
    forall i {:trigger p.places[i]} :: 0 <= i < |p.places| ==>
      match p.places[i]
      case With(w) => w < |p.workers| && HeldBy(p, w, JobAt(p, i))
      case Ended(w) => w < |p.workers| && p.workers[w] == Gone(i)
      case _ => true
  }

  ghost predicate WorkersRight(p: Pool) {
    Holders(p) && Stopped(p) && Marked(p)
  }

  /** Each result is a test's own job: as it was, or run, or marked by an interrupt. */
  ghost predicate ResultsRight(p: Pool) {
    && p.collected <= |p.results|
    && (forall k :: 0 <= k < |p.results| ==>
          var job := p.results[k];
          && job.id < |p.tests| && job.id < |p.places| && p.places[job.id] == Out(k)
          && job.isSkip == p.tests[job.id].skip)
    && (forall i {:trigger p.places[i]} :: 0 <= i < |p.places| && p.places[i].Out? ==>
          p.places[i].position < |p.results| && p.results[p.places[i].position].id == i)
  }

  ghost function TallyOf(results: seq<Job>, n: nat): Tally
    requires n <= |results|
  {
    if n == 0 then Tally(0, 0, 0, 0, 0, 0) else Tallied(TallyOf(results, n - 1), results[n - 1])
  }

  // ----- Counting workers -----

  function Weight(w: Worker): nat {
    match w case Checking(_) => 4 case Running(_) => 3 case _ => 0
  }

  function OnBreak(w: Worker): nat {
    match w case Gone(_) => 1 case Checking(job) => if job.isBreak then 1 else 0 case _ => 0
  }

  function Busy(w: Worker): nat {
    match w case Idle => 0 case _ => 1
  }

  ghost function Weights(ws: seq<Worker>): nat {
    if ws == [] then 0 else Weights(ws[..|ws| - 1]) + Weight(ws[|ws| - 1])
  }

  ghost function OnBreaks(ws: seq<Worker>): nat {
    if ws == [] then 0 else OnBreaks(ws[..|ws| - 1]) + OnBreak(ws[|ws| - 1])
  }

  ghost function Busies(ws: seq<Worker>): nat {
    if ws == [] then 0 else Busies(ws[..|ws| - 1]) + Busy(ws[|ws| - 1])
  }

  lemma {:induction false} CountsUpdate(ws: seq<Worker>, i: nat, x: Worker)
    requires i < |ws|
    ensures Weights(ws[i := x]) == Weights(ws) - Weight(ws[i]) + Weight(x)
    ensures OnBreaks(ws[i := x]) == OnBreaks(ws) - OnBreak(ws[i]) + OnBreak(x)
    ensures Busies(ws[i := x]) == Busies(ws) - Busy(ws[i]) + Busy(x)
  {
    var t := ws[..|ws| - 1];
    if i == |ws| - 1 {
      assert ws[i := x][..|ws| - 1] == t;
    } else {
      CountsUpdate(t, i, x);
      assert ws[i := x][..|ws| - 1] == t[i := x];
    }
  }

  /** If as many are on a break as there are workers, every worker is. */
  lemma {:induction false} AllOnBreak(ws: seq<Worker>, i: nat)
    requires i < |ws|
    ensures OnBreaks(ws) <= |ws|
    ensures OnBreaks(ws) == |ws| ==> OnBreak(ws[i]) == 1
  {
    var t := ws[..|ws| - 1];
    if t != [] {
      AllOnBreak(t, if i < |t| then i else 0);
    }
  }

  lemma {:induction false} NoneBusy(ws: seq<Worker>)
    requires forall w :: 0 <= w < |ws| ==> ws[w] == Idle
    ensures Weights(ws) == 0 && OnBreaks(ws) == 0 && Busies(ws) == 0
  {
    if ws != [] {
      NoneBusy(ws[..|ws| - 1]);
    }
  }

  lemma {:induction false} AllGone(ws: seq<Worker>)
    requires forall w :: 0 <= w < |ws| ==> ws[w].Gone?
    ensures Busies(ws) == |ws| && OnBreaks(ws) == |ws|
  {
    if ws != [] {
      AllGone(ws[..|ws| - 1]);
    }
  }

  /** The jobs taken are held, stopped a worker, or came out; and as many breaks were taken as workers are on one. */
  ghost predicate Counted(p: Pool) {
    && |p.places| - |p.input| == Busies(p.workers) + |p.results|
    && OnBreaks(p.workers) == (if |p.places| - |p.input| <= |p.tests| then 0 else |p.places| - |p.input| - |p.tests|)
  }

  /** What the main thread knows: the tally of what it collected, and that it joined stopped workers. */
  ghost predicate MainRight(p: Pool) {
    && p.collected <= |p.results| && p.tally == TallyOf(p.results, p.collected)
    && p.joined <= |p.workers| && p.collected <= |p.tests|
    && (p.collected > 0 || p.joined > 0 ==> |p.places| == Total(p)) && (p.joined > 0 ==> p.collected == |p.tests|)
    && forall w :: 0 <= w < p.joined ==> p.workers[w].Gone?
  }

  ghost predicate Inv(p: Pool) {
    InputRight(p) && WorkersRight(p) && ResultsRight(p) && Counted(p) && MainRight(p)
  }

  // ----- Every step keeps it -----

  ghost function Dispatched(p: Pool): Pool {
    p.(input := p.input + [JobAt(p, |p.places|)], places := p.places + [Queued])
  }

  lemma DispatchInput(p: Pool)
    requires InputRight(p) && |p.places| < Total(p)
    ensures InputRight(Dispatched(p))
  {}

  lemma DispatchWorkers(p: Pool)
    requires WorkersRight(p)
    ensures WorkersRight(Dispatched(p))
  {}

  lemma DispatchResults(p: Pool)
    requires ResultsRight(p)
    ensures ResultsRight(Dispatched(p))
  {}

  lemma DispatchKeeps(p: Pool)
    requires Inv(p) && Enabled(p, Dispatch)
    ensures Inv(Dispatched(p)) && Do(p, Dispatch) == Dispatched(p)
  {
    hide InputRight, WorkersRight, ResultsRight, TallyOf, JobAt;
    DispatchInput(p);
    DispatchWorkers(p);
    DispatchResults(p);
  }

  lemma {:induction false} TallyPrefix(results: seq<Job>, job: Job, n: nat)
    requires n <= |results|
    ensures TallyOf(results + [job], n) == TallyOf(results, n)
  {
    if n > 0 {
      TallyPrefix(results, job, n - 1);
    }
  }

  lemma TakeInput(p: Pool, w: nat)
    requires InputRight(p) && w < |p.workers| && p.input != []
    ensures InputRight(Take(p, w)) && p.input[0] == JobAt(p, |p.places| - |p.input|)
  {}

  lemma TakeWorkers(p: Pool, w: nat)
    requires WorkersRight(p) && w < |p.workers| && p.workers[w] == Idle && p.input != []
    requires p.input[0].id < |p.places| && p.input[0] == JobAt(p, p.input[0].id) && p.places[p.input[0].id] == Queued
    ensures WorkersRight(Take(p, w))
  {
    hide JobAt;
    TakeJobs(p, w);
    assert Holders(Take(p, w));
    assert Stopped(Take(p, w));
    assert Marked(Take(p, w));
  }

  lemma TakeJobs(p: Pool, w: nat)
    requires w < |p.workers| && p.input != []
    ensures forall i {:trigger JobAt(Take(p, w), i)} :: JobAt(Take(p, w), i) == JobAt(p, i)
  {}

  lemma TakeResults(p: Pool, w: nat)
    requires ResultsRight(p) && w < |p.workers| && p.input != []
    requires p.input[0].id < |p.places| && p.places[p.input[0].id] == Queued
    ensures ResultsRight(Take(p, w))
  {}

  lemma TakeCounted(p: Pool, w: nat)
    requires Counted(p) && InputRight(p) && w < |p.workers| && p.workers[w] == Idle && p.input != []
    ensures Counted(Take(p, w))
  {
    CountsUpdate(p.workers, w, Checking(p.input[0]));
    assert p.input[0] == JobAt(p, |p.places| - |p.input|);
  }

  lemma GetKeeps(p: Pool, w: nat)
    requires Inv(p) && Enabled(p, Get(w))
    ensures Inv(Take(p, w))
  {
    hide InputRight, WorkersRight, ResultsRight, Counted, TallyOf;
    InputFirst(p);
    TakeInput(p, w);
    TakeWorkers(p, w);
    TakeResults(p, w);
    TakeCounted(p, w);
  }

  lemma InputFirst(p: Pool)
    requires InputRight(p) && p.input != []
    ensures p.input[0].id < |p.places| && p.input[0] == JobAt(p, p.input[0].id) && p.places[p.input[0].id] == Queued
  {}

  /** Worker `w` has a job that is not a break. */
  ghost predicate HasTest(p: Pool, w: nat) {
    w < |p.workers| && (p.workers[w].Checking? || p.workers[w].Running?) && !p.workers[w].job.isBreak
  }

  /** What it puts on the output queue: the same job, run or marked. */
  ghost predicate Answers(p: Pool, w: nat, job: Job)
    requires HasTest(p, w)
  {
    job.id == p.workers[w].job.id && job.isSkip == p.workers[w].job.isSkip
  }

  lemma HeldJob(p: Pool, w: nat)
    requires WorkersRight(p) && w < |p.workers| && (p.workers[w].Checking? || p.workers[w].Running?)
    ensures var job := p.workers[w].job;
            job.id < |p.places| && job == JobAt(p, job.id) && p.places[job.id] == With(w)
  {}

  lemma PutInput(p: Pool, w: nat, job: Job)
    requires InputRight(p) && w < |p.workers| && job.id < |p.places| && p.places[job.id] != Queued
    ensures InputRight(Put(p, w, job))
  {}

  lemma PutWorkers(p: Pool, w: nat, job: Job)
    requires WorkersRight(p) && HasTest(p, w) && Answers(p, w, job)
    ensures job.id < |p.places| && WorkersRight(Put(p, w, job))
  {
    HeldJob(p, w);
  }

  lemma PutResults(p: Pool, w: nat, job: Job)
    requires ResultsRight(p) && w < |p.workers| && job.id < |p.places| && p.places[job.id] == With(w)
    requires job.id < |p.tests| && job.isSkip == p.tests[job.id].skip
    ensures ResultsRight(Put(p, w, job))
  {}

  lemma PutCounted(p: Pool, w: nat, job: Job)
    requires Counted(p) && HasTest(p, w) && job.id < |p.places|
    ensures Counted(Put(p, w, job))
  {
    CountsUpdate(p.workers, w, Idle);
  }

  lemma PutKeeps(p: Pool, w: nat, job: Job)
    requires Inv(p) && HasTest(p, w) && Answers(p, w, job)
    ensures job.id < |p.places| && Inv(Put(p, w, job))
  {
    hide InputRight, WorkersRight, ResultsRight, Counted;
    HeldJob(p, w);
    PutInput(p, w, job);
    PutWorkers(p, w, job);
    PutResults(p, w, job);
    PutCounted(p, w, job);
    CollectedFew(p);
    TallyPrefix(p.results, job, p.collected);
  }

  lemma CollectedFew(p: Pool)
    requires ResultsRight(p)
    ensures p.collected <= |p.results|
  {}

  lemma StopInput(p: Pool, w: nat, id: nat)
    requires InputRight(p) && w < |p.workers| && id < |p.places| && p.places[id] != Queued
    ensures InputRight(Stop(p, w, id))
  {}

  lemma StopWorkers(p: Pool, w: nat, id: nat)
    requires WorkersRight(p) && w < |p.workers| && p.workers[w].Checking? && p.workers[w].job.id == id && p.workers[w].job.isBreak
    ensures id < |p.places| && WorkersRight(Stop(p, w, id))
  {
    HeldJob(p, w);
  }

  lemma StopResults(p: Pool, w: nat, id: nat)
    requires ResultsRight(p) && w < |p.workers| && id < |p.places| && p.places[id] == With(w)
    ensures ResultsRight(Stop(p, w, id))
  {}

  lemma StopCounted(p: Pool, w: nat, id: nat)
    requires Counted(p) && w < |p.workers| && p.workers[w].Checking? && p.workers[w].job.isBreak && id < |p.places|
    ensures Counted(Stop(p, w, id))
  {
    CountsUpdate(p.workers, w, Gone(id));
  }

  lemma StopKeeps(p: Pool, w: nat)
    requires Inv(p) && w < |p.workers| && p.workers[w].Checking? && p.workers[w].job.isBreak
    ensures p.workers[w].job.id < |p.places| && Inv(Stop(p, w, p.workers[w].job.id))
  {
    hide InputRight, WorkersRight, ResultsRight, Counted, TallyOf;
    var id := p.workers[w].job.id;
    HeldJob(p, w);
    StopInput(p, w, id);
    StopWorkers(p, w, id);
    StopResults(p, w, id);
    StopCounted(p, w, id);
  }

  lemma BeginWorkers(p: Pool, w: nat)
    requires WorkersRight(p) && w < |p.workers| && p.workers[w].Checking? && !p.workers[w].job.isBreak && !p.workers[w].job.isSkip
    ensures WorkersRight(Begin(p, w, p.workers[w].job))
  {}

  lemma BeginCounted(p: Pool, w: nat)
    requires Counted(p) && w < |p.workers| && p.workers[w].Checking? && !p.workers[w].job.isBreak
    ensures Counted(Begin(p, w, p.workers[w].job))
  {
    CountsUpdate(p.workers, w, Running(p.workers[w].job));
  }

  lemma BeginKeeps(p: Pool, w: nat)
    requires Inv(p) && w < |p.workers| && p.workers[w].Checking? && !p.workers[w].job.isBreak && !p.workers[w].job.isSkip
    ensures Inv(Begin(p, w, p.workers[w].job))
  {
    hide WorkersRight, Counted, TallyOf;
    BeginWorkers(p, w);
    BeginCounted(p, w);
  }

  lemma RunningTest(p: Pool, w: nat)
    requires WorkersRight(p) && w < |p.workers| && p.workers[w].Running?
    ensures !p.workers[w].job.isBreak
  {}

  lemma StepKeeps(p: Pool, op: Op)
    requires Inv(p) && Enabled(p, op)
    ensures Inv(Do(p, op))
  {
    hide InputRight, WorkersRight, ResultsRight, Counted, Take, Put, Stop, Begin;
    match op
    case Dispatch => DispatchKeeps(p);
    case Get(w) => GetKeeps(p, w);
    case Check(w) =>
      var job := p.workers[w].job;
      if job.isBreak {
        StopKeeps(p, w);
      } else if p.threadExit {
        PutKeeps(p, w, job.(isBreak := true));
      } else if job.isSkip {
        PutKeeps(p, w, job);
      } else {
        BeginKeeps(p, w);
      }
    case Finish(w, code) =>
      RunningTest(p, w);
      PutKeeps(p, w, p.workers[w].job.(code := code));
    case _ => MainKeeps(p, op);
  }

  /** Only what the main thread keeps for itself differs. */
  ghost predicate SameQueues(p: Pool, p': Pool) {
    && p'.tests == p.tests && p'.input == p.input && p'.workers == p.workers && p'.results == p.results && p'.places == p.places
    && p'.collected <= |p.results|
  }

  lemma SameInput(p: Pool, p': Pool)
    requires SameQueues(p, p') && InputRight(p)
    ensures InputRight(p')
  {
    forall k | 0 <= k < |p'.input| ensures p'.input[k] == JobAt(p', |p'.places| - |p'.input| + k) {
      assert p.input[k] == JobAt(p, |p.places| - |p.input| + k);
    }
  }

  lemma SameWorkers(p: Pool, p': Pool)
    requires SameQueues(p, p') && WorkersRight(p)
    ensures WorkersRight(p')
  {
    forall i {:trigger p'.places[i]} | 0 <= i < |p'.places| ensures JobAt(p', i) == JobAt(p, i) {}
  }

  lemma SameResults(p: Pool, p': Pool)
    requires SameQueues(p, p') && ResultsRight(p)
    ensures ResultsRight(p')
  {}

  lemma MainKeeps(p: Pool, op: Op)
    requires Inv(p) && Enabled(p, op) && (op.Collect? || op.Join? || op.Interrupt?)
    ensures Inv(Do(p, op))
  {
    hide InputRight, WorkersRight, ResultsRight, TallyOf;
    CollectedFew(p);
    var p' := Do(p, op);
    SameInput(p, p');
    SameWorkers(p, p');
    SameResults(p, p');
    MainMoves(p, op);
  }

  lemma MainMoves(p: Pool, op: Op)
    requires MainRight(p) && Enabled(p, op) && (op.Collect? || op.Join? || op.Interrupt?)
    ensures MainRight(Do(p, op))
  {}

  lemma {:induction false} RunKeeps(ps: seq<Pool>, ops: seq<Op>, i: nat)
    requires Execution(ps, ops) && i <= |ops|
    ensures Inv(ps[i]) && ps[i].tests == ps[0].tests && |ps[i].workers| == |ps[0].workers|
  {
    hide Do, Enabled, Inv;
    if i == 0 {
      StartInv(ps[0]);
    } else {
      RunKeeps(ps, ops, i - 1);
      assert Enabled(ps[i - 1], ops[i - 1]) && ps[i] == Do(ps[i - 1], ops[i - 1]);
      StepKeeps(ps[i - 1], ops[i - 1]);
      StepFixed(ps[i - 1], ops[i - 1]);
    }
  }

  lemma StartInv(p: Pool)
    requires Start(p)
    ensures Inv(p)
  {
    NoneBusy(p.workers);
  }

  lemma StepFixed(p: Pool, op: Op)
    requires Enabled(p, op)
    ensures Do(p, op).tests == p.tests && |Do(p, op).workers| == |p.workers|
  {}

  // ----- What a run that is over has done -----

  /** Test `id` came out at place `k` and nowhere else. */
  ghost predicate OutOnce(p: Pool, id: nat, k: nat) {
    k < |p.results| && p.results[k].id == id && forall j :: 0 <= j < |p.results| && p.results[j].id == id ==> j == k
  }

  ghost predicate CameOut(p: Pool, id: nat) {
    exists k :: OutOnce(p, id, k)
  }

  lemma OverSizes(p: Pool)
    requires Inv(p) && Over(p)
    ensures p.input == [] && |p.results| == |p.tests|
  {
    AllGone(p.workers);
  }

  lemma OverPlaces(p: Pool, id: nat)
    requires Inv(p) && Over(p) && id < |p.tests|
    ensures id < |p.places| && p.places[id].Out? && OutOnce(p, id, p.places[id].position)
  {
    hide Counted, TallyOf;
    OverSizes(p);
    assert p.places[id] != Queued;
  }

  /**
   * When a run is over the collector has seen every test exactly once, and every worker was
   * stopped by a break of its own.
   */
  lemma RunDeliversOnce(ps: seq<Pool>, ops: seq<Op>, i: nat)
    requires Execution(ps, ops) && i <= |ops| && Over(ps[i])
    ensures var p := ps[i];
            && p.collected == |p.results| == |p.tests|
            && (forall id: nat :: id < |p.tests| ==> CameOut(p, id))
            && (forall w :: 0 <= w < |p.workers| ==> p.workers[w].Gone? && p.workers[w].last >= |p.tests|)
            && (forall v, w :: 0 <= v < w < |p.workers| ==> p.workers[v].last != p.workers[w].last)
  {
    hide Do, Enabled, OutOnce, Counted, TallyOf, InputRight, ResultsRight;
    RunKeeps(ps, ops, i);
    var p := ps[i];
    OverSizes(p);
    forall id: nat | id < |p.tests| ensures CameOut(p, id) {
      OverPlaces(p, id);
      assert OutOnce(p, id, p.places[id].position);
    }
    forall v, w | 0 <= v < w < |p.workers| ensures p.workers[v].last != p.workers[w].last {
      assert p.places[p.workers[v].last] == Ended(v) && p.places[p.workers[w].last] == Ended(w);
    }
  }

  function Sum(t: Tally): nat {
    t.passed + t.failed + t.skipped + t.valgrind + t.crashed + t.interrupted
  }

  ghost predicate Fine(job: Job) {
    !job.isBreak && (job.isSkip || job.code == 0)
  }

  ghost function FineCount(results: seq<Job>, n: nat): (m: nat)
    requires n <= |results|
    ensures m <= n
  {
    if n == 0 then 0 else FineCount(results, n - 1) + if Fine(results[n - 1]) then 1 else 0
  }

  lemma {:induction false} AllFine(results: seq<Job>, n: nat)
    requires n <= |results|
    ensures FineCount(results, n) == n <==> forall k :: 0 <= k < n ==> Fine(results[k])
  {
    if n > 0 {
      AllFine(results, n - 1);
    }
  }

  lemma TalliedOne(t: Tally, job: Job)
    ensures Sum(Tallied(t, job)) == Sum(t) + 1
    ensures Tallied(t, job).passed + Tallied(t, job).skipped == t.passed + t.skipped + if Fine(job) then 1 else 0
  {}

  lemma {:induction false} TallyMeans(results: seq<Job>, n: nat)
    requires n <= |results|
    ensures Sum(TallyOf(results, n)) == n
    ensures var t := TallyOf(results, n); t.passed + t.skipped == FineCount(results, n)
  {
    hide Tallied, Fine;
    if n > 0 {
      TallyMeans(results, n - 1);
      TalliedOne(TallyOf(results, n - 1), results[n - 1]);
    }
  }

  /** In every state the six tallies add up to what was collected. */
  lemma RunTallies(ps: seq<Pool>, ops: seq<Op>, i: nat)
    requires Execution(ps, ops) && i <= |ops|
    ensures Sum(ps[i].tally) == ps[i].collected <= |ps[i].tests|
  {
    hide Do, Enabled, Sum, TallyOf;
    RunKeeps(ps, ops, i);
    TallyMeans(ps[i].results, ps[i].collected);
  }

  /** Test `id` came out, once, skipped or with return code 0, and not marked by an interrupt. */
  ghost predicate WentWell(p: Pool, id: nat) {
    exists k: nat :: k < |p.results| && OutOnce(p, id, k) && Fine(p.results[k])
  }

  /** The verdict is 0 exactly if every test was skipped or ran and returned 0, none of them interrupted. */
  lemma RunVerdict(ps: seq<Pool>, ops: seq<Op>, i: nat)
    requires Execution(ps, ops) && i <= |ops| && Over(ps[i])
    ensures Verdict(ps[i]) == 0 <==> forall id: nat :: id < |ps[i].tests| ==> WentWell(ps[i], id)
  {
    hide Do, Enabled, Fine, Counted, InputRight, WorkersRight, TallyOf;
    RunKeeps(ps, ops, i);
    var p := ps[i];
    OverSizes(p);
    TallyMeans(p.results, |p.results|);
    AllFine(p.results, |p.results|);
    if forall id: nat :: id < |p.tests| ==> WentWell(p, id) {
      forall k | 0 <= k < |p.results| ensures Fine(p.results[k]) {
        assert WentWell(p, p.results[k].id);
      }
    }
    if forall k :: 0 <= k < |p.results| ==> Fine(p.results[k]) {
      forall id: nat | id < |p.tests| ensures WentWell(p, id) {
        OverPlaces(p, id);
        assert OutOnce(p, id, p.places[id].position) && Fine(p.results[p.places[id].position]);
      }
    }
  }

  // ----- Progress -----

  lemma NeverStuck(p: Pool) returns (op: Op)
    requires Inv(p) && !Over(p) && |p.workers| > 0
    ensures op != Interrupt && Enabled(p, op)
  {
    hide InputRight, ResultsRight, TallyOf;
    CollectedFew(p);
    InputFew(p);
    if w: nat :| w < |p.workers| && p.workers[w].Checking? {
      HeldJob(p, w);
      op := Check(w);
    } else if w: nat :| w < |p.workers| && p.workers[w].Running? {
      HeldJob(p, w);
      op := Finish(w, 0);
    } else if |p.places| < Total(p) {
      op := Dispatch;
    } else if w: nat :| w < |p.workers| && p.workers[w] == Idle {
      op := Get(w);
      AllOnBreak(p.workers, w);
    } else {
      forall w | 0 <= w < |p.workers| ensures p.workers[w].Gone? {}
      AllGone(p.workers);
      op := if p.collected < |p.tests| then Collect else Join;
    }
  }

  /** In every run with a worker, somebody other than the user can go on until it is over. */
  lemma RunNeverStuck(ps: seq<Pool>, ops: seq<Op>, i: nat) returns (op: Op)
    requires Execution(ps, ops) && i <= |ops| && |ps[0].workers| > 0 && !Over(ps[i])
    ensures op != Interrupt && Enabled(ps[i], op)
  {
    hide Inv, Over, Enabled;
    RunKeeps(ps, ops, i);
    op := NeverStuck(ps[i]);
  }

  lemma InputFew(p: Pool)
    requires InputRight(p)
    ensures |p.input| <= |p.places| <= Total(p)
  {}

  /** How much there is still to do. */
  ghost function Remaining(p: Pool): int {
    6 * (Total(p) - |p.places|) + 5 * |p.input| + Weights(p.workers) + (|p.results| - p.collected) + (|p.workers| - p.joined)
  }

  lemma StepRemaining(p: Pool, op: Op)
    requires Inv(p) && Enabled(p, op)
    ensures Remaining(Do(p, op)) >= 0
    ensures if op == Interrupt then Remaining(Do(p, op)) == Remaining(p) else Remaining(Do(p, op)) < Remaining(p)
  {
    hide InputRight, WorkersRight, ResultsRight, Counted, TallyOf, JobAt;
    StepKeeps(p, op);
    RemainingMore(Do(p, op));
    match op {
      case Get(w) => CountsUpdate(p.workers, w, Checking(p.input[0]));
      case Check(w) => CheckRemaining(p, w);
      case Finish(w, code) => CountsUpdate(p.workers, w, Idle);
      case _ =>
    }
  }

  lemma RemainingMore(p: Pool)
    requires Inv(p)
    ensures Remaining(p) >= 0
  {
    hide WorkersRight, TallyOf, Counted;
  }

  lemma CheckRemaining(p: Pool, w: nat)
    requires Enabled(p, Check(w))
    ensures Remaining(Do(p, Check(w))) < Remaining(p)
  {
    var job := p.workers[w].job;
    CountsUpdate(p.workers, w, Gone(job.id));
    CountsUpdate(p.workers, w, Idle);
    CountsUpdate(p.workers, w, Running(job));
  }

  ghost function Steps(ops: seq<Op>, n: nat): nat
    requires n <= |ops|
  {
    if n == 0 then 0 else Steps(ops, n - 1) + if ops[n - 1] == Interrupt then 0 else 1
  }

  /** Every run ends: it has at most six steps for each job and one more for each worker. */
  lemma {:induction false} RunEnds(ps: seq<Pool>, ops: seq<Op>, i: nat)
    requires Execution(ps, ops) && i <= |ops|
    ensures Steps(ops, i) + Remaining(ps[i]) <= 6 * Total(ps[0]) + |ps[0].workers|
    ensures Remaining(ps[i]) >= 0
  {
    hide Do, Enabled, Inv;
    if i == 0 {
      StartRemaining(ps[0]);
    } else {
      RunEnds(ps, ops, i - 1);
      RunKeeps(ps, ops, i - 1);
      assert Enabled(ps[i - 1], ops[i - 1]) && ps[i] == Do(ps[i - 1], ops[i - 1]);
      StepRemaining(ps[i - 1], ops[i - 1]);
    }
  }

  lemma StartRemaining(p: Pool)
    requires Start(p)
    ensures Remaining(p) == 6 * Total(p) + |p.workers|
  {
    NoneBusy(p.workers);
  }

  // ----- The pool as it runs -----

  class Runner {
    const tests: seq<Test>
    var input: seq<Job>
    var workers: seq<Worker>
    var output: seq<Job>
    var tally: Tally
    var collected: nat
    var joined: nat
    var threadExit: bool

    // History: the jobs taken off the output queue, and where every job is.
    ghost var taken: seq<Job>
    ghost var places: seq<Place>

    ghost function State(): Pool
      reads this
    {
      Pool(tests, input, workers, taken + output, collected, tally, joined, threadExit, places)
    }

    ghost predicate Valid()
      reads this
    {
      Inv(State()) && |taken| == collected
    }

    constructor (tests: seq<Test>, processors: nat)
      ensures Start(State()) && Valid() && this.tests == tests && |workers| == processors && !threadExit
    {
      this.tests := tests;
      input, workers, output := [], seq(processors, _ => Idle), [];
      tally, collected, joined, threadExit := Tally(0, 0, 0, 0, 0, 0), 0, 0, false;
      taken, places := [], [];
      new;
      StartInv(State());
    }

    /** The main thread queues all tests, then a break for each worker. */
    method DispatchAll()
      requires Start(State())
      modifies this
      ensures Valid() && |places| == |tests| + |workers| && output == [] && workers == old(workers)
      ensures |input| == |tests| + |workers| && tally == old(tally) && collected == joined == 0 && threadExit == old(threadExit)
      ensures forall i :: 0 <= i < |input| ==> input[i] == JobAt(State(), i)
    {
      hide InputRight, WorkersRight, ResultsRight, Counted, MainRight;
      StartInv(State());
      var i := 0;
      while i < |tests| + |workers|
        invariant Valid() && i == |places| == |input| <= Total(State()) && output == [] && taken == [] && workers == old(workers)
        invariant tally == old(tally) && collected == joined == 0 && threadExit == old(threadExit)
      {
        StepKeeps(State(), Dispatch);
        input := input + [if i < |tests| then Job(i, false, tests[i].skip, 0) else Job(i, true, false, 0)];
        places := places + [Queued];
        i := i + 1;
      }
      AllQueued(State());
    }

    static lemma AllQueued(p: Pool)
      requires Inv(p) && |p.input| == |p.places|
      ensures forall i :: 0 <= i < |p.input| ==> p.input[i] == JobAt(p, i)
    {}

    /** The signal handler. */
    method HandleInterrupt()
      requires Valid()
      modifies this
      ensures Valid() && State() == Do(old(State()), Interrupt)
    {
      hide InputRight, WorkersRight, ResultsRight, Counted, MainRight;
      StepKeeps(State(), Interrupt);
      threadExit := true;
    }

    /** The main thread waits for one worker after the other. */
    method JoinWorker()
      requires Valid() && Enabled(State(), Join)
      modifies this
      ensures Valid() && State() == Do(old(State()), Join)
    {
      hide InputRight, WorkersRight, ResultsRight, Counted, MainRight;
      StepKeeps(State(), Join);
      joined := joined + 1;
    }

    method GetJob(w: nat)
      requires Valid() && Enabled(State(), Get(w))
      modifies this
      ensures Valid() && State() == Do(old(State()), Get(w))
    {
      hide InputRight, WorkersRight, ResultsRight, Counted, MainRight;
      StepKeeps(State(), Get(w));
      ghost var job := input[0];
      workers := workers[w := Checking(input[0])];
      input := input[1..];
      places := if job.id < |places| then places[job.id := With(w)] else places;
    }

    /** What a worker does with the job it got. */
    method CheckJob(w: nat)
      requires Valid() && Enabled(State(), Check(w))
      modifies this
      ensures Valid() && State() == Do(old(State()), Check(w))
    {
      hide InputRight, WorkersRight, ResultsRight, Counted, MainRight;
      StepKeeps(State(), Check(w));
      var job := workers[w].job;
      if job.isBreak {
        workers := workers[w := Gone(job.id)];
        places := places[job.id := Ended(w)];
      } else if threadExit {
        PutJob(w, job.(isBreak := true));
      } else if job.isSkip {
        PutJob(w, job);
      } else {
        workers := workers[w := Running(job)];
      }
    }

    method PutJob(w: nat, job: Job)
      requires w < |workers| && job.id < |places|
      modifies this
      ensures State() == Put(old(State()), w, job) && taken == old(taken) && collected == old(collected)
    {
      places := places[job.id := Out(|taken| + |output|)];
      assert taken + (output + [job]) == (taken + output) + [job];
      output := output + [job];
      workers := workers[w := Idle];
    }

    method FinishJob(w: nat, code: int)
      requires Valid() && Enabled(State(), Finish(w, code))
      modifies this
      ensures Valid() && State() == Do(old(State()), Finish(w, code))
    {
      hide InputRight, WorkersRight, ResultsRight, Counted, MainRight;
      StepKeeps(State(), Finish(w, code));
      PutJob(w, workers[w].job.(code := code));
    }

    method CollectJob()
      requires Valid() && Enabled(State(), Collect)
      modifies this
      ensures Valid() && State() == Do(old(State()), Collect)
    {
      hide Inv;
      StepKeeps(State(), Collect);
      var job := output[0];
      assert (taken + [job]) + output[1..] == taken + output;
      taken := taken + [job];
      output := output[1..];
      collected := collected + 1;
      if job.isBreak {
        tally := tally.(interrupted := tally.interrupted + 1);
        return;
      }
      if job.isSkip {
        tally := tally.(skipped := tally.skipped + 1);
      } else if job.code == 0 {
        tally := tally.(passed := tally.passed + 1);
      } else if job.code == 1 {
        tally := tally.(failed := tally.failed + 1);
      } else if job.code == 2 {
        tally := tally.(valgrind := tally.valgrind + 1);
      } else {
        tally := tally.(crashed := tally.crashed + 1);
      }
    }
  }
}
