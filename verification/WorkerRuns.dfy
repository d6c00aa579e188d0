/** What the worker pool's results and tallies say about what the workers did. */
module WorkerRuns {
  import opened WorkerPool

  // ----- Jobs are taken in order -----

  ghost function Gets(ops: seq<Op>, n: nat): nat
    requires n <= |ops|
  {
    if n == 0 then 0 else Gets(ops, n - 1) + if ops[n - 1].Get? then 1 else 0
  }

  ghost function Dispatches(ops: seq<Op>, n: nat): nat
    requires n <= |ops|
  {
    if n == 0 then 0 else Dispatches(ops, n - 1) + if ops[n - 1] == Dispatch then 1 else 0
  }

  /** Number `n` in the order of dispatch: the tests as given, then breaks. */
  ghost predicate Numbered(p: Pool, job: Job, n: nat) {
    job == if n < |p.tests| then Job(n, false, p.tests[n].skip, 0) else Job(n, true, false, 0)
  }

  lemma {:induction false} QueueSizes(ps: seq<Pool>, ops: seq<Op>, i: nat)
    requires Execution(ps, ops) && i <= |ops|
    ensures |ps[i].places| == Dispatches(ops, i) && |ps[i].places| == Gets(ops, i) + |ps[i].input|
  {
    if i > 0 {
      QueueSizes(ps, ops, i - 1);
      assert Enabled(ps[i - 1], ops[i - 1]) && ps[i] == Do(ps[i - 1], ops[i - 1]);
    }
  }

  /**
   * In every run the queue holds the jobs dispatched and not yet taken, in order: each `Get` of any
   * worker takes the next number and leaves the others alone.
   */
  lemma RunTakesInOrder(ps: seq<Pool>, ops: seq<Op>, i: nat)
    requires Execution(ps, ops) && i <= |ops|
    ensures |ps[i].input| == Dispatches(ops, i) - Gets(ops, i)
    ensures forall k :: 0 <= k < |ps[i].input| ==> Numbered(ps[i], ps[i].input[k], Gets(ops, i) + k)
    ensures i < |ops| && ops[i].Get? ==>
              && ops[i].w < |ps[i].workers| == |ps[i + 1].workers| && ps[i + 1].workers[ops[i].w].Checking?
              && Numbered(ps[i], ps[i + 1].workers[ops[i].w].job, Gets(ops, i))
              && forall v :: 0 <= v < |ps[i].workers| && v != ops[i].w ==> ps[i + 1].workers[v] == ps[i].workers[v]
  {
    hide WorkersRight, ResultsRight, Counted, MainRight, Dispatches, Gets;
    RunKeeps(ps, ops, i);
    QueueSizes(ps, ops, i);
    if i < |ops| {
      assert Enabled(ps[i], ops[i]) && ps[i + 1] == Do(ps[i], ops[i]);
    }
  }

  // ----- What a worker does with a job -----

  /** There was an interrupt, before the run or in it. */
  ghost predicate Interrupted(ps: seq<Pool>, ops: seq<Op>, i: nat)
    requires |ps| == |ops| + 1 && i <= |ops|
  {
    ps[0].threadExit || exists j :: 0 <= j < i && ops[j] == Interrupt
  }

  lemma {:induction false} RunInterrupts(ps: seq<Pool>, ops: seq<Op>, i: nat)
    requires Execution(ps, ops) && i <= |ops|
    ensures ps[i].threadExit <==> Interrupted(ps, ops, i)
  {
    if i > 0 {
      RunInterrupts(ps, ops, i - 1);
      assert Enabled(ps[i - 1], ops[i - 1]) && ps[i] == Do(ps[i - 1], ops[i - 1]);
    }
  }

  /**
   * A worker that looks at a job stops exactly on a break; on a test it goes idle again if there was
   * an interrupt or the test is to be skipped, and otherwise runs it.
   */
  lemma RunChecks(ps: seq<Pool>, ops: seq<Op>, i: nat)
    requires Execution(ps, ops) && i < |ops| && ops[i].Check?
    ensures var p, p', w := ps[i], ps[i + 1], ops[i].w;
            && w < |p.workers| == |p'.workers| && p.workers[w].Checking?
            && var job := p.workers[w].job;
               && Numbered(p, job, job.id)
               && (p'.workers[w] == Gone(job.id) <==> job.id >= |p.tests|)
               && (p'.workers[w] == Idle <==> job.id < |p.tests| && (Interrupted(ps, ops, i) || p.tests[job.id].skip))
               && (p'.workers[w] == Running(job) <==> job.id < |p.tests| && !Interrupted(ps, ops, i) && !p.tests[job.id].skip)
               && forall v :: 0 <= v < |p.workers| && v != w ==> p'.workers[v] == p.workers[v]
  {
    hide InputRight, ResultsRight, Counted, MainRight, Interrupted;
    RunKeeps(ps, ops, i);
    RunInterrupts(ps, ops, i);
    assert Enabled(ps[i], ops[i]) && ps[i + 1] == Do(ps[i], ops[i]);
    HeldJob(ps[i], ops[i].w);
  }

  // ----- Where each result comes from -----

  /** The operation puts `job` on the output queue: run with this code, skipped, or marked after an interrupt. */
  ghost predicate Puts(p: Pool, op: Op, job: Job) {
    match op
    case Finish(w, code) => w < |p.workers| && p.workers[w] == Running(Job(job.id, false, false, 0)) && job == Job(job.id, false, false, code)
    case Check(w) =>
      && w < |p.workers| && job.id < |p.tests| && p.workers[w] == Checking(Job(job.id, false, p.tests[job.id].skip, 0))
      && (if p.threadExit then job == Job(job.id, true, p.tests[job.id].skip, 0)
          else p.tests[job.id].skip && job == Job(job.id, false, true, 0))
    case _ => false
  }

  lemma StepPuts(p: Pool, op: Op)
    requires Inv(p) && Enabled(p, op)
    ensures forall job :: Puts(p, op, job) ==> Do(p, op).results == p.results + [job]
    ensures Do(p, op).results == p.results
            || (|Do(p, op).results| == |p.results| + 1 && Do(p, op).results[..|p.results|] == p.results
                && Puts(p, op, Do(p, op).results[|p.results|]))
  {
    hide InputRight, ResultsRight, Counted, MainRight;
    match op
    case Check(w) => HeldJob(p, w);
    case Finish(w, code) => HeldJob(p, w);
    case _ =>
  }

  /** Operation `j` of the run put result number `k` where it is. */
  ghost predicate PutAt(ps: seq<Pool>, ops: seq<Op>, i: nat, j: nat, k: nat)
    requires |ps| == |ops| + 1 && i <= |ops| && k < |ps[i].results|
  {
    j < i && |ps[j].results| == k && Puts(ps[j], ops[j], ps[i].results[k])
  }

  /** Every result was put there by one operation, with what the run of the test returned, or skipped, or marked. */
  lemma {:induction false} RunOutcomes(ps: seq<Pool>, ops: seq<Op>, i: nat, k: nat)
    requires Execution(ps, ops) && i <= |ops| && k < |ps[i].results|
    ensures exists j: nat :: PutAt(ps, ops, i, j, k)
  {
    hide Do, Enabled, Inv, Puts;
    if i > 0 {
      RunKeeps(ps, ops, i - 1);
      assert Enabled(ps[i - 1], ops[i - 1]) && ps[i] == Do(ps[i - 1], ops[i - 1]);
      StepPuts(ps[i - 1], ops[i - 1]);
      if k < |ps[i - 1].results| {
        RunOutcomes(ps, ops, i - 1, k);
        var j: nat :| PutAt(ps, ops, i - 1, j, k);
        assert ps[i].results[k] == ps[i].results[..|ps[i - 1].results|][k];
        assert PutAt(ps, ops, i, j, k);
      } else {
        assert PutAt(ps, ops, i, i - 1, k);
      }
    }
  }

  lemma {:induction false} ResultsStay(ps: seq<Pool>, ops: seq<Op>, j: nat, i: nat)
    requires Execution(ps, ops) && j <= i <= |ops|
    ensures |ps[j].results| <= |ps[i].results| && ps[i].results[..|ps[j].results|] == ps[j].results
    decreases i
  {
    hide Do, Enabled, Inv, Puts;
    if j < i {
      ResultsStay(ps, ops, j, i - 1);
      RunKeeps(ps, ops, i - 1);
      assert Enabled(ps[i - 1], ops[i - 1]) && ps[i] == Do(ps[i - 1], ops[i - 1]);
      StepPuts(ps[i - 1], ops[i - 1]);
      assert ps[i].results[..|ps[i - 1].results|][..|ps[j].results|] == ps[i].results[..|ps[j].results|];
    }
  }

  // ----- What the tallies and the verdict mean -----

  datatype Outcome = Passed | Failed | Skipped | Valgrind | Crashed | Broken

  /** How a result counts: a mark of an interrupt comes first, then that it was skipped, then the code. */
  ghost predicate Is(job: Job, o: Outcome) {
    match o
    case Broken => job.isBreak
    case Skipped => !job.isBreak && job.isSkip
    case Passed => !job.isBreak && !job.isSkip && job.code == 0
    case Failed => !job.isBreak && !job.isSkip && job.code == 1
    case Valgrind => !job.isBreak && !job.isSkip && job.code == 2
    case Crashed => !job.isBreak && !job.isSkip && !(0 <= job.code <= 2)
  }

  ghost function Those(results: seq<Job>, n: nat, o: Outcome): set<nat>
    requires n <= |results|
  {
    set k: nat | k < n && Is(results[k], o)
  }

  function NumberOf(t: Tally, o: Outcome): nat {
    match o
    case Broken => t.interrupted
    case Skipped => t.skipped
    case Passed => t.passed
    case Failed => t.failed
    case Valgrind => t.valgrind
    case Crashed => t.crashed
  }

  lemma OneMore(a: set<nat>, b: set<nat>, x: nat, more: bool)
    requires x !in a && forall k: nat :: k in b <==> k in a || (more && k == x)
    ensures |b| == |a| + if more then 1 else 0
  {
    assert b == if more then a + {x} else a;
  }

  lemma ThoseGrow(results: seq<Job>, n: nat, o: Outcome)
    requires n < |results|
    ensures |Those(results, n + 1, o)| == |Those(results, n, o)| + if Is(results[n], o) then 1 else 0
  {
    hide Is;
    OneMore(Those(results, n, o), Those(results, n + 1, o), n, Is(results[n], o));
  }

  lemma {:induction false} TallyCounts(results: seq<Job>, n: nat, o: Outcome)
    requires n <= |results|
    ensures NumberOf(TallyOf(results, n), o) == |Those(results, n, o)|
  {
    if n == 0 {
      assert Those(results, 0, o) == {};
    } else {
      TallyCounts(results, n - 1, o);
      ThoseGrow(results, n - 1, o);
    }
  }

  /** In every run each tally is the number of collected results of its sort. */
  lemma RunTalliesEach(ps: seq<Pool>, ops: seq<Op>, i: nat, o: Outcome)
    requires Execution(ps, ops) && i <= |ops|
    ensures ps[i].collected <= |ps[i].results| && NumberOf(ps[i].tally, o) == |Those(ps[i].results, ps[i].collected, o)|
  {
    hide InputRight, WorkersRight, Counted, TallyOf, NumberOf, Those;
    RunKeeps(ps, ops, i);
    TallyCounts(ps[i].results, ps[i].collected, o);
  }

  /** The operation is the end of a run of test `id` that returned 0, or it is passed on to be skipped, with no interrupt so far. */
  ghost predicate EndsWell(p: Pool, op: Op, id: nat) {
    match op
    case Finish(w, code) => code == 0 && w < |p.workers| && p.workers[w] == Running(Job(id, false, false, 0))
    case Check(w) =>
      !p.threadExit && id < |p.tests| && p.tests[id].skip && w < |p.workers| && p.workers[w] == Checking(Job(id, false, true, 0))
    case _ => false
  }

  ghost predicate EndedWell(ps: seq<Pool>, ops: seq<Op>, i: nat, id: nat)
    requires |ps| == |ops| + 1 && i <= |ops|
  {
    exists j: nat :: j < i && EndsWell(ps[j], ops[j], id)
  }

  lemma WellPuts(p: Pool, op: Op, id: nat) returns (job: Job)
    requires EndsWell(p, op, id)
    ensures job.id == id && Fine(job) && Puts(p, op, job)
  {
    job := Job(id, false, op.Check?, 0);
  }

  lemma PutsWell(p: Pool, op: Op, job: Job)
    requires Puts(p, op, job) && Fine(job)
    ensures EndsWell(p, op, job.id)
  {}

  /** The runner's verdict is 0 exactly if every test was run and returned 0, or was skipped, before any interrupt. */
  lemma RunVerdictMeans(ps: seq<Pool>, ops: seq<Op>, i: nat)
    requires Execution(ps, ops) && i <= |ops| && Over(ps[i])
    ensures Verdict(ps[i]) == 0 <==> forall id: nat :: id < |ps[i].tests| ==> EndedWell(ps, ops, i, id)
  {
    hide Do, Enabled, Start, EndsWell, Fine, Over, Verdict, WentWell, Puts, EndedWell;
    RunVerdict(ps, ops, i);
    forall id: nat | id < |ps[i].tests| ensures EndedWell(ps, ops, i, id) <==> WentWell(ps[i], id) {
      if EndedWell(ps, ops, i, id) {
        EndedWent(ps, ops, i, id);
      }
      if WentWell(ps[i], id) {
        WentEnded(ps, ops, i, id);
      }
    }
  }

  lemma EndedWent(ps: seq<Pool>, ops: seq<Op>, i: nat, id: nat)
    requires Execution(ps, ops) && i <= |ops| && Over(ps[i]) && EndedWell(ps, ops, i, id) && id < |ps[i].tests|
    ensures WentWell(ps[i], id)
  {
    hide Do, Enabled, Inv, Puts, EndsWell, Fine, Over;
    var j: nat :| j < i && EndsWell(ps[j], ops[j], id);
    RunKeeps(ps, ops, j);
    RunKeeps(ps, ops, i);
    var job := WellPuts(ps[j], ops[j], id);
    StepPuts(ps[j], ops[j]);
    assert ps[j + 1] == Do(ps[j], ops[j]);
    ResultsStay(ps, ops, j + 1, i);
    var k := |ps[j].results|;
    assert ps[i].results[k] == ps[i].results[..|ps[j + 1].results|][k] == job;
    OverPlaces(ps[i], id);
    assert OutOnce(ps[i], id, k);
  }

  lemma WentEnded(ps: seq<Pool>, ops: seq<Op>, i: nat, id: nat)
    requires Execution(ps, ops) && i <= |ops| && WentWell(ps[i], id)
    ensures EndedWell(ps, ops, i, id)
  {
    hide Do, Enabled, Puts, EndsWell, Fine;
    var k: nat :| k < |ps[i].results| && OutOnce(ps[i], id, k) && Fine(ps[i].results[k]);
    RunOutcomes(ps, ops, i, k);
    var j: nat :| PutAt(ps, ops, i, j, k);
    PutsWell(ps[j], ops[j], ps[i].results[k]);
  }
}
