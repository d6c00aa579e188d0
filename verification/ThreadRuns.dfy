/**
 * What holds of threads in every run: a joiner gets a thread's value once, its record stays until
 * then, and every call answers as the records stand.
 */
module ThreadRuns {
  import opened Basics
  import opened Threads

  lemma SearchFinds(s: State, tid: nat)
    requires Records(s)
    ensures match Search(s, tid)
            case Some(x) => x in s.threads && s.threads[x].tid == tid
            case None => forall x :: x in s.threads ==> s.threads[x].tid != tid
  {}

  lemma CreateKeeps(s: State)
    requires Inv(s)
    ensures Inv(Create(s))
  {
    TidIsLeast(s.threads, 0);
    if LeastTid(s.threads, 0).Some? {
      AddKeeps(s, LeastTid(s.threads, 0).value);
    }
  }

  ghost function Add(s: State, tid: nat): State {
    s.(threads := s.threads[s.next := Rec(tid, false, false, 0, None)], next := s.next + 1)
  }

  lemma AddRecords(s: State, tid: nat)
    requires Records(s) && forall x :: x in s.threads ==> s.threads[x].tid != tid
    ensures Records(Add(s, tid))
  {}

  lemma AddWaits(s: State, tid: nat)
    requires Waits(s) && s.next !in s.threads
    ensures Waits(Add(s, tid))
  {}

  lemma AddKeeps(s: State, tid: nat)
    requires Inv(s) && !TidUsed(s.threads, tid)
    ensures Inv(Add(s, tid))
  {
    hide LeastTid, Waits;
    assert s.next !in s.threads;
    assert forall x :: x in s.threads ==> s.threads[x].tid != tid;
    AddRecords(s, tid);
    AddWaits(s, tid);
  }

  /** The record of a thread that ends is gone, or holds its value for the joiner, who is woken. */
  lemma GoneKeeps(s: State, u: Serial, v: int)
    requires Inv(s) && Runs(s, u) && u !in s.joining && s.threads[u].detached
    ensures Inv(s.(threads := s.threads - {u}, exits := s.exits[u := v]))
  {
    var s' := s.(threads := s.threads - {u}, exits := s.exits[u := v]);
    assert Records(s');
    assert Waits(s');
    assert JoinsRight(s');
  }

  ghost function Ended(s: State, u: Serial, v: int): State
    requires u in s.threads
  {
    Wakeup(s.(threads := s.threads[u := s.threads[u].(hasExit := true, exitValue := v)], exits := s.exits[u := v]),
           s.threads[u].joinWaiter)
  }

  lemma EndedRecords(s: State, u: Serial, v: int)
    requires Records(s) && u in s.threads
    ensures Records(Ended(s, u, v))
  {}

  lemma EndedWaits(s: State, u: Serial, v: int)
    requires Waits(s) && Runs(s, u) && u !in s.joining
    ensures Waits(Ended(s, u, v))
  {}

  lemma EndedJoins(s: State, u: Serial, v: int)
    requires JoinsRight(s) && u in s.threads
    ensures JoinsRight(Ended(s, u, v))
  {}

  lemma ExitKeeps(s: State, u: Serial, v: int)
    requires Inv(s) && Enabled(s, ExitOp(u, v))
    ensures Inv(Exit(s, u, v))
  {
    hide Records, Waits, JoinsRight;
    if |s.threads| == 1 {
      OverKeeps(s);
    } else if s.threads[u].detached {
      GoneKeeps(s, u, v);
    } else {
      EndedRecords(s, u, v);
      EndedWaits(s, u, v);
      EndedJoins(s, u, v);
    }
  }

  lemma OverKeeps(s: State)
    requires Inv(s)
    ensures Inv(s.(threads := map[], joining := map[], blocked := {}, over := true))
  {
    hide Waits;
    var s' := s.(threads := map[], joining := map[], blocked := {}, over := true);
    OverWaits(s');
  }

  lemma OverWaits(s: State)
    requires s.threads == map[] && s.joining == map[] && s.blocked == {}
    ensures Waits(s)
  {}

  lemma CollectRecords(s: State, u: Serial, x: Serial)
    requires Records(s) && x in s.threads
    ensures Records(Collect(s, u, x).0)
  {}

  lemma CollectWaits(s: State, u: Serial, x: Serial)
    requires Waits(s) && Runs(s, u) && u !in s.joining
    requires x in s.threads && x != u && s.threads[x].joinWaiter == None && !s.threads[x].detached
    ensures Waits(Collect(s, u, x).0)
  {
    var s' := Collect(s, u, x).0;
    if s.threads[x].hasExit {
      assert x !in s.joining;
      forall w | w in s.joining ensures s.joining[w] != x {
        assert s.threads[s.joining[w]].joinWaiter == Some(w);
      }
    }
  }

  lemma CollectJoins(s: State, u: Serial, x: Serial)
    requires JoinsRight(s) && Records(s) && x in s.threads
    ensures JoinsRight(Collect(s, u, x).0)
  {}

  /** `u` looks at the record `x` of another thread that nobody is joining. */
  lemma CollectKeeps(s: State, u: Serial, x: Serial)
    requires Inv(s) && Runs(s, u) && u !in s.joining
    requires x in s.threads && x != u && s.threads[x].joinWaiter == None && !s.threads[x].detached
    ensures Inv(Collect(s, u, x).0)
  {
    hide Records, Waits, JoinsRight, Collect;
    CollectRecords(s, u, x);
    CollectWaits(s, u, x);
    CollectJoins(s, u, x);
  }

  lemma JoinKeeps(s: State, u: Serial, tid: nat)
    requires Inv(s) && Enabled(s, JoinOp(u, tid))
    ensures Inv(Join(s, u, tid).0)
  {
    hide Collect;
    SearchFinds(s, tid);
    if Search(s, tid).Some? && s.threads[u].tid != tid {
      var x := Search(s, tid).value;
      if !s.threads[x].detached && s.threads[x].joinWaiter == None {
        CollectKeeps(s, u, x);
      }
    }
  }

  lemma ResumeKeeps(s: State, u: Serial)
    requires Inv(s) && Enabled(s, ResumeOp(u))
    ensures Inv(ResumeJoin(s, u).0)
  {
    hide Collect;
    var x := s.joining[u];
    var s1 := s.(threads := s.threads[x := s.threads[x].(joinWaiter := None)]);
    var s2 := s1.(joining := s1.joining - {u});
    assert s.threads[x].joinWaiter == Some(u);
    LeaveKeeps(s, u);
    CollectKeeps(s2, u, x);
    CollectSame(s1, u, x);
  }

  lemma LeaveKeeps(s: State, u: Serial)
    requires Inv(s) && u in s.joining && s.joining[u] in s.threads && u !in s.blocked
    ensures var x := s.joining[u];
            Inv(s.(threads := s.threads[x := s.threads[x].(joinWaiter := None)], joining := s.joining - {u}))
  {
    var x := s.joining[u];
    var s' := s.(threads := s.threads[x := s.threads[x].(joinWaiter := None)], joining := s.joining - {u});
    assert s.threads[x].joinWaiter == Some(u);
    assert Records(s');
    assert Waits(s');
    assert JoinsRight(s');
  }

  lemma CollectSame(s: State, u: Serial, x: Serial)
    requires x in s.threads
    ensures Collect(s.(joining := s.joining - {u}), u, x) == Collect(s, u, x)
  {
    var m: map<Serial, Serial> := s.joining - {u};
    assert m[u := x] == s.joining[u := x] && m - {u} == m;
  }

  lemma DetachKeeps(s: State, tid: nat)
    requires Inv(s)
    ensures Inv(Detach(s, tid).0)
  {
    hide Records, Waits, JoinsRight, Search;
    SearchFinds(s, tid);
    if Search(s, tid).Some? {
      var x := Search(s, tid).value;
      if s.threads[x].joinWaiter == None {
        LooseKeeps(s, x);
      }
    }
  }

  lemma LooseKeeps(s: State, x: Serial)
    requires Inv(s) && x in s.threads && s.threads[x].joinWaiter == None
    ensures Inv(s.(threads := s.threads[x := s.threads[x].(detached := true)]))
  {
    var s' := s.(threads := s.threads[x := s.threads[x].(detached := true)]);
    assert Records(s');
    assert Waits(s');
    assert JoinsRight(s');
  }

  lemma NudgeKeeps(s: State, u: Serial)
    requires Inv(s)
    ensures Inv(s.(blocked := s.blocked - {u}))
  {}

  lemma StepKeeps(s: State, op: Op)
    requires Inv(s) && Enabled(s, op)
    ensures Inv(Do(s, op))
  {
    hide Create, Exit, Join, ResumeJoin, Detach;
    match op
    case CreateOp(_) => CreateKeeps(s);
    case ExitOp(u, v) => ExitKeeps(s, u, v);
    case JoinOp(u, tid) => JoinKeeps(s, u, tid);
    case ResumeOp(u) => ResumeKeeps(s, u);
    case DetachOp(_, tid) => DetachKeeps(s, tid);
    case NudgeOp(u) => NudgeKeeps(s, u);
  }

  lemma {:induction false} RunKeeps(ss: seq<State>, ops: seq<Op>, i: nat)
    requires Execution(ss, ops) && i <= |ops|
    ensures Inv(ss[i])
  {
    hide Do, Enabled;
    if i > 0 {
      RunKeeps(ss, ops, i - 1);
      assert Enabled(ss[i - 1], ops[i - 1]) && ss[i] == Do(ss[i - 1], ops[i - 1]);
      StepKeeps(ss[i - 1], ops[i - 1]);
    }
  }

  // ----- What every run guarantees -----

  /** No record is handed over twice, and each join got the value its thread exited with. */
  lemma RunJoinsOnce(ss: seq<State>, ops: seq<Op>, i: nat, a: nat, b: nat)
    requires Execution(ss, ops) && i <= |ops| && a < |ss[i].joins| && b < |ss[i].joins|
    ensures var j := ss[i].joins[a]; j.target in ss[i].exits && ss[i].exits[j.target] == j.value
    ensures ss[i].joins[a].target == ss[i].joins[b].target ==> a == b
  {
    hide Do, Enabled, Records, Waits;
    RunKeeps(ss, ops, i);
  }

  /**
   * A record somebody waits on is live, joinable and nobody else's; a joiner still asleep waits
   * for a thread that has not ended, and is itself alive.
   */
  lemma RunJoinerSafe(ss: seq<State>, ops: seq<Op>, i: nat, u: Serial)
    requires Execution(ss, ops) && i <= |ops| && u in ss[i].joining
    ensures var s := ss[i];
            var x := s.joining[u];
            && u in s.threads && !s.threads[u].hasExit
            && x in s.threads && !s.threads[x].detached
            && (forall w :: w in s.joining && s.joining[w] == x ==> w == u)
            && (u in s.blocked ==> !s.threads[x].hasExit)
  {
    hide Do, Enabled, JoinsRight;
    RunKeeps(ss, ops, i);
    assert ss[i].threads[ss[i].joining[u]].joinWaiter == Some(u);
  }

  /** While a thread is inside a join, only that thread can make the record go away or end its own wait. */
  lemma RecordStays(s: State, op: Op, u: Serial)
    requires Inv(s) && Enabled(s, op) && u in s.joining && op != ResumeOp(u)
    ensures var s' := Do(s, op);
            !s'.over ==> u in s'.joining && s'.joining[u] == s.joining[u] && s.joining[u] in s'.threads
  {
    assert s.threads[s.joining[u]].joinWaiter == Some(u);
    match op
    case JoinOp(v, tid) => SearchFinds(s, tid);
    case DetachOp(_, tid) => SearchFinds(s, tid);
    case ResumeOp(v) => assert s.threads[s.joining[v]].joinWaiter == Some(v);
    case _ =>
  }

  lemma RunRecordStays(ss: seq<State>, ops: seq<Op>, i: nat, u: Serial)
    requires Execution(ss, ops) && i < |ops| && u in ss[i].joining && ops[i] != ResumeOp(u) && !ss[i + 1].over
    ensures u in ss[i + 1].joining && ss[i + 1].joining[u] == ss[i].joining[u] && ss[i].joining[u] in ss[i + 1].threads
  {
    hide Do, Enabled, Inv;
    RunKeeps(ss, ops, i);
    assert Enabled(ss[i], ops[i]) && ss[i + 1] == Do(ss[i], ops[i]);
    RecordStays(ss[i], ops[i], u);
  }

  /**
   * What a join answers at once: EDEADLK for the caller itself, ESRCH exactly when no thread has
   * the id, EINVAL exactly when the thread is detached or somebody is already joining it, its
   * exit value if it has ended, and otherwise the caller sleeps.
   */
  lemma RunJoinAnswers(ss: seq<State>, ops: seq<Op>, i: nat, u: Serial, tid: nat)
    requires Execution(ss, ops) && i < |ops| && ops[i] == JoinOp(u, tid) && Enabled(ss[i], ops[i])
    ensures var s, r := ss[i], Join(ss[i], u, tid).1;
            && (r == Done(EDEADLK) <==> s.threads[u].tid == tid)
            && (r == Done(ESRCH) <==> forall x :: x in s.threads ==> s.threads[x].tid != tid)
            && (forall x :: x in s.threads && s.threads[x].tid == tid && x != u ==>
                  && (r == Done(EINVAL) <==> s.threads[x].detached || exists w :: w in s.joining && s.joining[w] == x)
                  && (r.Value? ==> x in s.exits && r.value == s.exits[x] && x !in ss[i + 1].threads)
                  && (r.Blocks? ==> x !in s.exits && ss[i + 1].joining == s.joining[u := x]))
  {
    hide Do, Enabled, JoinsRight;
    RunKeeps(ss, ops, i);
    JoinAnswers(ss[i], u, tid);
    DoJoin(ss[i], u, tid);
    assert ss[i + 1] == Do(ss[i], ops[i]);
  }

  /**
   * What a joiner is told when it runs on: the value of the thread it waits for if that has ended,
   * and the record goes and the join is over; otherwise it sleeps again on the same record.
   */
  lemma RunJoinReturns(ss: seq<State>, ops: seq<Op>, i: nat, u: Serial)
    requires Execution(ss, ops) && i < |ops| && ops[i] == ResumeOp(u) && Enabled(ss[i], ops[i])
    ensures var s, s', x, r := ss[i], ss[i + 1], ss[i].joining[u], ResumeJoin(ss[i], u).1;
            && s' == ResumeJoin(s, u).0
            && (if x in s.exits then
                  r == Value(s.exits[x]) && s'.threads == s.threads - {x} && s'.joining == s.joining - {u}
                  && s'.joins == s.joins + [Joined(x, u, s.exits[x])]
                else
                  r == Blocks && s'.threads == s.threads && s'.joining == s.joining && u in s'.blocked)
  {
    hide JoinsRight;
    RunKeeps(ss, ops, i);
    var s := ss[i];
    var x := s.joining[u];
    assert Enabled(s, ops[i]) && ss[i + 1] == Do(s, ops[i]);
    assert s.threads[x].joinWaiter == Some(u);
    assert s.threads[x].hasExit <==> x in s.exits;
  }

  lemma DoJoin(s: State, u: Serial, tid: nat)
    requires Enabled(s, JoinOp(u, tid))
    ensures Do(s, JoinOp(u, tid)) == Join(s, u, tid).0 && u in s.threads
  {}

  lemma JoinAnswers(s: State, u: Serial, tid: nat)
    requires Inv(s) && Enabled(s, JoinOp(u, tid))
    ensures var r, s' := Join(s, u, tid).1, Join(s, u, tid).0;
            && (r == Done(EDEADLK) <==> s.threads[u].tid == tid)
            && (r == Done(ESRCH) <==> forall x :: x in s.threads ==> s.threads[x].tid != tid)
            && (forall x :: x in s.threads && s.threads[x].tid == tid && x != u ==>
                  && (r == Done(EINVAL) <==> s.threads[x].detached || exists w :: w in s.joining && s.joining[w] == x)
                  && (r.Value? ==> x in s.exits && r.value == s.exits[x] && x !in s'.threads)
                  && (r.Blocks? ==> x !in s.exits && s'.joining == s.joining[u := x]))
  {
    SearchFinds(s, tid);
    forall x | x in s.threads && s.threads[x].tid == tid && x != u
      ensures s.threads[x].joinWaiter.Some? <==> exists w :: w in s.joining && s.joining[w] == x
    {
      if s.threads[x].joinWaiter.Some? {
        assert s.threads[x].joinWaiter.value in s.joining;
      }
      if w :| w in s.joining && s.joining[w] == x {
        assert s.threads[s.joining[w]].joinWaiter == Some(w);
      }
    }
  }

  /**
   * Detaching fails with ESRCH exactly when no thread has the id and with EINVAL exactly when the
   * thread is detached already; it does nothing to a thread that somebody is joining.
   */
  lemma RunDetachAnswers(ss: seq<State>, ops: seq<Op>, i: nat, u: Serial, tid: nat)
    requires Execution(ss, ops) && i < |ops| && ops[i] == DetachOp(u, tid)
    ensures var s, s', r := ss[i], ss[i + 1], Detach(ss[i], tid).1;
            && (r == ESRCH <==> forall x :: x in s.threads ==> s.threads[x].tid != tid)
            && (forall x :: x in s.threads && s.threads[x].tid == tid ==>
                  && (r == EINVAL <==> s.threads[x].detached)
                  && s' == if r == OK && s.threads[x].joinWaiter == None
                           then s.(threads := s.threads[x := s.threads[x].(detached := true)]) else s)
            && r != EDEADLK
  {
    hide JoinsRight;
    RunKeeps(ss, ops, i);
    assert Enabled(ss[i], ops[i]) && ss[i + 1] == Do(ss[i], ops[i]);
    SearchFinds(ss[i], tid);
  }

  /**
   * A thread that ends is gone if it was detached; otherwise its record keeps the value and its
   * joiner, if any, can run.  With the last record the process is over.
   */
  lemma RunExitLeaves(ss: seq<State>, ops: seq<Op>, i: nat, u: Serial, v: int)
    requires Execution(ss, ops) && i < |ops| && ops[i] == ExitOp(u, v)
    ensures var s, s' := ss[i], ss[i + 1];
            && u in s.threads && !s.threads[u].hasExit
            && (s'.over <==> s.threads.Keys == {u})
            && (!s'.over && s.threads[u].detached ==> u !in s'.threads)
            && (!s'.over && !s.threads[u].detached ==>
                  && u in s'.threads && s'.threads[u].hasExit && s'.threads[u].exitValue == v
                  && forall w :: w in s'.joining && s'.joining[w] == u ==> w !in s'.blocked)
  {
    hide JoinsRight;
    RunKeeps(ss, ops, i);
    RunKeeps(ss, ops, i + 1);
    assert Enabled(ss[i], ops[i]) && ss[i + 1] == Do(ss[i], ops[i]);
    OnlyRecord(ss[i].threads.Keys, u);
    forall w | w in ss[i + 1].joining && ss[i + 1].joining[w] == u ensures ss[i + 1].threads[ss[i + 1].joining[w]].joinWaiter == Some(w) {}
  }

  lemma OnlyRecord(k: set<Serial>, u: Serial)
    requires u in k
    ensures |k| == 1 <==> k == {u}
  {
    assert k == {u} + (k - {u}) && |k| == 1 + |k - {u}|;
  }

  // ----- Records that nobody will ever delete -----

  /** The thread has ended and its record is detached: no join can take it away. */
  ghost predicate Lingers(s: State, x: Serial) {
    x in s.threads && s.threads[x].hasExit && s.threads[x].detached
  }

  /** A detach of a thread that has ended already. */
  ghost predicate DetachesEnded(s: State, op: Op, x: Serial) {
    && op.DetachOp? && x in s.threads && s.threads[x].tid == op.tid && s.threads[x].hasExit
    && !s.threads[x].detached && s.threads[x].joinWaiter == None
  }

  lemma StepLingers(s: State, op: Op, x: Serial)
    requires Inv(s) && Enabled(s, op)
    ensures Lingers(Do(s, op), x) <==> Lingers(s, x) || DetachesEnded(s, op, x)
    ensures Lingers(s, x) ==> Do(s, op).threads[x] == s.threads[x] && (!s.over ==> !Do(s, op).over)
  {
    hide Create, Join, ResumeJoin, Detach, Exit, Inv;
    match op
    case ExitOp(u, v) => ExitLingers(s, u, v, x);
    case CreateOp(_) => CreateLingers(s, x);
    case JoinOp(u, tid) => JoinLingers(s, u, tid, x);
    case ResumeOp(u) => ResumeLingers(s, u, x);
    case DetachOp(_, tid) => DetachLingers(s, tid, x);
    case NudgeOp(_) =>
  }

  lemma ExitLingers(s: State, u: Serial, v: int, x: Serial)
    requires Runs(s, u)
    ensures Lingers(Exit(s, u, v), x) <==> Lingers(s, x)
    ensures Lingers(s, x) ==> Exit(s, u, v).threads[x] == s.threads[x] && !Exit(s, u, v).over
  {
    OnlyRecord(s.threads.Keys, u);
  }

  lemma CreateLingers(s: State, x: Serial)
    requires Inv(s)
    ensures Lingers(Create(s), x) <==> Lingers(s, x)
    ensures Lingers(s, x) ==> Create(s).threads[x] == s.threads[x] && Create(s).over == s.over
  {
    hide Waits, JoinsRight, LeastTid;
  }

  lemma JoinLingers(s: State, u: Serial, tid: nat, x: Serial)
    requires Inv(s) && Runs(s, u)
    ensures Lingers(Join(s, u, tid).0, x) <==> Lingers(s, x)
    ensures Lingers(s, x) ==> Join(s, u, tid).0.threads[x] == s.threads[x] && Join(s, u, tid).0.over == s.over
  {
    hide Waits, JoinsRight, Search;
    SearchFinds(s, tid);
  }

  lemma ResumeLingers(s: State, u: Serial, x: Serial)
    requires Inv(s) && u in s.joining && s.joining[u] in s.threads
    ensures Lingers(ResumeJoin(s, u).0, x) <==> Lingers(s, x)
    ensures Lingers(s, x) ==> ResumeJoin(s, u).0.threads[x] == s.threads[x] && ResumeJoin(s, u).0.over == s.over
  {
    hide Records, JoinsRight;
    assert s.threads[s.joining[u]].joinWaiter == Some(u);
  }

  lemma DetachLingers(s: State, tid: nat, x: Serial)
    requires Inv(s)
    ensures var s' := Detach(s, tid).0;
            && (Lingers(s', x) <==>
                  Lingers(s, x)
                  || (x in s.threads && s.threads[x].tid == tid && s.threads[x].hasExit && !s.threads[x].detached && s.threads[x].joinWaiter == None))
            && (Lingers(s, x) ==> s'.threads[x] == s.threads[x]) && s'.over == s.over
  {
    hide Waits, JoinsRight, Search;
    SearchFinds(s, tid);
  }

  /** In every run an ended thread's record stays for ever exactly if it was detached after the end, with nobody joining. */
  lemma {:induction false} RunLingers(ss: seq<State>, ops: seq<Op>, i: nat, x: Serial)
    requires Execution(ss, ops) && i <= |ops|
    ensures Lingers(ss[i], x) <==> exists j :: 0 <= j < i && DetachesEnded(ss[j], ops[j], x)
  {
    hide Do, Enabled, Inv, Lingers, DetachesEnded;
    if i == 0 {
      NobodyLingers(x);
    } else {
      RunLingers(ss, ops, i - 1, x);
      RunKeeps(ss, ops, i - 1);
      assert Enabled(ss[i - 1], ops[i - 1]) && ss[i] == Do(ss[i - 1], ops[i - 1]);
      StepLingers(ss[i - 1], ops[i - 1], x);
    }
  }

  lemma NobodyLingers(x: Serial)
    ensures !Lingers(Initial, x)
  {}

  /**
   * From then on its id is never given out again and the process never ends by the exit of a thread,
   * not even of the last one that runs.
   */
  lemma {:induction false} RunNeverOver(ss: seq<State>, ops: seq<Op>, i: nat, j: nat, x: Serial)
    requires Execution(ss, ops) && i <= j <= |ops| && Lingers(ss[i], x)
    ensures Lingers(ss[j], x) && ss[j].threads[x].tid == ss[i].threads[x].tid
    ensures LeastTid(ss[j].threads, 0) != Some(ss[i].threads[x].tid)
    ensures !ss[j].over
    decreases j
  {
    hide Do, Enabled, Inv, LeastTid;
    TidIsLeast(ss[j].threads, 0);
    RunKeeps(ss, ops, j);
    if j > i {
      RunNeverOver(ss, ops, i, j - 1, x);
      RunKeeps(ss, ops, j - 1);
      assert Enabled(ss[j - 1], ops[j - 1]) && ss[j] == Do(ss[j - 1], ops[j - 1]);
      StepLingers(ss[j - 1], ops[j - 1], x);
    } else {
      RunOver(ss, ops, i);
    }
  }

  lemma OverEmpty(s: State, op: Op)
    requires Enabled(s, op) && (s.over ==> s.threads == map[])
    ensures Do(s, op).over ==> Do(s, op).threads == map[]
  {}

  lemma {:induction false} RunOver(ss: seq<State>, ops: seq<Op>, i: nat)
    requires Execution(ss, ops) && i <= |ops|
    ensures ss[i].over ==> ss[i].threads == map[]
  {
    hide Do, Enabled;
    if i > 0 {
      RunOver(ss, ops, i - 1);
      assert Enabled(ss[i - 1], ops[i - 1]) && ss[i] == Do(ss[i - 1], ops[i - 1]);
      OverEmpty(ss[i - 1], ops[i - 1]);
    }
  }

  const TWO: map<Serial, Rec> := map[0 := Rec(0, false, false, 0, None), 1 := Rec(1, false, false, 0, None)]
  const CREATED := State(TWO, 2, map[], {}, map[], [], false, false)
  const ENDED := CREATED.(threads := TWO[1 := Rec(1, false, true, 7, None)], exits := map[1 := 7])
  const DETACHED := ENDED.(threads := TWO[1 := Rec(1, true, true, 7, None)])
  const ALONE := DETACHED.(threads := DETACHED.threads[0 := Rec(0, false, true, 8, None)], exits := map[1 := 7, 0 := 8])

  lemma CreatesAndEnds()
    ensures Enabled(Initial, CreateOp(0)) && Do(Initial, CreateOp(0)) == CREATED
    ensures Enabled(CREATED, ExitOp(1, 7)) && Do(CREATED, ExitOp(1, 7)) == ENDED
  {
    FirstCreated();
    TwoRecords(TWO);
    assert Do(Initial, CreateOp(0)).threads == TWO;
  }

  lemma DetachesAndEnds()
    ensures Enabled(ENDED, DetachOp(0, 1)) && Do(ENDED, DetachOp(0, 1)) == DETACHED
    ensures Enabled(DETACHED, ExitOp(0, 8)) && Do(DETACHED, ExitOp(0, 8)) == ALONE
  {
    assert TidUsed(ENDED.threads, 1) by {
      assert ENDED.threads[1].tid == 1;
    }
    assert Do(ENDED, DetachOp(0, 1)).threads == DETACHED.threads;
    TwoRecords(DETACHED.threads);
  }

  /** Thread 1 ends, is detached, and then thread 0 ends: nobody runs any more and the process is not over. */
  lemma DetachedTooLate() returns (ss: seq<State>, ops: seq<Op>)
    ensures Execution(ss, ops) && ops == [CreateOp(0), ExitOp(1, 7), DetachOp(0, 1), ExitOp(0, 8)]
    ensures Lingers(ss[3], 1) && !ss[4].over && forall u :: !Runs(ss[4], u)
  {
    hide Do, Enabled;
    CreatesAndEnds();
    DetachesAndEnds();
    ss := [Initial, CREATED, ENDED, DETACHED, ALONE];
    ops := [CreateOp(0), ExitOp(1, 7), DetachOp(0, 1), ExitOp(0, 8)];
  }

  lemma FirstCreated()
    ensures LeastTid(Initial.threads, 0) == Some(1)
  {
    assert TidUsed(Initial.threads, 0) by {
      assert Initial.threads[0].tid == 0;
    }
    assert LeastTid(Initial.threads, 0) == LeastTid(Initial.threads, 1);
  }

  lemma TwoRecords(threads: map<Serial, Rec>)
    requires threads.Keys == {0, 1}
    ensures |threads| == 2
  {
    assert |threads| == |threads.Keys|;
  }
}
