/** What creating, ending, joining and detaching threads do to the records, said of the records alone. */
module ThreadSteps {
  import opened Basics
  import opened Threads
  import opened ThreadRuns

  // ----- One call -----

  ghost predicate HasTid(s: State, x: Serial, tid: nat) {
    x in s.threads && s.threads[x].tid == tid
  }

  ghost predicate NobodyHas(s: State, tid: nat) {
    forall x :: x in s.threads ==> s.threads[x].tid != tid
  }

  /** `tid` is the least id below 0xffff that no thread has. */
  ghost predicate LeastFree(s: State, tid: nat) {
    tid < 0xffff && NobodyHas(s, tid) && forall k: nat :: k < tid ==> !NobodyHas(s, k)
  }

  /** One new record with the least free id, running and joinable; or all ids are taken and the program stops. */
  ghost predicate CreatesAs(s: State, s': State) {
    || (s' == s.(fatal := true) && forall k: nat :: k < 0xffff ==> !NobodyHas(s, k))
    || (exists tid :: LeastFree(s, tid)
          && s.next !in s.threads && s' == s.(threads := s.threads[s.next := Rec(tid, false, false, 0, None)], next := s.next + 1))
  }

  lemma UsedMeans(s: State, tid: nat)
    ensures TidUsed(s.threads, tid) <==> !NobodyHas(s, tid)
  {}

  lemma CreateSays(s: State)
    requires Inv(s)
    ensures CreatesAs(s, Create(s))
  {
    hide LeastTid, TidUsed, NobodyHas, Waits, JoinsRight;
    TidIsLeast(s.threads, 0);
    forall k ensures TidUsed(s.threads, k) <==> !NobodyHas(s, k) {
      UsedMeans(s, k);
    }
    assert s.next !in s.threads;
    if LeastTid(s.threads, 0).Some? {
      assert LeastFree(s, LeastTid(s.threads, 0).value);
    }
  }

  /** The record goes if it is the last or detached; otherwise it keeps the value, and whoever waits for it can run. */
  ghost predicate ExitsAs(s: State, u: Serial, v: int, s': State) {
    && u in s.threads
    && var r := s.threads[u];
       if s.threads.Keys == {u} then
         s' == s.(threads := map[], joining := map[], blocked := {}, over := true)
       else if r.detached then
         s' == s.(threads := s.threads - {u}, exits := s.exits[u := v])
       else
         s' == s.(threads := s.threads[u := Rec(r.tid, false, true, v, r.joinWaiter)], exits := s.exits[u := v],
                  blocked := if r.joinWaiter.Some? then s.blocked - {r.joinWaiter.value} else s.blocked)
  }

  /** `u` looks at the record `x`: it takes the value and the record, or marks the record and sleeps. */
  ghost predicate CollectsAs(s: State, u: Serial, x: Serial, s': State, r: Result) {
    && x in s.threads
    && if s.threads[x].hasExit then
         && r == Value(s.threads[x].exitValue)
         && s' == s.(threads := s.threads - {x}, joining := s.joining - {u}, joins := s.joins + [Joined(x, u, s.threads[x].exitValue)])
       else
         && r == Blocks
         && s' == s.(threads := s.threads[x := s.threads[x].(joinWaiter := Some(u))], joining := s.joining[u := x], blocked := s.blocked + {u})
  }

  ghost predicate JoinsAs(s: State, u: Serial, tid: nat, s': State, r: Result) {
    if HasTid(s, u, tid) then r == Done(EDEADLK) && s' == s
    else if NobodyHas(s, tid) then r == Done(ESRCH) && s' == s
    else
      exists x :: HasTid(s, x, tid)
        && if s.threads[x].detached || s.threads[x].joinWaiter.Some? then r == Done(EINVAL) && s' == s
           else CollectsAs(s, u, x, s', r)
  }

  ghost predicate DetachesAs(s: State, tid: nat, s': State, r: Code) {
    if NobodyHas(s, tid) then r == ESRCH && s' == s
    else
      exists x :: HasTid(s, x, tid)
        && if s.threads[x].detached then r == EINVAL && s' == s
           else if s.threads[x].joinWaiter.Some? then r == OK && s' == s
           else r == OK && s' == s.(threads := s.threads[x := s.threads[x].(detached := true)])
  }

  /** In every run each call changes the records like this and answers this; no two records have one id. */
  lemma RunSteps(ss: seq<State>, ops: seq<Op>, i: nat)
    requires Execution(ss, ops) && i < |ops|
    ensures Enabled(ss[i], ops[i])
    ensures forall x, y {:trigger ss[i].threads[x].tid, ss[i].threads[y].tid} ::
              x in ss[i].threads && y in ss[i].threads && ss[i].threads[x].tid == ss[i].threads[y].tid ==> x == y
    ensures match ops[i]
            case CreateOp(_) => CreatesAs(ss[i], ss[i + 1])
            case ExitOp(u, v) => ExitsAs(ss[i], u, v, ss[i + 1])
            case JoinOp(u, tid) => JoinsAs(ss[i], u, tid, ss[i + 1], Join(ss[i], u, tid).1)
            case ResumeOp(u) => CollectsAs(ss[i], u, ss[i].joining[u], ss[i + 1], ResumeJoin(ss[i], u).1)
            case DetachOp(_, tid) => DetachesAs(ss[i], tid, ss[i + 1], Detach(ss[i], tid).1)
            case NudgeOp(u) => ss[i + 1] == ss[i].(blocked := ss[i].blocked - {u})
  {
    hide Waits, JoinsRight, CreatesAs, ExitsAs, JoinsAs, CollectsAs, DetachesAs, Create, Join, Exit, ResumeJoin, Detach;
    RunKeeps(ss, ops, i);
    assert Enabled(ss[i], ops[i]) && ss[i + 1] == Do(ss[i], ops[i]);
    match ops[i]
    case CreateOp(_) => CreateSays(ss[i]);
    case ExitOp(u, v) => ExitSays(ss[i], u, v);
    case JoinOp(u, tid) => JoinSays(ss[i], u, tid);
    case ResumeOp(u) => ResumeSays(ss[i], u);
    case DetachOp(_, tid) => DetachSays(ss[i], tid);
    case NudgeOp(u) =>
  }

  lemma ExitSays(s: State, u: Serial, v: int)
    requires Runs(s, u)
    ensures ExitsAs(s, u, v, Exit(s, u, v))
  {
    OnlyRecord(s.threads.Keys, u);
  }

  lemma JoinSays(s: State, u: Serial, tid: nat)
    requires Inv(s) && Enabled(s, JoinOp(u, tid))
    ensures JoinsAs(s, u, tid, Join(s, u, tid).0, Join(s, u, tid).1)
  {
    hide Waits, JoinsRight, Search;
    SearchFinds(s, tid);
    if Search(s, tid).Some? {
      assert HasTid(s, Search(s, tid).value, tid);
    }
    assert s.joining - {u} == s.joining;
  }

  lemma ResumeSays(s: State, u: Serial)
    requires Inv(s) && Enabled(s, ResumeOp(u))
    ensures CollectsAs(s, u, s.joining[u], ResumeJoin(s, u).0, ResumeJoin(s, u).1)
  {
    hide Records, JoinsRight;
    var x, s' := s.joining[u], ResumeJoin(s, u).0;
    assert s.threads[x].joinWaiter == Some(u);
    if s.threads[x].hasExit {
      assert s'.threads == s.threads - {x};
    } else {
      assert s'.threads == s.threads[x := s.threads[x].(joinWaiter := Some(u))];
    }
  }

  lemma DetachSays(s: State, tid: nat)
    requires Inv(s)
    ensures DetachesAs(s, tid, Detach(s, tid).0, Detach(s, tid).1)
  {
    hide Waits, JoinsRight, Search;
    SearchFinds(s, tid);
    if Search(s, tid).Some? {
      assert HasTid(s, Search(s, tid).value, tid);
    }
  }

  // ----- The values -----

  /** In every run the value on record of a thread is the argument of its one exit. */
  lemma {:induction false} RunExitValues(ss: seq<State>, ops: seq<Op>, i: nat, x: Serial)
    requires Execution(ss, ops) && i <= |ops|
    ensures x in ss[i].exits ==> exists j :: 0 <= j < i && ops[j] == ExitOp(x, ss[i].exits[x])
    ensures forall j :: 0 <= j < i && ops[j].ExitOp? && ops[j].u == x && !ss[j + 1].over ==> x in ss[i].exits && ss[i].exits[x] == ops[j].v
  {
    hide Waits, JoinsRight, Create, Join, ResumeJoin, Detach;
    if i > 0 {
      RunExitValues(ss, ops, i - 1, x);
      RunKeeps(ss, ops, i - 1);
      var s, s' := ss[i - 1], ss[i];
      assert Enabled(s, ops[i - 1]) && s' == Do(s, ops[i - 1]);
      if !ops[i - 1].ExitOp? {
        OtherExits(s, ops[i - 1]);
      } else {
        assert x in s.threads && !s.threads[x].hasExit ==> x !in s.exits;
        if ops[i - 1].u == x && x in s'.exits && !s'.over {
          assert ops[i - 1] == ExitOp(x, s'.exits[x]);
        }
      }
    }
  }

  lemma OtherExits(s: State, op: Op)
    requires Enabled(s, op) && !op.ExitOp?
    ensures Do(s, op).exits == s.exits
  {}

  /** A thread that is joined hands over the argument of its exit. */
  lemma RunJoinValues(ss: seq<State>, ops: seq<Op>, i: nat, a: nat)
    requires Execution(ss, ops) && i <= |ops| && a < |ss[i].joins|
    ensures exists j :: 0 <= j < i && ops[j] == ExitOp(ss[i].joins[a].target, ss[i].joins[a].value)
  {
    hide Do, Enabled;
    RunJoinsOnce(ss, ops, i, a, a);
    RunExitValues(ss, ops, i, ss[i].joins[a].target);
  }
}
