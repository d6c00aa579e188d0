/** The guarantees of condition variables: their lists, signals and broadcasts. */
module SyncSignals {
  import opened Basics
  import opened Sync
  import opened SyncRuns
  import opened SyncTheorems

  // ----- Signals -----

  /** Every list of a condition variable is first in, first out: who joined is who was taken off, then who is still on. */
  lemma RunFifo(ss: seq<State>, ops: seq<Op>, i: nat, cid: Cid)
    requires Execution(ss, ops) && i <= |ops| && cid in ss[i].conds
    ensures ss[i].conds[cid].arrived == ss[i].conds[cid].woken + ss[i].conds[cid].waiting
  {
    hide Do, Enabled, Locks, Balanced, FreshIds, Calls;
    RunKeeps(ss, ops, i);
  }

  /** `k` signals one after the other. */
  ghost function Signals(s: State, cid: Cid, k: nat): State
    requires cid in s.conds
    ensures cid in Signals(s, cid, k).conds
  {
    if k == 0 then s else WakeFirst(Signals(s, cid, k - 1), cid)
  }

  function Min(a: nat, b: nat): nat {
    if a < b then a else b
  }

  ghost function Members(w: seq<Tid>): set<Tid> {
    set t | t in w
  }

  /** From `s` to `s'` the first `n` threads of the list were woken, in order, and nothing else happened. */
  ghost predicate WokeFirst(s: State, s': State, cid: Cid, n: nat)
    requires cid in s.conds && n <= |s.conds[cid].waiting|
  {
    var c := s.conds[cid];
    && s'.conds == s.conds[cid := Cond(c.waiting[n..], c.arrived, c.woken + c.waiting[..n])]
    && s'.blocked == s.blocked - Members(c.waiting[..n])
    && s' == s.(conds := s'.conds, blocked := s'.blocked)
  }

  /** They wake the first k threads of the list, or all of them, and nobody else. */
  lemma {:induction false} SignalsWakeFirst(s: State, cid: Cid, k: nat)
    requires cid in s.conds
    ensures WokeFirst(s, Signals(s, cid, k), cid, Min(k, |s.conds[cid].waiting|))
  {
    hide WakeFirst, WokeFirst;
    if k == 0 {
      WokeNone(s, cid);
    } else {
      SignalsWakeFirst(s, cid, k - 1);
      WakeNext(s, Signals(s, cid, k - 1), cid, Min(k - 1, |s.conds[cid].waiting|));
    }
  }

  lemma WokeNone(s: State, cid: Cid)
    requires cid in s.conds
    ensures WokeFirst(s, s, cid, 0)
  {
    var c := s.conds[cid];
    assert c.waiting[..0] == [] && c.woken + [] == c.woken;
  }

  lemma WakeNext(s: State, s1: State, cid: Cid, n: nat)
    requires cid in s.conds && cid in s1.conds && n <= |s.conds[cid].waiting| && WokeFirst(s, s1, cid, n)
    ensures WokeFirst(s, WakeFirst(s1, cid), cid, Min(n + 1, |s.conds[cid].waiting|))
  {
    var c := s.conds[cid];
    var w := c.waiting;
    if n < |w| {
      assert w[n..][0] == w[n] && w[n..][1..] == w[n + 1..];
      assert w[..n + 1] == w[..n] + [w[n]];
      assert c.woken + w[..n + 1] == (c.woken + w[..n]) + [w[n]];
    }
  }

  /** A broadcast does what as many signals as there are threads would do. */
  lemma BroadcastIsSignals(s: State, cid: Cid)
    requires cid in s.conds
    ensures WakeAll(s, cid) == Signals(s, cid, |s.conds[cid].waiting|)
  {
    var w := s.conds[cid].waiting;
    SignalsWakeFirst(s, cid, |w|);
    assert w[..|w|] == w && w[|w|..] == [];
  }

  // ----- The lists and the sleepers -----

  /** A timeout, or a wakeup for no reason, of a thread that sleeps on a condition variable. */
  ghost predicate Disturbs(s: State, op: Op) {
    op.ExpireOp? || (op.NudgeOp? && PcOf(s, op.t).Sleeping?)
  }

  ghost predicate AsleepOn(s: State, t: Tid, cid: Cid) {
    PcOf(s, t).Sleeping? && PcOf(s, t).call.cid == cid && t in s.blocked
  }

  /** The lists hold exactly the threads that are asleep. */
  ghost predicate Queues(s: State) {
    && (forall cid :: cid in s.conds ==> NoDup(s.conds[cid].waiting))
    && (forall cid, t {:trigger AsleepOn(s, t, cid)} :: AsleepOn(s, t, cid) <==> cid in s.conds && t in s.conds[cid].waiting)
  }

  lemma QueuesKept(s: State, s': State)
    requires Queues(s) && s'.conds == s.conds
    requires forall cid, t {:trigger AsleepOn(s', t, cid)} :: AsleepOn(s', t, cid) <==> AsleepOn(s, t, cid)
    ensures Queues(s')
  {
    hide AsleepOn;
  }

  lemma WakesMutexWaiter(s: State, t: Tid, a: Addr)
    requires Inv(s) && Mapped(s, a)
    ensures var s' := Unlock(s, t, a).0;
            forall cid, u {:trigger AsleepOn(s', u, cid)} :: AsleepOn(s', u, cid) <==> AsleepOn(s, u, cid)
  {
    hide FreshIds, Balanced, InOrder, Calls;
    NextMidFresh(s);
    var (s1, found) := Search(s, a);
    SamePlaces(s, Unlock(s, t, a).0);
    if found.Some? && found.value in s.mutexes {
      var m := s.mutexes[found.value];
      assert Good(s, found.value);
      if m.waiting != [] {
        assert m.waiting[0] in m.waiting && RetryingOn(s, m.waiting[0], found.value);
      }
    }
  }

  lemma LockMutexPlaces(s: State, t: Tid, mid: Mid, why: Why)
    requires mid in s.mutexes && Free(s, t)
    ensures var s' := LockMutex(s, t, mid, why).0;
            && s'.conds == s.conds
            && forall cid, u {:trigger AsleepOn(s', u, cid)} :: AsleepOn(s', u, cid) <==> AsleepOn(s, u, cid)
  {}

  lemma LockPlaces(s: State, t: Tid, a: Addr, why: Why)
    requires Mapped(s, a) && Free(s, t)
    ensures var s' := Lock(s, t, a, why).0;
            && s'.conds == s.conds
            && forall cid, u {:trigger AsleepOn(s', u, cid)} :: AsleepOn(s', u, cid) <==> AsleepOn(s, u, cid)
  {
    hide LockMutex;
    var (s1, found) := Search(s, a);
    SamePlaces(s, s1);
    if found.Some? {
      LockMutexPlaces(s1, t, found.value, why);
    }
  }

  lemma RetryPlaces(s: State, t: Tid, mid: Mid, why: Why)
    requires mid in s.mutexes && t !in s.blocked && PcOf(s, t).Locking?
    ensures var s' := Retry(s, t, mid, why).0;
            && s'.conds == s.conds
            && forall cid, u {:trigger AsleepOn(s', u, cid)} :: AsleepOn(s', u, cid) <==> AsleepOn(s, u, cid)
  {}

  lemma SleepQueues(s: State, t: Tid, call: Call)
    requires Queues(s) && call.cid in s.conds && t !in s.blocked
    ensures Queues(Sleep(s, t, call))
  {
    var s' := Sleep(s, t, call);
    assert !AsleepOn(s, t, call.cid);
    NoDupAppend(s.conds[call.cid].waiting, t);
    forall cid, u {:trigger AsleepOn(s', u, cid)} ensures AsleepOn(s', u, cid) <==> cid in s'.conds && u in s'.conds[cid].waiting {
      assert AsleepOn(s, u, cid) <==> cid in s.conds && u in s.conds[cid].waiting;
    }
  }

  lemma WakeFirstQueues(s: State, cid: Cid)
    requires Queues(s) && cid in s.conds
    ensures Queues(WakeFirst(s, cid))
  {
    var s', w := WakeFirst(s, cid), s.conds[cid].waiting;
    SamePlaces(s, s');
    if w != [] {
      assert w == [w[0]] + w[1..] && w[0] !in w[1..];
      assert AsleepOn(s, w[0], cid);
      forall d, u {:trigger AsleepOn(s', u, d)} ensures AsleepOn(s', u, d) <==> d in s'.conds && u in s'.conds[d].waiting {
        assert AsleepOn(s, u, d) <==> d in s.conds && u in s.conds[d].waiting;
      }
    }
  }

  lemma WakeAllQueues(s: State, cid: Cid)
    requires Queues(s) && cid in s.conds
    ensures Queues(WakeAll(s, cid))
  {
    var s', w := WakeAll(s, cid), s.conds[cid].waiting;
    SamePlaces(s, s');
    forall d, u {:trigger AsleepOn(s', u, d)} ensures AsleepOn(s', u, d) <==> d in s'.conds && u in s'.conds[d].waiting {
      assert AsleepOn(s, u, d) <==> d in s.conds && u in s.conds[d].waiting;
      assert AsleepOn(s, u, cid) <==> u in w;
    }
  }

  lemma NewCondQueues(s: State, c: Addr)
    requires Queues(s) && InOrder(s)
    ensures Queues(NewCond(s, c))
  {
    var s' := NewCond(s, c);
    SamePlaces(s, s');
    forall d, u {:trigger AsleepOn(s', u, d)} ensures AsleepOn(s', u, d) <==> d in s'.conds && u in s'.conds[d].waiting {
      assert AsleepOn(s, u, d) <==> d in s.conds && u in s.conds[d].waiting;
    }
  }

  lemma SearchCondQueues(s: State, c: Addr)
    requires Queues(s) && InOrder(s) && CondMapped(s, c)
    ensures Queues(SearchCond(s, c).0)
  {
    hide Queues, NewCond, InOrder;
    if c != 0 && s.cwords[c] == 0 {
      NewCondQueues(s, c);
    }
  }

  lemma WaitQueues(s: State, t: Tid, c: Addr, a: Addr, timed: bool)
    requires Inv(s) && Queues(s) && Ready(s, t) && CondMapped(s, c) && Mapped(s, a)
    ensures Queues(Wait(s, t, c, a, timed).0)
  {
    hide Inv, Queues, Unlock, SearchCond, Search, Sleep, AsleepOn;
    InvOrder(s);
    SearchCondKeeps(s, c);
    SearchCondQueues(s, c);
    var (s1, found) := SearchCond(s, c);
    if found.Some? {
      UnlockPlaces(s1, t, a);
      WakesMutexWaiter(s1, t, a);
      var s2 := Unlock(s1, t, a).0;
      QueuesKept(s1, s2);
      var mid := match Search(s1, a).1 case None => 0 case Some(mid) => mid;
      var call := Call(found.value, a, mid, Holds(s1, t, mid), timed, false);
      if Unlock(s1, t, a).2 {
        IdlePlaces(s2, t, Releasing(call));
        QueuesKept(s2, SetPc(s2, t, Releasing(call)));
      } else {
        SleepQueues(s2, t, call);
      }
    }
  }

  lemma InvOrder(s: State)
    requires Inv(s)
    ensures InOrder(s)
  {}

  lemma IdlePlaces(s: State, t: Tid, pc: Pc)
    requires t !in s.blocked
    ensures var s' := SetPc(s, t, pc);
            forall cid, u {:trigger AsleepOn(s', u, cid)} :: AsleepOn(s', u, cid) <==> AsleepOn(s, u, cid)
  {}

  lemma StepQueues(s: State, op: Op)
    requires Inv(s) && Queues(s) && Enabled(s, op)
    ensures Queues(Do(s, op)) <==> !Disturbs(s, op)
  {
    hide Inv, Queues, Lock, TryLock, Unlock, Destroy, Wait, Sleep, SearchCond, NewCond, WakeFirst, WakeAll, NewMutex, AsleepOn, Retry;
    InvOrder(s);
    match op {
    case Poke(a, w) => OtherPlaces(s, Do(s, op));
    case PokeCond(c, id) => OtherPlaces(s, Do(s, op));
    case InitOp(a, attr) => NewPlaces(s, a, attr);
    case DestroyOp(a) => DestroyPlaces(s, a);
    case LockOp(t, a) =>
      LockPlaces(s, t, a, ToLock);
      QueuesKept(s, Do(s, op));
    case TryOp(t, a) => TryPlaces(s, t, a);
    case UnlockOp(t, a) =>
      UnlockPlaces(s, t, a);
      WakesMutexWaiter(s, t, a);
      QueuesKept(s, Do(s, op));
    case WaitOp(t, c, a, timed) => WaitQueues(s, t, c, a, timed);
    case InitCondOp(c) =>
      if c != 0 {
        NewCondQueues(s, c);
      }
    case SignalOp(c) =>
      SearchCondKeeps(s, c);
      SearchCondQueues(s, c);
      if SearchCond(s, c).1.Some? {
        WakeFirstQueues(SearchCond(s, c).0, SearchCond(s, c).1.value);
      }
    case BroadcastOp(c) =>
      SearchCondKeeps(s, c);
      SearchCondQueues(s, c);
      if SearchCond(s, c).1.Some? {
        WakeAllQueues(SearchCond(s, c).0, SearchCond(s, c).1.value);
      }
    case ResumeOp(t) =>
      match PcOf(s, t) {
        case Idle =>
        case Locking(mid, why) =>
          RetryPlaces(s, t, mid, why);
          QueuesKept(s, Do(s, op));
        case Releasing(call) => SleepQueues(s, t, call);
        case Sleeping(call) =>
          LockPlaces(s, t, call.addr, ToRelock(call));
          QueuesKept(s, Do(s, op));
      }
    case NudgeOp(t) => NudgePlaces(s, t);
    case ExpireOp(t) => ExpirePlaces(s, t);
    }
  }

  lemma NudgePlaces(s: State, t: Tid)
    requires Queues(s) && t in s.blocked
    ensures Queues(Do(s, NudgeOp(t))) <==> !PcOf(s, t).Sleeping?
  {
    var s' := Do(s, NudgeOp(t));
    SamePlaces(s, s');
    if PcOf(s, t).Sleeping? {
      assert AsleepOn(s, t, PcOf(s, t).call.cid) && !AsleepOn(s', t, PcOf(s, t).call.cid);
    } else {
      forall cid, u {:trigger AsleepOn(s', u, cid)} ensures AsleepOn(s', u, cid) <==> AsleepOn(s, u, cid) {}
      QueuesKept(s, s');
    }
  }

  lemma ExpirePlaces(s: State, t: Tid)
    requires Queues(s) && Enabled(s, ExpireOp(t))
    ensures !Queues(Do(s, ExpireOp(t)))
  {
    var cid := PcOf(s, t).call.cid;
    assert AsleepOn(s, t, cid) && !AsleepOn(Do(s, ExpireOp(t)), t, cid);
  }

  lemma OtherPlaces(s: State, s': State)
    requires Queues(s) && s'.conds == s.conds && s'.pcs == s.pcs && s'.blocked == s.blocked
    ensures Queues(s')
  {
    SamePlaces(s, s');
    forall cid, u {:trigger AsleepOn(s', u, cid)} ensures AsleepOn(s', u, cid) <==> AsleepOn(s, u, cid) {}
    QueuesKept(s, s');
  }

  lemma NewPlaces(s: State, a: Addr, attr: Option<nat>)
    requires Queues(s) && Mapped(s, a)
    ensures Queues(Init(s, a, attr).0)
  {
    hide Queues;
    OtherPlaces(s, Init(s, a, attr).0);
  }

  lemma DestroyPlaces(s: State, a: Addr)
    requires Queues(s) && Mapped(s, a)
    ensures Queues(Destroy(s, a).0)
  {
    hide Queues;
    OtherPlaces(s, Destroy(s, a).0);
  }

  lemma TryPlaces(s: State, t: Tid, a: Addr)
    requires Queues(s) && Mapped(s, a)
    ensures Queues(TryLock(s, t, a).0)
  {
    hide Queues;
    OtherPlaces(s, TryLock(s, t, a).0);
  }

  /**
   * The list of every condition variable is exactly the threads asleep on it, each once, exactly as
   * long as no such thread is woken by a timeout or for no reason; with `RunFifo`, in the order in
   * which they came.
   */
  lemma {:induction false} RunQueues(ss: seq<State>, ops: seq<Op>, i: nat)
    requires Execution(ss, ops) && i <= |ops|
    ensures (forall k :: 0 <= k <= i ==> Queues(ss[k])) <==> (forall j :: 0 <= j < i ==> !Disturbs(ss[j], ops[j]))
  {
    hide Do, Enabled, Inv, Disturbs, Queues;
    if i == 0 {
      InitialQueues();
    } else {
      RunQueues(ss, ops, i - 1);
      RunKeeps(ss, ops, i - 1);
      assert Enabled(ss[i - 1], ops[i - 1]) && ss[i] == Do(ss[i - 1], ops[i - 1]);
      if Queues(ss[i - 1]) {
        StepQueues(ss[i - 1], ops[i - 1]);
      }
    }
  }

  lemma InitialQueues()
    ensures Queues(Initial)
  {}

  // Thread 1 waits with a time that runs out.

  const TIMED := Call(3, 1, 3, 1, true, false)
  const DOZING := ASLEEP.(pcs := map[1 := Sleeping(TIMED)])
  const LATE := DOZING.(pcs := map[1 := Sleeping(TIMED.(expired := true))], blocked := {})

  lemma DozesAndExpires()
    ensures Do(HELD, WaitOp(1, 1, 1, true)) == DOZING
    ensures Do(DOZING, ExpireOp(1)) == LATE
  {
    var s := Do(HELD, WaitOp(1, 1, 1, true));
    assert [Locked(1, 3)] + [Unlocked(1, 3)] == [Locked(1, 3), Unlocked(1, 3)];
    assert s.mutexes == DOZING.mutexes && s.log == DOZING.log && s.pcs == DOZING.pcs;
    assert s.conds[3].waiting == [1] && s.conds[3].arrived == [1] && s.conds == DOZING.conds;
    assert Do(DOZING, ExpireOp(1)).blocked == {};
  }

  /** The entry of a wait that timed out stays on the list, and the next signal is spent on it. */
  lemma StaleEntry() returns (ss: seq<State>, ops: seq<Op>)
    ensures Execution(ss, ops) && |ops| == 6
    ensures ops[4] == ExpireOp(1) && ss[5].conds.Keys == {3} && ss[5].conds[3].waiting == [1] && !AsleepOn(ss[5], 1, 3)
    ensures ops[5] == SignalOp(1) && ss[6].conds.Keys == {3} && ss[6].conds[3].waiting == [] && ss[6].blocked == ss[5].blocked
  {
    hide Do;
    ops := [Poke(1, Word(0, Normal)), PokeCond(1, 0), LockOp(1, 1), WaitOp(1, 1, 1, true), ExpireOp(1), SignalOp(1)];
    ss := [Initial, Do(Initial, ops[0]), STORED, HELD, DOZING, LATE, Do(LATE, ops[5])];
    StaleRun(ss, ops);
    SpentOnLate();
  }

  lemma SpentOnLate()
    ensures var s := Do(LATE, SignalOp(1)); s.conds.Keys == {3} && s.conds[3].waiting == [] && s.blocked == {}
  {}

  lemma StaleRun(ss: seq<State>, ops: seq<Op>)
    requires ops == [Poke(1, Word(0, Normal)), PokeCond(1, 0), LockOp(1, 1), WaitOp(1, 1, 1, true), ExpireOp(1), SignalOp(1)]
    requires ss == [Initial, Do(Initial, Poke(1, Word(0, Normal))), STORED, HELD, DOZING, LATE, Do(LATE, SignalOp(1))]
    ensures Execution(ss, ops)
  {
    hide Do;
    StoresAndLocks();
    DozesAndExpires();
  }

  // ----- Releasing the mutex and joining the list are two steps -----

  /**
   * In every reachable state a condition wait puts its caller at the end of the list in the step
   * that releases the mutex, exactly if nobody waits for that mutex or it is held more than once.
   */
  lemma RunWaitJoins(ss: seq<State>, ops: seq<Op>, i: nat, cid: Cid)
    requires Execution(ss, ops) && i < |ops| && ops[i].WaitOp? && Enabled(ss[i], ops[i])
    requires SearchCond(ss[i], ops[i].c).1 == Some(cid)
    ensures var s, s', t := ss[i], ss[i + 1], ops[i].t;
            var before := if cid in s.conds then s.conds[cid].waiting else [];
            && cid in s'.conds
            && s'.conds[cid].waiting == (if YieldsFirst(s, t, ops[i].a) then before else before + [t])
            && (AsleepOn(s', t, cid) <==> !YieldsFirst(s, t, ops[i].a))
            && (PcOf(s', t).Releasing? <==> YieldsFirst(s, t, ops[i].a))
  {
    hide Inv, Wait, SearchCond, YieldsFirst;
    RunKeeps(ss, ops, i);
    assert ss[i + 1] == Do(ss[i], ops[i]);
    WaitJoins(ss[i], ops[i].t, ops[i].c, ops[i].a, ops[i].timed, cid);
  }

  lemma WaitJoins(s: State, t: Tid, c: Addr, a: Addr, timed: bool, cid: Cid)
    requires Inv(s) && Enabled(s, WaitOp(t, c, a, timed)) && SearchCond(s, c).1 == Some(cid)
    ensures var s' := Wait(s, t, c, a, timed).0;
            var before := if cid in s.conds then s.conds[cid].waiting else [];
            && cid in s'.conds
            && s'.conds[cid].waiting == (if YieldsFirst(s, t, a) then before else before + [t])
            && (AsleepOn(s', t, cid) <==> !YieldsFirst(s, t, a))
            && (PcOf(s', t).Releasing? <==> YieldsFirst(s, t, a))
  {
    hide Inv, Unlock, Search;
    var s1 := SearchCond(s, c).0;
    InvOrder(s);
    SearchCondKeeps(s, c);
    UnlockPlaces(s1, t, a);
    UnlockWakes(s, s1, t, a);
    NewCondFresh(s);
  }

  lemma NewCondFresh(s: State)
    requires InOrder(s)
    ensures s.nextCid !in s.conds
  {}

  // Thread 2 waits for the mutex when thread 1 calls the wait; it gets it, and signals to nobody.

  const CONTENDED := HELD.(mutexes := map[3 := Mutex(Normal, 1, Some(1), [2])],
                           pcs := map[1 := Idle, 2 := Locking(3, ToLock)], blocked := {2})
  const YIELDING := State(map[3 := Mutex(Normal, 0, None, [2])], 4, map[1 := Word(3, Normal)], map[3 := Cond([], [], [])], 4, map[1 := 3],
                          map[1 := Releasing(CALL), 2 := Locking(3, ToLock)], {}, [Locked(1, 3), Unlocked(1, 3)])
  const TAKEN := YIELDING.(mutexes := map[3 := Mutex(Normal, 1, Some(2), [])], pcs := map[1 := Releasing(CALL), 2 := Idle],
                           log := [Locked(1, 3), Unlocked(1, 3), Locked(2, 3)])
  const UNHEARD := TAKEN.(conds := map[3 := Cond([1], [1], [])], pcs := map[1 := Sleeping(CALL), 2 := Idle], blocked := {1})

  lemma Contends()
    ensures Do(HELD, LockOp(2, 1)) == CONTENDED
  {
    var s := Do(HELD, LockOp(2, 1));
    assert s.mutexes[3].waiting == [2] && s.mutexes == CONTENDED.mutexes;
    assert s.pcs == CONTENDED.pcs && s.blocked == CONTENDED.blocked;
  }

  lemma Yields()
    ensures Do(CONTENDED, WaitOp(1, 1, 1, false)) == YIELDING
  {
    var s := Do(CONTENDED, WaitOp(1, 1, 1, false));
    assert [Locked(1, 3)] + [Unlocked(1, 3)] == [Locked(1, 3), Unlocked(1, 3)];
    assert s.mutexes == YIELDING.mutexes && s.conds == YIELDING.conds;
    assert s.pcs == YIELDING.pcs && s.blocked == YIELDING.blocked && s.log == YIELDING.log;
  }

  lemma TakesOver()
    ensures Do(YIELDING, ResumeOp(2)) == TAKEN
  {
    assert [2][1..] == [] && Removed([2], 2) == [];
    var s := Do(YIELDING, ResumeOp(2));
    assert s.mutexes == TAKEN.mutexes && s.pcs == TAKEN.pcs;
    assert [Locked(1, 3), Unlocked(1, 3)] + [Locked(2, 3)] == TAKEN.log && s.log == TAKEN.log;
  }

  lemma SignalsNobody()
    ensures Do(TAKEN, SignalOp(1)) == TAKEN
    ensures Do(TAKEN, ResumeOp(1)) == UNHEARD
  {
    var s := Do(TAKEN, ResumeOp(1));
    assert s.conds[3].waiting == [1] && s.conds == UNHEARD.conds;
    assert s.pcs == UNHEARD.pcs && s.blocked == UNHEARD.blocked;
  }

  /** A signal by the next holder of the mutex, after the wait was called, is lost: the waiter sleeps on. */
  lemma LostSignal() returns (ss: seq<State>, ops: seq<Op>)
    ensures Execution(ss, ops) && |ops| == 8
    ensures ops[4] == WaitOp(1, 1, 1, false) && ops[6] == SignalOp(1) && Holds(ss[6], 2, 3) == 1
    ensures AsleepOn(ss[8], 1, 3) && ss[7] == ss[6]
  {
    hide Do;
    ops := [Poke(1, Word(0, Normal)), PokeCond(1, 0), LockOp(1, 1), LockOp(2, 1), WaitOp(1, 1, 1, false),
            ResumeOp(2), SignalOp(1), ResumeOp(1)];
    ss := [Initial, Do(Initial, ops[0]), STORED, HELD, CONTENDED, YIELDING, TAKEN, TAKEN, UNHEARD];
    LostRun(ss, ops);
  }

  lemma LostRun(ss: seq<State>, ops: seq<Op>)
    requires ops == [Poke(1, Word(0, Normal)), PokeCond(1, 0), LockOp(1, 1), LockOp(2, 1), WaitOp(1, 1, 1, false),
                     ResumeOp(2), SignalOp(1), ResumeOp(1)]
    requires ss == [Initial, Do(Initial, Poke(1, Word(0, Normal))), STORED, HELD, CONTENDED, YIELDING, TAKEN, TAKEN, UNHEARD]
    ensures Execution(ss, ops)
  {
    hide Do;
    StoresAndLocks();
    Contends();
    Yields();
    TakesOver();
    SignalsNobody();
  }
}
