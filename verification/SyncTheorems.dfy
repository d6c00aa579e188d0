/** The guarantees a program gets from its mutexes and condition variables. */
module SyncTheorems {
  import opened Basics
  import opened Sync
  import opened SyncRuns

  // ----- Mutual exclusion -----

  /**
   * In every reachable state a mutex has an owner exactly when its count is positive, a normal
   * one is held at most once, the count is the owner's lock calls less its unlock calls and
   * everybody else's balance is zero.
   */
  lemma RunExcludes(ss: seq<State>, ops: seq<Op>, i: nat, mid: Mid, t: Tid)
    requires Execution(ss, ops) && i <= |ops| && mid in ss[i].mutexes
    ensures var m := ss[i].mutexes[mid];
            && (m.current.Some? <==> m.count > 0)
            && (m.kind.Normal? ==> m.count <= 1)
            && Balance(ss[i].log, t, mid) == (if m.current == Some(t) then m.count else 0)
  {
    hide Do, Enabled, FreshIds, Calls, InOrder;
    RunKeeps(ss, ops, i);
    assert Good(ss[i], mid);
    assert Holds(ss[i], t, mid) == Balance(ss[i].log, t, mid);
  }

  /** The waiting list holds each thread of the retry loop once, and a free mutex has a runnable first waiter. */
  lemma RunStrandsNobody(ss: seq<State>, ops: seq<Op>, i: nat, mid: Mid)
    requires Execution(ss, ops) && i <= |ops| && mid in ss[i].mutexes
    ensures var m := ss[i].mutexes[mid];
            && (forall a, b :: 0 <= a < b < |m.waiting| ==> m.waiting[a] != m.waiting[b])
            && (forall t {:trigger t in m.waiting} :: t in m.waiting <==> PcOf(ss[i], t).Locking? && PcOf(ss[i], t).mid == mid)
            && (m.current == None && m.waiting != [] ==> m.waiting[0] !in ss[i].blocked)
  {
    hide Do, Enabled, Balanced, FreshIds, Calls, InOrder;
    RunKeeps(ss, ops, i);
    assert Good(ss[i], mid);
    forall t {:trigger t in ss[i].mutexes[mid].waiting} ensures t in ss[i].mutexes[mid].waiting <==> RetryingOn(ss[i], t, mid) {}
  }

  /** Nobody retries on, or sleeps for, something that has been deleted. */
  lemma RunNeverDangles(ss: seq<State>, ops: seq<Op>, i: nat, t: Tid)
    requires Execution(ss, ops) && i <= |ops|
    ensures PcOf(ss[i], t).Locking? ==> PcOf(ss[i], t).mid in ss[i].mutexes
    ensures PcOf(ss[i], t).Releasing? ==> PcOf(ss[i], t).call.cid in ss[i].conds
  {
    hide Do, Enabled, Balanced, FreshIds, Calls, InOrder;
    RunKeeps(ss, ops, i);
    PlacedAt(ss[i], t);
  }

  /** The calls of `t` on `mid` that succeed, and only they, change what it holds, by one. */
  lemma LockOwns(s: State, t: Tid, a: Addr)
    requires Inv(s) && Ready(s, t) && Mapped(s, a)
    ensures var (s', r) := Lock(s, t, a, ToLock);
            var found := Search(s, a).1;
            && (r == Done(EINVAL) <==> found == None)
            && (r == Done(OK) ==> s'.mutexes[found.value].current == Some(t) && Holds(s', t, found.value) == Holds(s, t, found.value) + 1)
            && (r == Done(EDEADLK) <==> found.Some? && Holds(s, t, found.value) > 0 && Search(s, a).0.mutexes[found.value].kind.Normal?)
            && (r == Blocks <==> found.Some? && Search(s, a).0.mutexes[found.value].current.Some? && Holds(s, t, found.value) == 0)
            && (r != Done(OK) ==> forall u, mid {:trigger Holds(s', u, mid)} :: Holds(s', u, mid) == Holds(s, u, mid))
  {
    hide Calls, FreshIds, Balanced, InOrder;
    NextMidFresh(s);
    var found := Search(s, a).1;
    if found.Some? && found.value in s.mutexes {
      assert Good(s, found.value);
    }
  }

  lemma RetryOwns(s: State, t: Tid, mid: Mid, why: Why)
    requires Inv(s) && PcOf(s, t) == Locking(mid, why) && mid in s.mutexes
    ensures var (s', r) := Retry(s, t, mid, why);
            if s.mutexes[mid].current == None then
              r == Done(OK) && s'.mutexes[mid].current == Some(t) && Holds(s', t, mid) == Holds(s, t, mid) + 1
            else
              r == Blocks && forall u, m {:trigger Holds(s', u, m)} :: Holds(s', u, m) == Holds(s, u, m)
  {
    hide Calls, FreshIds, Balanced, InOrder;
    assert Good(s, mid);
  }

  /** Trying succeeds exactly on a free mutex, or on one's own if it is recursive, and never waits. */
  lemma TryLockOwns(s: State, t: Tid, a: Addr)
    requires Inv(s) && Mapped(s, a)
    ensures var (s', r) := TryLock(s, t, a);
            var (s1, found) := Search(s, a);
            && (r == EINVAL <==> found == None)
            && (r == OK <==> found.Some? && (s1.mutexes[found.value].current == None
                               || (Holds(s, t, found.value) > 0 && s1.mutexes[found.value].kind.Recursive?)))
            && (r == OK ==> s'.mutexes[found.value].current == Some(t) && Holds(s', t, found.value) == Holds(s, t, found.value) + 1)
            && (r != OK ==> r in {EINVAL, EBUSY} && forall u, mid {:trigger Holds(s', u, mid)} :: Holds(s', u, mid) == Holds(s, u, mid))
            && s'.blocked == s.blocked && s'.pcs == s.pcs
  {
    hide Calls, FreshIds, Balanced, InOrder;
    NextMidFresh(s);
    var found := Search(s, a).1;
    if found.Some? && found.value in s.mutexes {
      assert Good(s, found.value);
    }
  }

  /**
   * Unlocking succeeds exactly for the owner and takes one hold away; the last one frees the mutex
   * and wakes the first waiter, if there is one, and nobody else.
   */
  lemma UnlockGives(s: State, t: Tid, a: Addr)
    requires Inv(s) && Mapped(s, a)
    ensures var (s', r, wakes) := Unlock(s, t, a);
            var found := Search(s, a).1;
            && (r == EINVAL <==> found == None)
            && (r == EPERM <==> found.Some? && Holds(s, t, found.value) == 0)
            && (r == OK ==> Holds(s', t, found.value) == Holds(s, t, found.value) - 1)
            && (wakes <==> r == OK && Holds(s, t, found.value) == 1 && s.mutexes[found.value].waiting != [])
            && s'.blocked == s.blocked - (if wakes then {s.mutexes[found.value].waiting[0]} else {})
            && (r != OK ==> forall u, mid {:trigger Holds(s', u, mid)} :: Holds(s', u, mid) == Holds(s, u, mid))
  {
    hide Calls, FreshIds, Balanced, InOrder;
    NextMidFresh(s);
    var found := Search(s, a).1;
    if found.Some? && found.value in s.mutexes {
      assert Good(s, found.value);
    }
  }

  /** Initialising makes the address name a new mutex, free and of the type asked for, whatever was there. */
  lemma InitNames(s: State, a: Addr, attr: Option<nat>)
    requires Inv(s) && Mapped(s, a)
    ensures var (s', r) := Init(s, a, attr);
            && (r == EINVAL <==> a == 0 || (attr.Some? && attr.value != RECURSIVE && attr.value != NORMAL))
            && (r == EINVAL ==> s' == s)
            && (r != EINVAL ==>
                  && r == OK && Search(s', a) == (s', Some(s.nextMid)) && s.nextMid !in s.mutexes
                  && s'.mutexes[s.nextMid] == Mutex(if attr == Some(RECURSIVE) then Recursive else Normal, 0, None, [])
                  && forall mid :: mid in s.mutexes ==> s'.mutexes[mid] == s.mutexes[mid])
  {
    hide Calls, FreshIds, Balanced, InOrder;
    NextMidFresh(s);
  }

  /** Unlocking for the wait would wake somebody, so the caller yields before it joins the list. */
  ghost predicate YieldsFirst(s: State, t: Tid, a: Addr)
    requires Mapped(s, a)
  {
    var found := Search(s, a).1;
    && found.Some? && found.value in s.mutexes
    && Holds(s, t, found.value) == 1 && s.mutexes[found.value].waiting != []
  }

  lemma UnlockWakes(s: State, s1: State, t: Tid, a: Addr)
    requires Inv(s1) && Mapped(s, a) && Mapped(s1, a)
    requires s1.mutexes == s.mutexes && s1.words == s.words && s1.nextMid == s.nextMid
    ensures Unlock(s1, t, a).2 <==> YieldsFirst(s, t, a)
  {
    hide FreshIds, Balanced, InOrder, Calls;
    NextMidFresh(s1);
    var found := Search(s1, a).1;
    if found.Some? && found.value in s.mutexes {
      assert Good(s1, found.value);
    }
  }

  /**
   * What every call answers, and whom it wakes or names: a lock fails only for want of a mutex or on
   * one's own normal one and waits exactly on somebody else's; a thread that waited for it and runs on
   * gets it exactly if it is free by then, and otherwise waits again; trying is refused instead; only
   * the holder unlocks, and its last unlock wakes the first waiter and nobody else; initialising makes
   * the address name a new free mutex of the type asked for.
   */
  lemma RunAnswers(ss: seq<State>, ops: seq<Op>, i: nat)
    requires Execution(ss, ops) && i < |ops| && Enabled(ss[i], ops[i])
    ensures var s := ss[i];
            match ops[i]
            case LockOp(t, a) =>
              var r, (s1, found) := Lock(s, t, a, ToLock).1, Search(s, a);
              && (r == Done(EINVAL) <==> found == None)
              && (r == Done(OK) <==> found.Some? && Available(s1, t, found.value))
              && (r == Done(EDEADLK) <==> found.Some? && Holds(s, t, found.value) > 0 && s1.mutexes[found.value].kind.Normal?)
              && (r == Blocks <==> found.Some? && s1.mutexes[found.value].current.Some? && Holds(s, t, found.value) == 0)
              && (r == Blocks <==> t in ss[i + 1].blocked)
              && (r == Done(OK) ==> Owns(ss[i + 1], t, found.value))
            case TryOp(t, a) =>
              var r, (s1, found) := TryLock(s, t, a).1, Search(s, a);
              && (r == EINVAL <==> found == None)
              && (r == OK <==> found.Some? && Available(s1, t, found.value))
              && (r == EBUSY <==> found.Some? && !Available(s1, t, found.value))
              && (r == OK ==> Owns(ss[i + 1], t, found.value))
              && ss[i + 1].blocked == s.blocked
            case UnlockOp(t, a) =>
              var r, found := Unlock(s, t, a).1, Search(s, a).1;
              && (r == EINVAL <==> found == None)
              && (r == EPERM <==> found.Some? && Holds(s, t, found.value) == 0)
              && (r == OK <==> found.Some? && Holds(s, t, found.value) > 0)
              && ss[i + 1].blocked == s.blocked - (if YieldsFirst(s, t, a) then {s.mutexes[found.value].waiting[0]} else {})
            case InitOp(a, attr) =>
              var r := Init(s, a, attr).1;
              && (r == EINVAL <==> a == 0 || (attr.Some? && attr.value != RECURSIVE && attr.value != NORMAL))
              && (r == EINVAL ==> ss[i + 1] == s)
              && (r != EINVAL ==>
                    && r == OK && Named(ss[i + 1], a, s.nextMid) && s.nextMid !in s.mutexes
                    && ss[i + 1].mutexes[s.nextMid] == Mutex(if attr == Some(RECURSIVE) then Recursive else Normal, 0, None, []))
            case ResumeOp(t) =>
              var r, pc := Resume(s, t).1, PcOf(s, t);
              pc.Locking? ==>
                && pc.mid in s.mutexes
                && (r.Done? <==> s.mutexes[pc.mid].current == None)
                && (r == Blocks <==> s.mutexes[pc.mid].current.Some?)
                && (r == Blocks <==> t in ss[i + 1].blocked)
                && (r == Blocks ==> PcOf(ss[i + 1], t) == pc)
                && (r.Done? ==> r == Done(if pc.why == ToLock then OK else WaitCode(pc.why.call)))
                && (r.Done? ==> Owns(ss[i + 1], t, pc.mid))
            case _ => true
  {
    hide Inv, Lock, TryLock, Unlock, Retry, Init, Search, Named, Available, YieldsFirst;
    RunKeeps(ss, ops, i);
    assert ss[i + 1] == Do(ss[i], ops[i]);
    match ops[i]
    case LockOp(t, a) =>
      LockOwns(ss[i], t, a);
      LockAvailable(ss[i], t, a);
    case TryOp(t, a) =>
      TryLockOwns(ss[i], t, a);
      TryAvailable(ss[i], t, a);
    case UnlockOp(t, a) =>
      UnlockGives(ss[i], t, a);
      UnlockCodes(ss[i], t, a);
      UnlockWakes(ss[i], ss[i], t, a);
    case InitOp(a, attr) =>
      InitNames(ss[i], a, attr);
      InitNamed(ss[i], a, attr);
    case ResumeOp(t) =>
      if PcOf(ss[i], t).Locking? {
        var pc := PcOf(ss[i], t);
        RetryOwns(ss[i], t, pc.mid, pc.why);
        RetryPlace(ss[i], t, pc.mid, pc.why);
      }
    case _ =>
  }

  lemma RetryPlace(s: State, t: Tid, mid: Mid, why: Why)
    requires t !in s.blocked && mid in s.mutexes
    ensures var (s', r) := Retry(s, t, mid, why);
            && (r == Blocks <==> t in s'.blocked)
            && (r == Blocks ==> PcOf(s', t) == Locking(mid, why))
            && mid in s'.mutexes
  {}

  ghost predicate Owns(s: State, t: Tid, mid: Mid) {
    mid in s.mutexes && s.mutexes[mid].current == Some(t)
  }

  lemma LockAvailable(s: State, t: Tid, a: Addr)
    requires Inv(s) && Ready(s, t) && Mapped(s, a)
    ensures var (s', r) := Lock(s, t, a, ToLock);
            var (s1, found) := Search(s, a);
            && (r == Done(OK) <==> found.Some? && Available(s1, t, found.value))
            && (r == Blocks <==> t in s'.blocked)
            && (found.Some? ==> found.value in s1.mutexes)
  {}

  lemma TryAvailable(s: State, t: Tid, a: Addr)
    requires Mapped(s, a)
    ensures var (s1, found) := Search(s, a);
            TryLock(s, t, a).1 == OK <==> found.Some? && Available(s1, t, found.value)
  {}

  lemma UnlockCodes(s: State, t: Tid, a: Addr)
    requires Mapped(s, a)
    ensures Unlock(s, t, a).1 in {EINVAL, EPERM, OK}
  {}

  lemma InitNamed(s: State, a: Addr, attr: Option<nat>)
    requires Inv(s) && Mapped(s, a)
    ensures Init(s, a, attr).1 == OK ==> Named(Init(s, a, attr).0, a, s.nextMid)
  {}

  /** A thread that finds the mutex can take it: it is free, or recursive and the thread's own. */
  ghost predicate Available(s: State, t: Tid, mid: Mid) {
    && mid in s.mutexes
    && (s.mutexes[mid].current == None || (s.mutexes[mid].current == Some(t) && s.mutexes[mid].kind.Recursive?))
  }

  ghost predicate Finds(s: State, a: Addr, mid: Mid) {
    Mapped(s, a) && Search(s, a).1 == Some(mid)
  }

  /** The operation is a step of `t` that finds mutex `mid` and can take it. */
  ghost predicate Takes(s: State, op: Op, t: Tid, mid: Mid) {
    match op
    case LockOp(u, a) => u == t && Finds(s, a, mid) && Available(Search(s, a).0, t, mid)
    case TryOp(u, a) => u == t && Finds(s, a, mid) && Available(Search(s, a).0, t, mid)
    case ResumeOp(u) => u == t && Sane(s, t) && Relocks(s, t) == Some(mid) && Available(Resumed(s, t), t, mid)
    case _ => false
  }

  /** The state in which a thread inside a call looks at the mutex: a static one has been created by then. */
  ghost function Resumed(s: State, t: Tid): State
    requires Sane(s, t)
  {
    if PcOf(s, t).Sleeping? then Search(s, PcOf(s, t).call.addr).0 else s
  }

  /** The operation is an unlock, or a wait on an existing condition, by a holder of mutex `mid`. */
  ghost predicate Gives(s: State, op: Op, t: Tid, mid: Mid) {
    match op
    case UnlockOp(u, a) => u == t && Finds(s, a, mid) && Holds(s, t, mid) > 0
    case WaitOp(u, c, a, _) => u == t && CondMapped(s, c) && SearchCond(s, c).1.Some? && Finds(s, a, mid) && Holds(s, t, mid) > 0
    case _ => false
  }

  lemma LockMutexHolds(s: State, u: Tid, m: Mid, why: Why, t: Tid, mid: Mid)
    requires Locks(s) && m in s.mutexes
    ensures Holds(LockMutex(s, u, m, why).0, t, mid) == Holds(s, t, mid) + if u == t && m == mid && Available(s, t, mid) then 1 else 0
  {
    assert Good(s, m);
  }

  lemma SearchHolds(s: State, a: Addr, t: Tid, mid: Mid)
    requires Locks(s) && Mapped(s, a)
    ensures Locks(Search(s, a).0) && Holds(Search(s, a).0, t, mid) == Holds(s, t, mid)
    ensures Search(s, a).1.Some? ==> Search(s, a).1.value in Search(s, a).0.mutexes
  {
    hide Locks;
    NextMidFresh(s);
    if a != 0 && s.words[a].id == 0 {
      NewMutexLocks(s, a, s.words[a].kind, s.words[a].kind);
    }
  }

  lemma LockHolds(s: State, u: Tid, a: Addr, why: Why, t: Tid, mid: Mid)
    requires Locks(s) && Mapped(s, a)
    ensures Holds(Lock(s, u, a, why).0, t, mid) ==
              Holds(s, t, mid) + if u == t && Finds(s, a, mid) && Available(Search(s, a).0, t, mid) then 1 else 0
  {
    hide Locks, LockMutex, Search, Available;
    SearchHolds(s, a, t, mid);
    var (s1, found) := Search(s, a);
    if found.Some? {
      LockMutexHolds(s1, u, found.value, why, t, mid);
    } else {
      HoldsSame(s1, SetPc(s1, u, Idle));
    }
  }

  lemma TryHolds(s: State, u: Tid, a: Addr, t: Tid, mid: Mid)
    requires Locks(s) && Mapped(s, a)
    ensures Holds(TryLock(s, u, a).0, t, mid) ==
              Holds(s, t, mid) + if u == t && Finds(s, a, mid) && Available(Search(s, a).0, t, mid) then 1 else 0
  {
    hide Search;
    SearchHolds(s, a, t, mid);
    var (s1, found) := Search(s, a);
    if found.Some? {
      assert Good(s1, found.value);
    }
  }

  lemma RetryHolds(s: State, u: Tid, m: Mid, why: Why, t: Tid, mid: Mid)
    requires Locks(s) && m in s.mutexes && PcOf(s, u) == Locking(m, why)
    ensures Holds(Retry(s, u, m, why).0, t, mid) == Holds(s, t, mid) + if u == t && m == mid && Available(s, t, mid) then 1 else 0
  {
    assert Good(s, m);
    assert RetryingOn(s, u, m);
  }

  lemma UnlockHolds(s: State, u: Tid, a: Addr, t: Tid, mid: Mid)
    requires Locks(s) && Mapped(s, a)
    ensures Holds(Unlock(s, u, a).0, t, mid) ==
              Holds(s, t, mid) - if u == t && Finds(s, a, mid) && Holds(s, t, mid) > 0 then 1 else 0
  {
    hide Search;
    SearchHolds(s, a, t, mid);
    var (s1, found) := Search(s, a);
    if found.Some? {
      SearchHolds(s, a, u, found.value);
      assert Good(s1, found.value);
    }
  }

  lemma WaitHolds(s: State, u: Tid, c: Addr, a: Addr, timed: bool, t: Tid, mid: Mid)
    requires Locks(s) && Mapped(s, a) && CondMapped(s, c) && Ready(s, u) && InOrder(s)
    ensures Holds(Wait(s, u, c, a, timed).0, t, mid) == Holds(s, t, mid) -
              if u == t && SearchCond(s, c).1.Some? && Finds(s, a, mid) && Holds(s, t, mid) > 0 then 1 else 0
  {
    hide Unlock, Search, Locks, Finds;
    var (s1, found) := SearchCond(s, c);
    SameLocks(s, s1);
    HoldsSame(s, s1);
    if found.Some? {
      SearchSame(s, s1, a);
      FindsSame(s, s1, a, mid);
      UnlockHolds(s1, u, a, t, mid);
      HoldsSame(Unlock(s1, u, a).0, Wait(s, u, c, a, timed).0);
    }
  }

  lemma SamePlaces(s: State, s': State)
    requires s'.pcs == s.pcs
    ensures forall u {:trigger PcOf(s', u)} :: PcOf(s', u) == PcOf(s, u)
  {}

  lemma UnlockPlaces(s: State, t: Tid, a: Addr)
    requires Mapped(s, a)
    ensures var s' := Unlock(s, t, a).0;
            s'.conds == s.conds && s'.pcs == s.pcs && s'.blocked <= s.blocked
  {}

  lemma SameLocks(s: State, s1: State)
    requires Locks(s) && s1.mutexes == s.mutexes && s1.words == s.words && s1.nextMid == s.nextMid
    requires s1.pcs == s.pcs && s1.blocked == s.blocked && s1.conds.Keys >= s.conds.Keys
    ensures Locks(s1)
  {
    hide NoDup;
    SamePlaces(s, s1);
    forall mid | mid in s1.mutexes ensures Good(s1, mid) {
      assert Good(s, mid);
      forall u {:trigger PcOf(s1, u)} {:trigger u in s1.mutexes[mid].waiting}
        ensures u in s1.mutexes[mid].waiting <==> RetryingOn(s1, u, mid)
      {
        assert u in s.mutexes[mid].waiting <==> RetryingOn(s, u, mid);
      }
    }
    forall u: Tid ensures Placed(s1, u) {
      assert Placed(s, u);
    }
  }

  lemma SearchSame(s: State, s1: State, a: Addr)
    requires Mapped(s, a) && s1.mutexes == s.mutexes && s1.words == s.words && s1.nextMid == s.nextMid
    ensures Search(s1, a).1 == Search(s, a).1
  {}

  lemma FindsSame(s: State, s1: State, a: Addr, mid: Mid)
    requires Mapped(s, a) && s1.words == s.words && Search(s1, a).1 == Search(s, a).1
    ensures Finds(s1, a, mid) <==> Finds(s, a, mid)
  {}

  lemma ResumeHolds(s: State, u: Tid, t: Tid, mid: Mid)
    requires Locks(s) && Sane(s, u)
    ensures Holds(Resume(s, u).0, t, mid) == Holds(s, t, mid) + if Takes(s, ResumeOp(u), t, mid) then 1 else 0
  {
    hide Locks, Lock, Retry, Search, Available;
    match PcOf(s, u)
    case Idle =>
    case Locking(m, why) => RetryHolds(s, u, m, why, t, mid);
    case Releasing(call) => HoldsSame(s, Sleep(s, u, call));
    case Sleeping(call) => LockHolds(s, u, call.addr, ToRelock(call), t, mid);
  }

  lemma DestroyHolds(s: State, a: Addr, t: Tid, mid: Mid)
    requires Locks(s) && Mapped(s, a)
    ensures Holds(Destroy(s, a).0, t, mid) == Holds(s, t, mid)
  {
    hide Search, Locks;
    SearchHolds(s, a, t, mid);
  }

  lemma InitHolds(s: State, a: Addr, attr: Option<nat>, t: Tid, mid: Mid)
    requires Locks(s) && Mapped(s, a)
    ensures Holds(Init(s, a, attr).0, t, mid) == Holds(s, t, mid)
  {
    NextMidFresh(s);
  }

  lemma StepHolds(s: State, op: Op, t: Tid, mid: Mid)
    requires Inv(s) && Enabled(s, op)
    ensures Holds(Do(s, op), t, mid) ==
              Holds(s, t, mid) + (if Takes(s, op, t, mid) then 1 else 0) - (if Gives(s, op, t, mid) then 1 else 0)
  {
    hide Locks, Balanced, FreshIds, Calls, InOrder, Lock, TryLock, Unlock, Wait, Resume, Destroy, Init, Search, Holds, Available;
    match op
    case InitOp(a, attr) => InitHolds(s, a, attr, t, mid);
    case DestroyOp(a) => DestroyHolds(s, a, t, mid);
    case LockOp(u, a) => LockHolds(s, u, a, ToLock, t, mid);
    case TryOp(u, a) => TryHolds(s, u, a, t, mid);
    case UnlockOp(u, a) => UnlockHolds(s, u, a, t, mid);
    case WaitOp(u, c, a, timed) => WaitHolds(s, u, c, a, timed, t, mid);
    case ResumeOp(u) => ResumeHolds(s, u, t, mid);
    case _ => HoldsSame(s, Do(s, op));
  }

  /**
   * In every run a hold on a mutex is gained, one at a time, exactly when its thread locks, tries or
   * runs on in a call, finds that mutex, and the mutex is free or recursive and already its own; and
   * lost, one at a time, exactly by its own unlock or wait.
   */
  lemma RunHolds(ss: seq<State>, ops: seq<Op>, i: nat, t: Tid, mid: Mid)
    requires Execution(ss, ops) && i < |ops|
    ensures Holds(ss[i + 1], t, mid) == Holds(ss[i], t, mid)
              + (if Takes(ss[i], ops[i], t, mid) then 1 else 0) - (if Gives(ss[i], ops[i], t, mid) then 1 else 0)
  {
    hide Inv, Do, Enabled, Takes, Gives, Holds;
    RunKeeps(ss, ops, i);
    assert Enabled(ss[i], ops[i]) && ss[i + 1] == Do(ss[i], ops[i]);
    StepHolds(ss[i], ops[i], t, mid);
  }

  /** Destroying succeeds exactly on a mutex that nobody owns or waits for. */
  lemma RunDestroys(ss: seq<State>, ops: seq<Op>, i: nat, a: Addr)
    requires Execution(ss, ops) && i <= |ops| && Mapped(ss[i], a)
    ensures var s := ss[i];
            var found := Search(s, a).1;
            Destroy(s, a).1 == OK <==>
              && found.Some?
              && (forall t {:trigger Holds(s, t, found.value)} :: Holds(s, t, found.value) == 0)
              && (forall t {:trigger PcOf(s, t)} :: !(PcOf(s, t).Locking? && PcOf(s, t).mid == found.value))
  {
    hide Do, Enabled, Calls, FreshIds, Balanced, InOrder;
    RunKeeps(ss, ops, i);
    DestroyExactly(ss[i], a);
  }

  lemma DestroyExactly(s: State, a: Addr)
    requires Inv(s) && Mapped(s, a)
    ensures var found := Search(s, a).1;
            Destroy(s, a).1 == OK <==>
              && found.Some?
              && (forall t {:trigger Holds(s, t, found.value)} :: Holds(s, t, found.value) == 0)
              && (forall t {:trigger PcOf(s, t)} :: !(PcOf(s, t).Locking? && PcOf(s, t).mid == found.value))
  {
    hide Calls, FreshIds, Balanced, InOrder;
    NextMidFresh(s);
    var (s1, found) := Search(s, a);
    if found.Some? && found.value in s.mutexes {
      var m := s.mutexes[found.value];
      assert Good(s, found.value);
      if m.current.Some? {
        assert Holds(s, m.current.value, found.value) > 0;
      }
      if m.waiting != [] {
        assert m.waiting[0] in m.waiting && RetryingOn(s, m.waiting[0], found.value);
      }
      forall t {:trigger PcOf(s, t)} | m.waiting == [] ensures !(PcOf(s, t).Locking? && PcOf(s, t).mid == found.value) {
        assert t in m.waiting <==> RetryingOn(s, t, found.value);
      }
    } else if found.Some? {
      forall t {:trigger PcOf(s, t)} ensures !(PcOf(s, t).Locking? && PcOf(s, t).mid == found.value) {
        PlacedAt(s, t);
      }
    }
  }

  // ----- A condition wait gives the mutex back -----

  /** The mutex that a thread on its way out of a condition wait is about to lock. */
  ghost function Relocks(s: State, t: Tid): Option<Mid>
    requires Sane(s, t)
  {
    match PcOf(s, t)
    case Locking(mid, _) => Some(mid)
    case Sleeping(call) => Search(s, call.addr).1
    case _ => None
  }

  /**
   * A condition wait called by the holder of the mutex returns 0 or ETIMEDOUT, and then the
   * caller holds the mutex as deep as before exactly if that mutex is still the one found at
   * its address.  The result of the inner lock call is not looked at, so the wait returns
   * even if the mutex is gone.
   */
  lemma RunWaitReturns(ss: seq<State>, ops: seq<Op>, i: nat, t: Tid)
    requires Execution(ss, ops) && i < |ops| && ops[i] == ResumeOp(t)
    requires CallOf(PcOf(ss[i], t)).Some? && CallOf(PcOf(ss[i], t)).value.depth > 0
    requires Enabled(ss[i], ops[i]) && Resume(ss[i], t).1.Done?
    ensures var call := CallOf(PcOf(ss[i], t)).value;
            && Resume(ss[i], t).1 == Done(if call.expired then ETIMEDOUT else OK)
            && (Holds(ss[i + 1], t, call.mid) == call.depth <==> Relocks(ss[i], t) == Some(call.mid))
            && (Relocks(ss[i], t) != Some(call.mid) ==> Holds(ss[i + 1], t, call.mid) == call.depth - 1)
  {
    hide Inv, Resume, Relocks, CallOf, Holds;
    RunKeeps(ss, ops, i);
    WaitReturns(ss[i], t);
    assert ss[i + 1] == Do(ss[i], ops[i]);
  }

  lemma WaitReturns(s: State, t: Tid)
    requires Inv(s) && Sane(s, t) && t !in s.blocked && CallOf(PcOf(s, t)).Some? && Resume(s, t).1.Done?
    requires CallOf(PcOf(s, t)).value.depth > 0
    ensures var call, s' := CallOf(PcOf(s, t)).value, Resume(s, t).0;
            && Resume(s, t).1 == Done(if call.expired then ETIMEDOUT else OK)
            && (Holds(s', t, call.mid) == call.depth <==> Relocks(s, t) == Some(call.mid))
            && (Relocks(s, t) != Some(call.mid) ==> Holds(s', t, call.mid) == call.depth - 1)
  {
    hide Locks, FreshIds, Balanced, InOrder, Retry, LockMutex, Search, Holds, OnceLess;
    assert LetGo(s, t);
    var call := CallOf(PcOf(s, t)).value;
    match PcOf(s, t)
    case Locking(mid, _) =>
      RetryReturns(s, t, mid, call);
    case Sleeping(_) =>
      AccountOf(s);
      SearchKeeps(s, call.addr, t);
      OnceLessKept(s, Search(s, call.addr).0, t, call);
      var (s1, found) := Search(s, call.addr);
      if found.Some? {
        LockMutexReturns(s1, t, found.value, call);
      } else {
        HoldsSame(s1, SetPc(s1, t, Idle));
        OnceLessMeans(s, t, call);
      }
    case _ =>
  }

  lemma OnceLessMeans(s: State, t: Tid, call: Call)
    requires OnceLess(s, t, call) && call.depth > 0
    ensures Holds(s, t, call.mid) == call.depth - 1
  {}

  lemma LockMutexReturns(s: State, t: Tid, mid: Mid, call: Call)
    requires Locks(s) && mid in s.mutexes && OnceLess(s, t, call) && call.depth > 0
    requires LockMutex(s, t, mid, ToRelock(call)).1.Done?
    ensures Holds(LockMutex(s, t, mid, ToRelock(call)).0, t, call.mid) == if mid == call.mid then call.depth else call.depth - 1
  {
    assert Good(s, mid);
  }

  lemma RetryReturns(s: State, t: Tid, mid: Mid, call: Call)
    requires Locks(s) && mid in s.mutexes && OnceLess(s, t, call) && call.depth > 0 && PcOf(s, t) == Locking(mid, ToRelock(call))
    requires Retry(s, t, mid, ToRelock(call)).1.Done?
    ensures Holds(Retry(s, t, mid, ToRelock(call)).0, t, call.mid) == if mid == call.mid then call.depth else call.depth - 1
  {
    assert Good(s, mid) && RetryingOn(s, t, mid);
  }

  /** The word at `a` names a live mutex. */
  ghost predicate Named(s: State, a: Addr, mid: Mid) {
    a != 0 && a in s.words && s.words[a].id == mid && mid in s.mutexes && 0 < mid < s.nextMid
  }

  lemma SearchNamed(s: State, b: Addr, a: Addr, mid: Mid)
    requires Named(s, a, mid) && Mapped(s, b)
    ensures Named(Search(s, b).0, a, mid) && Search(s, a) == (s, Some(mid))
  {}

  lemma LockMutexNamed(s: State, t: Tid, m: Mid, why: Why, a: Addr, mid: Mid)
    requires Named(s, a, mid) && m in s.mutexes
    ensures Named(LockMutex(s, t, m, why).0, a, mid)
  {}

  lemma LockNamed(s: State, t: Tid, b: Addr, why: Why, a: Addr, mid: Mid)
    requires Named(s, a, mid) && Mapped(s, b)
    ensures Named(Lock(s, t, b, why).0, a, mid)
  {
    hide Search, LockMutex;
    SearchNamed(s, b, a, mid);
    var (s1, found) := Search(s, b);
    if found.Some? {
      SearchFinds(s, b);
      LockMutexNamed(s1, t, found.value, why, a, mid);
    }
  }

  lemma SearchFinds(s: State, b: Addr)
    requires Mapped(s, b) && Search(s, b).1.Some?
    ensures Search(s, b).1.value in Search(s, b).0.mutexes
  {}

  lemma UnlockNamed(s: State, t: Tid, b: Addr, a: Addr, mid: Mid)
    requires Named(s, a, mid) && Mapped(s, b)
    ensures Named(Unlock(s, t, b).0, a, mid)
  {
    hide Search;
    SearchNamed(s, b, a, mid);
  }

  lemma TryLockNamed(s: State, t: Tid, b: Addr, a: Addr, mid: Mid)
    requires Named(s, a, mid) && Mapped(s, b)
    ensures Named(TryLock(s, t, b).0, a, mid)
  {
    hide Search;
    SearchNamed(s, b, a, mid);
  }

  lemma WaitNamed(s: State, t: Tid, c: Addr, b: Addr, timed: bool, a: Addr, mid: Mid)
    requires Named(s, a, mid) && CondMapped(s, c) && Mapped(s, b)
    ensures Named(Wait(s, t, c, b, timed).0, a, mid)
  {
    hide Unlock, Search;
    UnlockNamed(SearchCond(s, c).0, t, b, a, mid);
  }

  /** The address gets another word, or a new mutex, or the mutex itself is destroyed, from any address. */
  ghost predicate Unnames(s: State, op: Op, a: Addr, mid: Mid) {
    match op
    case Poke(b, w) => b == a && w.id != mid
    case InitOp(b, attr) => b == a && Mapped(s, b) && Init(s, b, attr).1 == OK
    case DestroyOp(b) => Mapped(s, b) && Destroy(s, b).1 == OK && Search(s, b).1 == Some(mid)
    case _ => false
  }

  lemma DestroyNamed(s: State, b: Addr, a: Addr, mid: Mid)
    requires Named(s, a, mid) && Mapped(s, b)
    ensures Named(Destroy(s, b).0, a, mid) <==> !(Destroy(s, b).1 == OK && Search(s, b).1 == Some(mid))
  {
    hide Search;
    SearchNamed(s, b, a, mid);
    SearchNamed(s, a, a, mid);
    var (s1, found) := Search(s, b);
    if found.Some? {
      SearchFinds(s, b);
      FoundAt(s, b);
    }
  }

  lemma FoundAt(s: State, b: Addr)
    requires Mapped(s, b) && Search(s, b).1.Some?
    ensures b in Search(s, b).0.words && Search(s, b).0.words[b].id == Search(s, b).1.value
  {}

  lemma ResumeNamed(s: State, t: Tid, a: Addr, mid: Mid)
    requires Named(s, a, mid) && Enabled(s, ResumeOp(t))
    ensures Named(Resume(s, t).0, a, mid)
  {
    hide Lock, Retry;
    match PcOf(s, t)
    case Locking(m, why) => RetryNamed(s, t, m, why, a, mid);
    case Sleeping(call) => LockNamed(s, t, call.addr, ToRelock(call), a, mid);
    case _ =>
  }

  lemma SignalsNamed(s: State, c: Addr, a: Addr, mid: Mid)
    requires Named(s, a, mid) && CondMapped(s, c)
    ensures Named(Signal(s, c).0, a, mid) && Named(Broadcast(s, c).0, a, mid)
  {}

  /** The address goes on naming the mutex exactly if the operation does not take the name or the mutex away. */
  lemma NameKept(s: State, op: Op, a: Addr, mid: Mid)
    requires Enabled(s, op) && Named(s, a, mid)
    ensures Named(Do(s, op), a, mid) <==> !Unnames(s, op, a, mid)
  {
    hide Lock, Unlock, TryLock, Wait, Resume, Search, Destroy, Signal, Broadcast;
    match op
    case DestroyOp(b) => DestroyNamed(s, b, a, mid);
    case LockOp(t, b) => LockNamed(s, t, b, ToLock, a, mid);
    case TryOp(t, b) => TryLockNamed(s, t, b, a, mid);
    case UnlockOp(t, b) => UnlockNamed(s, t, b, a, mid);
    case WaitOp(t, c, b, timed) => WaitNamed(s, t, c, b, timed, a, mid);
    case SignalOp(c) => SignalsNamed(s, c, a, mid);
    case BroadcastOp(c) => SignalsNamed(s, c, a, mid);
    case ResumeOp(t) => ResumeNamed(s, t, a, mid);
    case _ =>
  }

  /** Over a stretch of a run, the address names the mutex throughout exactly if no operation of it unnames it. */
  lemma {:induction false} RunNamed(ss: seq<State>, ops: seq<Op>, i: nat, j: nat, a: Addr, mid: Mid)
    requires Execution(ss, ops) && i <= j <= |ops| && Named(ss[i], a, mid)
    ensures (forall k :: i <= k <= j ==> Named(ss[k], a, mid)) <==> (forall k :: i <= k < j ==> !Unnames(ss[k], ops[k], a, mid))
    decreases j
  {
    hide Do, Enabled, Named, Unnames;
    if j > i {
      RunNamed(ss, ops, i, j - 1, a, mid);
      assert Enabled(ss[j - 1], ops[j - 1]) && ss[j] == Do(ss[j - 1], ops[j - 1]);
      if Named(ss[j - 1], a, mid) {
        NameKept(ss[j - 1], ops[j - 1], a, mid);
      }
    }
  }

  // ----- A condition wait from its call to its return -----

  /** The thread that an operation moves from one place of a call to another. */
  function Mover(op: Op): Option<Tid> {
    match op
    case LockOp(t, _) => Some(t)
    case WaitOp(t, _, _, _) => Some(t)
    case ResumeOp(t) => Some(t)
    case ExpireOp(t) => Some(t)
    case _ => None
  }

  lemma LockMoves(s: State, u: Tid, b: Addr, why: Why, t: Tid)
    requires Mapped(s, b) && u != t
    ensures PcOf(Lock(s, u, b, why).0, t) == PcOf(s, t)
  {
    hide LockMutex;
    var (s1, found) := Search(s, b);
    if found.Some? {
      LockMutexMoves(s1, u, found.value, why, t);
    }
  }

  lemma LockMutexMoves(s: State, u: Tid, mid: Mid, why: Why, t: Tid)
    requires mid in s.mutexes && u != t
    ensures PcOf(LockMutex(s, u, mid, why).0, t) == PcOf(s, t)
  {}

  lemma RetryMoves(s: State, u: Tid, mid: Mid, why: Why, t: Tid)
    requires mid in s.mutexes && u != t
    ensures PcOf(Retry(s, u, mid, why).0, t) == PcOf(s, t)
  {}

  lemma ResumeMoves(s: State, u: Tid, t: Tid)
    requires Sane(s, u) && u != t
    ensures PcOf(Resume(s, u).0, t) == PcOf(s, t)
  {
    hide Lock, Retry;
    match PcOf(s, u)
    case Locking(mid, why) => RetryMoves(s, u, mid, why, t);
    case Sleeping(call) => LockMoves(s, u, call.addr, ToRelock(call), t);
    case _ =>
  }

  lemma WaitMoves(s: State, u: Tid, c: Addr, b: Addr, timed: bool, t: Tid)
    requires CondMapped(s, c) && Mapped(s, b) && u != t
    ensures PcOf(Wait(s, u, c, b, timed).0, t) == PcOf(s, t)
  {
    hide Unlock;
    UnlockPlaces(SearchCond(s, c).0, u, b);
  }

  lemma TryStays(s: State, u: Tid, b: Addr)
    requires Mapped(s, b)
    ensures TryLock(s, u, b).0.pcs == s.pcs && Destroy(s, b).0.pcs == s.pcs
  {}

  lemma OthersStay(s: State, op: Op, t: Tid)
    requires Enabled(s, op) && Mover(op) != Some(t)
    ensures PcOf(Do(s, op), t) == PcOf(s, t)
  {
    hide Lock, Unlock, TryLock, Wait, Resume, Search, Destroy;
    match op
    case DestroyOp(b) => TryStays(s, t, b);
    case LockOp(u, b) => LockMoves(s, u, b, ToLock, t);
    case TryOp(u, b) => TryStays(s, u, b);
    case UnlockOp(u, b) => UnlockPlaces(s, u, b);
    case WaitOp(u, c, b, timed) => WaitMoves(s, u, c, b, timed, t);
    case ResumeOp(u) => ResumeMoves(s, u, t);
    case _ =>
  }

  ghost predicate InWait(s: State, t: Tid) {
    CallOf(PcOf(s, t)).Some?
  }

  /** `t` is inside a wait that it called holding `mid`, named by `a`, `depth` times. */
  ghost predicate Inside(s: State, t: Tid, a: Addr, mid: Mid, depth: nat) {
    && InWait(s, t)
    && CallOf(PcOf(s, t)).value.addr == a && CallOf(PcOf(s, t)).value.mid == mid && CallOf(PcOf(s, t)).value.depth == depth
    && (PcOf(s, t).Locking? ==> PcOf(s, t).mid == mid)
  }

  lemma WaitStarts(s: State, t: Tid, c: Addr, a: Addr, timed: bool, mid: Mid)
    requires Enabled(s, WaitOp(t, c, a, timed)) && Named(s, a, mid) && InWait(Wait(s, t, c, a, timed).0, t)
    ensures Inside(Wait(s, t, c, a, timed).0, t, a, mid, Holds(s, t, mid))
  {
    hide Unlock;
    var s1 := SearchCond(s, c).0;
    SearchNamed(s1, a, a, mid);
    HoldsSame(s, s1);
    UnlockPlaces(s1, t, a);
  }

  lemma ResumeInside(s: State, t: Tid, a: Addr, mid: Mid, depth: nat)
    requires Sane(s, t) && Named(s, a, mid) && Inside(s, t, a, mid, depth) && InWait(Resume(s, t).0, t)
    ensures Inside(Resume(s, t).0, t, a, mid, depth)
  {
    match PcOf(s, t)
    case Sleeping(call) => SearchNamed(s, a, a, mid);
    case _ =>
  }

  lemma StepInside(s: State, op: Op, t: Tid, a: Addr, mid: Mid, depth: nat)
    requires Enabled(s, op) && Named(s, a, mid) && Inside(s, t, a, mid, depth) && InWait(Do(s, op), t)
    ensures Inside(Do(s, op), t, a, mid, depth)
  {
    hide Lock, Unlock, TryLock, Wait, Resume, Search, Destroy, Named, Init, Signal, Broadcast;
    if Mover(op) != Some(t) {
      OthersStay(s, op, t);
    } else if op.ResumeOp? {
      ResumeInside(s, t, a, mid, depth);
    }
  }

  /** While `t` waits, nobody takes the name away; then it stays inside the same wait. */
  lemma {:induction false} RunInside(ss: seq<State>, ops: seq<Op>, i: nat, j: nat, t: Tid, mid: Mid)
    requires Execution(ss, ops) && i < j <= |ops| && ops[i].WaitOp? && ops[i].t == t && Named(ss[i], ops[i].a, mid)
    requires forall k :: i < k <= j ==> InWait(ss[k], t)
    requires forall k :: i <= k < j ==> !Unnames(ss[k], ops[k], ops[i].a, mid)
    ensures Named(ss[j], ops[i].a, mid) && Inside(ss[j], t, ops[i].a, mid, Holds(ss[i], t, mid))
    decreases j
  {
    hide Do, Enabled, Named, Inside, InWait, Unnames, Holds;
    var k := j - 1;
    assert Enabled(ss[k], ops[k]) && ss[j] == Do(ss[k], ops[k]);
    var a := ops[i].a;
    if k > i {
      RunInside(ss, ops, i, k, t, mid);
      StepInside(ss[k], ops[k], t, a, mid, Holds(ss[i], t, mid));
    } else {
      WaitStarted(ss[k], ops[k], mid);
    }
    NameKept(ss[k], ops[k], a, mid);
  }

  lemma WaitStarted(s: State, op: Op, mid: Mid)
    requires op.WaitOp? && Enabled(s, op) && Named(s, op.a, mid) && InWait(Do(s, op), op.t)
    ensures Inside(Do(s, op), op.t, op.a, mid, Holds(s, op.t, mid))
  {
    WaitStarts(s, op.t, op.c, op.a, op.timed, mid);
  }

  /**
   * A wait called by the holder of the mutex at `a` returns holding it as deep as at the call, 0 or
   * ETIMEDOUT, if in between nobody overwrote or initialised that address or destroyed the mutex.
   */
  lemma RunWaitRegains(ss: seq<State>, ops: seq<Op>, i: nat, j: nat, t: Tid, mid: Mid)
    requires Execution(ss, ops) && i < j < |ops|
    requires ops[i].WaitOp? && ops[i].t == t && Named(ss[i], ops[i].a, mid) && Holds(ss[i], t, mid) > 0
    requires forall k :: i < k <= j ==> InWait(ss[k], t)
    requires forall k :: i <= k < j ==> !Unnames(ss[k], ops[k], ops[i].a, mid)
    requires ops[j] == ResumeOp(t) && Enabled(ss[j], ops[j]) && Resume(ss[j], t).1.Done?
    ensures Holds(ss[j + 1], t, mid) == Holds(ss[i], t, mid)
    ensures Resume(ss[j], t).1.code in {OK, ETIMEDOUT}
  {
    hide Inv, Lock, Retry, Holds, Named, Unnames, Search;
    RunInside(ss, ops, i, j, t, mid);
    RunKeeps(ss, ops, j);
    WaitReturns(ss[j], t);
    SearchNamed(ss[j], ops[i].a, ops[i].a, mid) by {
      assert Mapped(ss[j], ops[i].a) by {
        NamedMapped(ss[j], ops[i].a, mid);
      }
    }
    assert ss[j + 1] == Do(ss[j], ops[j]);
  }

  lemma NamedMapped(s: State, a: Addr, mid: Mid)
    requires Named(s, a, mid)
    ensures Mapped(s, a)
  {}

  lemma RetryNamed(s: State, t: Tid, m: Mid, why: Why, a: Addr, mid: Mid)
    requires Named(s, a, mid) && m in s.mutexes
    ensures Named(Retry(s, t, m, why).0, a, mid)
  {}

  // A run in which thread 1 waits and another thread destroys the free mutex, then signals.

  const CALL := Call(3, 1, 3, 1, false, false)
  const STORED := Initial.(words := map[1 := Word(0, Normal)], cwords := map[1 := 0])
  const HELD := State(map[3 := Mutex(Normal, 1, Some(1), [])], 4, map[1 := Word(3, Normal)], map[], 3, map[1 := 0],
                      map[1 := Idle], {}, [Locked(1, 3)])
  const ASLEEP := State(map[3 := Mutex(Normal, 0, None, [])], 4, map[1 := Word(3, Normal)], map[3 := Cond([1], [1], [])], 4, map[1 := 3],
                        map[1 := Sleeping(CALL)], {1}, [Locked(1, 3), Unlocked(1, 3)])
  const GONE := ASLEEP.(mutexes := map[], words := map[1 := Word(2, Normal)])
  const SIGNALLED := GONE.(conds := map[3 := Cond([], [1], [1])], blocked := {})
  const RETURNED := SIGNALLED.(pcs := map[1 := Idle])

  lemma StoresAndLocks()
    ensures Do(Do(Initial, Poke(1, Word(0, Normal))), PokeCond(1, 0)) == STORED
    ensures Do(STORED, LockOp(1, 1)) == HELD
  {}

  lemma WaitsAndLoses()
    ensures Do(HELD, WaitOp(1, 1, 1, false)) == ASLEEP
  {
    assert [Locked(1, 3)] + [Unlocked(1, 3)] == [Locked(1, 3), Unlocked(1, 3)];
    assert Do(HELD, WaitOp(1, 1, 1, false)).mutexes == ASLEEP.mutexes;
    var c := Do(HELD, WaitOp(1, 1, 1, false)).conds[3];
    assert c.waiting == [1] && c.arrived == [1] && c == ASLEEP.conds[3];
    assert Do(HELD, WaitOp(1, 1, 1, false)).conds == ASLEEP.conds;
    assert Do(HELD, WaitOp(1, 1, 1, false)).pcs == ASLEEP.pcs;
    assert Do(HELD, WaitOp(1, 1, 1, false)).log == ASLEEP.log;
  }

  lemma DestroysAndSignals()
    ensures Do(ASLEEP, DestroyOp(1)) == GONE
    ensures Do(GONE, SignalOp(1)) == SIGNALLED
    ensures Do(SIGNALLED, ResumeOp(1)) == RETURNED && Resume(SIGNALLED, 1).1 == Done(OK)
  {
    var c := Do(GONE, SignalOp(1)).conds[3];
    assert c.waiting == [] && c.woken == [1] && c == SIGNALLED.conds[3];
    assert Do(GONE, SignalOp(1)).blocked == {};
    assert Do(GONE, SignalOp(1)).conds == SIGNALLED.conds;
  }

  /** The wait returns 0 to a thread that held the mutex at the call and holds nothing now. */
  lemma DestroyedWhileWaiting() returns (ss: seq<State>, ops: seq<Op>)
    ensures Execution(ss, ops) && |ops| == 7
    ensures ops[3] == WaitOp(1, 1, 1, false) && Holds(ss[3], 1, 3) == 1
    ensures ops[6] == ResumeOp(1) && Sane(ss[6], 1) && Resume(ss[6], 1).1 == Done(OK)
    ensures forall mid {:trigger Holds(ss[7], 1, mid)} :: Holds(ss[7], 1, mid) == 0
  {
    ops := [Poke(1, Word(0, Normal)), PokeCond(1, 0), LockOp(1, 1), WaitOp(1, 1, 1, false),
            DestroyOp(1), SignalOp(1), ResumeOp(1)];
    ss := [Initial, Do(Initial, ops[0]), STORED, HELD, ASLEEP, GONE, SIGNALLED, RETURNED];
    DestroyedRun(ss, ops);
  }

  lemma DestroyedRun(ss: seq<State>, ops: seq<Op>)
    requires ops == [Poke(1, Word(0, Normal)), PokeCond(1, 0), LockOp(1, 1), WaitOp(1, 1, 1, false),
                     DestroyOp(1), SignalOp(1), ResumeOp(1)]
    requires ss == [Initial, Do(Initial, Poke(1, Word(0, Normal))), STORED, HELD, ASLEEP, GONE, SIGNALLED, RETURNED]
    ensures Execution(ss, ops) && Sane(SIGNALLED, 1) && Resume(SIGNALLED, 1).1 == Done(OK)
  {
    hide Do, Resume;
    StoresAndLocks();
    WaitsAndLoses();
    DestroysAndSignals();
  }
}
