/** What each call on a mutex or condition variable does, said of the words, mutexes and lists before it. */
module SyncSteps {
  import opened Basics
  import opened Sync
  import opened SyncRuns

  // ----- What the addresses stand for -----

  /** The mutex meant by an address: of the id in its word, or the next new one if that is 0. */
  ghost function Meant(s: State, a: Addr): Option<Mid>
    requires Mapped(s, a)
  {
    if a == 0 then None
    else if s.words[a].id == 0 then Some(s.nextMid)
    else if s.words[a].id in s.mutexes then Some(s.words[a].id)
    else None
  }

  /** That mutex when the call begins; one not yet made is free and of the kind the program stored. */
  ghost function Before(s: State, a: Addr): Mutex
    requires Mapped(s, a) && Meant(s, a).Some?
  {
    if s.words[a].id == 0 then Mutex(s.words[a].kind, 0, None, []) else s.mutexes[s.words[a].id]
  }

  /** The condition variable meant by an address. */
  ghost function CondMeant(s: State, c: Addr): Option<Cid>
    requires CondMapped(s, c)
  {
    if c == 0 then None
    else if s.cwords[c] == 0 then Some(s.nextCid)
    else if s.cwords[c] in s.conds then Some(s.cwords[c])
    else None
  }

  ghost function CondBefore(s: State, c: Addr): Cond
    requires CondMapped(s, c) && CondMeant(s, c).Some?
  {
    if s.cwords[c] == 0 then Cond([], [], []) else s.conds[s.cwords[c]]
  }

  // ----- What changes and what does not -----

  ghost predicate SameMutexes(s: State, s': State) {
    s'.mutexes == s.mutexes && s'.words == s.words && s'.nextMid == s.nextMid
  }

  ghost predicate SameConds(s: State, s': State) {
    s'.conds == s.conds && s'.cwords == s.cwords && s'.nextCid == s.nextCid
  }

  /** The mutex meant by `a` becomes `m` and the word at `a` names it; every other mutex and word stays. */
  ghost predicate Becomes(s: State, a: Addr, s': State, m: Mutex)
    requires Mapped(s, a) && Meant(s, a).Some?
  {
    var mid := Meant(s, a).value;
    && s'.mutexes == s.mutexes[mid := m]
    && s'.words == s.words[a := Word(mid, s.words[a].kind)]
    && s'.nextMid == s.nextMid + (if s.words[a].id == 0 then 1 else 0)
  }

  ghost predicate CondBecomes(s: State, c: Addr, s': State, v: Cond)
    requires CondMapped(s, c) && CondMeant(s, c).Some?
  {
    var cid := CondMeant(s, c).value;
    && s'.conds == s.conds[cid := v]
    && s'.cwords == s.cwords[c := cid]
    && s'.nextCid == s.nextCid + (if s.cwords[c] == 0 then 1 else 0)
  }

  /** `t` is at `pc` now and everybody else is where they were. */
  ghost predicate Moves(s: State, s': State, t: Tid, pc: Pc) {
    forall u: Tid {:trigger PcOf(s', u)} :: PcOf(s', u) == if u == t then pc else PcOf(s, u)
  }

  // ----- Locking -----

  /** A lock call of `t` on the mutex meant by `a`, with its answer. */
  ghost predicate LocksAs(s: State, t: Tid, a: Addr, why: Why, s': State, r: Result)
    requires Mapped(s, a)
  {
    && SameConds(s, s')
    && if Meant(s, a) == None then
         && r == Done(EINVAL) && SameMutexes(s, s') && Moves(s, s', t, Idle) && s'.blocked == s.blocked && s'.log == s.log
       else
         var mid, m := Meant(s, a).value, Before(s, a);
         if m.current == None || (m.current == Some(t) && m.kind == Recursive) then
           && r == Done(OK) && Becomes(s, a, s', Mutex(m.kind, m.count + 1, Some(t), m.waiting))
           && Moves(s, s', t, Idle) && s'.blocked == s.blocked && s'.log == s.log + [Locked(t, mid)]
         else if m.current == Some(t) then
           && r == Done(EDEADLK) && Becomes(s, a, s', m)
           && Moves(s, s', t, Idle) && s'.blocked == s.blocked && s'.log == s.log
         else
           && r == Blocks && Becomes(s, a, s', Mutex(m.kind, m.count, m.current, m.waiting + [t]))
           && Moves(s, s', t, Locking(mid, why)) && s'.blocked == s.blocked + {t} && s'.log == s.log
  }

  lemma SearchMeant(s: State, a: Addr)
    requires Inv(s) && Mapped(s, a)
    ensures var (s1, found) := Search(s, a);
            && found == Meant(s, a)
            && (found == None ==> s1 == s)
            && (found.Some? ==> a != 0 && Becomes(s, a, s1, Before(s, a)) && s1 == s.(mutexes := s1.mutexes, words := s1.words, nextMid := s1.nextMid))
  {
    hide Good, Placed, Balanced, FreshIds, Calls, InOrder;
    NextMidFresh(s);
    if Meant(s, a).Some? && s.words[a].id != 0 {
      assert s.words[a := Word(s.words[a].id, s.words[a].kind)] == s.words;
    }
  }

  lemma LockSays(s: State, t: Tid, a: Addr, why: Why)
    requires Inv(s) && Mapped(s, a)
    ensures LocksAs(s, t, a, why, Lock(s, t, a, why).0, Lock(s, t, a, why).1)
  {
    hide Inv, Search, Meant, Before, LockMutex, Becomes;
    SearchMeant(s, a);
    var (s1, found) := Search(s, a);
    if found.Some? {
      Updated(s, a, s1, Before(s, a));
      LockMutexSays(s1, t, found.value, why);
      BecomesThen(s, a, s1, LockMutex(s1, t, found.value, why).0);
    }
  }

  lemma Updated(s: State, a: Addr, s1: State, m: Mutex)
    requires Mapped(s, a) && Meant(s, a).Some? && Becomes(s, a, s1, m)
    ensures Meant(s, a).value in s1.mutexes && s1.mutexes[Meant(s, a).value] == m
  {}

  /** Nothing but mutex `mid` differs among mutexes and words. */
  ghost predicate OnlyMutex(s: State, s': State, mid: Mid) {
    && s'.words == s.words && s'.nextMid == s.nextMid
    && mid in s'.mutexes && s'.mutexes == s.mutexes[mid := s'.mutexes[mid]]
  }

  lemma AcquireSays(s: State, t: Tid, mid: Mid, why: Why)
    requires mid in s.mutexes
    ensures var (s', r) := Acquire(s, t, mid, why);
            var m := s.mutexes[mid];
            && OnlyMutex(s, s', mid) && SameConds(s, s')
            && if m.current == None then
                 && r == Done(OK) && s'.mutexes[mid] == Mutex(m.kind, m.count + 1, Some(t), m.waiting)
                 && Moves(s, s', t, Idle) && s'.blocked == s.blocked && s'.log == s.log + [Locked(t, mid)]
               else
                 && r == Blocks && s'.mutexes[mid] == Mutex(m.kind, m.count, m.current, m.waiting + [t])
                 && Moves(s, s', t, Locking(mid, why)) && s'.blocked == s.blocked + {t} && s'.log == s.log
  {
    hide Moves;
    var s' := Acquire(s, t, mid, why).0;
    MovesTo(s, s', t, s'.pcs[t]);
  }

  lemma LockMutexSays(s: State, t: Tid, mid: Mid, why: Why)
    requires mid in s.mutexes
    ensures var (s', r) := LockMutex(s, t, mid, why);
            var m := s.mutexes[mid];
            && OnlyMutex(s, s', mid) && SameConds(s, s')
            && if m.current == None || (m.current == Some(t) && m.kind == Recursive) then
                 && r == Done(OK) && s'.mutexes[mid] == Mutex(m.kind, m.count + 1, Some(t), m.waiting)
                 && Moves(s, s', t, Idle) && s'.blocked == s.blocked && s'.log == s.log + [Locked(t, mid)]
               else if m.current == Some(t) then
                 && r == Done(EDEADLK) && s'.mutexes[mid] == m
                 && Moves(s, s', t, Idle) && s'.blocked == s.blocked && s'.log == s.log
               else
                 && r == Blocks && s'.mutexes[mid] == Mutex(m.kind, m.count, m.current, m.waiting + [t])
                 && Moves(s, s', t, Locking(mid, why)) && s'.blocked == s.blocked + {t} && s'.log == s.log
  {
    hide Moves, Acquire;
    var s', m := LockMutex(s, t, mid, why).0, s.mutexes[mid];
    if m.current == Some(t) {
      MovesTo(s, s', t, Idle);
      assert s.mutexes[mid := m] == s.mutexes;
    } else {
      AcquireSays(s, t, mid, why);
    }
  }

  lemma MovesTo(s: State, s': State, t: Tid, pc: Pc)
    requires s'.pcs == s.pcs[t := pc]
    ensures Moves(s, s', t, pc)
  {}

  lemma BecomesThen(s: State, a: Addr, s1: State, s': State)
    requires Mapped(s, a) && Meant(s, a).Some? && Becomes(s, a, s1, Before(s, a)) && OnlyMutex(s1, s', Meant(s, a).value)
    ensures Becomes(s, a, s', s'.mutexes[Meant(s, a).value])
  {
    hide Meant, Before;
  }

  /** In every run a lock call does and answers this. */
  lemma RunLocks(ss: seq<State>, ops: seq<Op>, i: nat)
    requires Execution(ss, ops) && i < |ops| && ops[i].LockOp?
    ensures Mapped(ss[i], ops[i].a) && LocksAs(ss[i], ops[i].t, ops[i].a, ToLock, ss[i + 1], Lock(ss[i], ops[i].t, ops[i].a, ToLock).1)
  {
    hide Inv, Lock, LocksAs;
    RunKeeps(ss, ops, i);
    assert Enabled(ss[i], ops[i]) && ss[i + 1] == Do(ss[i], ops[i]);
    LockSays(ss[i], ops[i].t, ops[i].a, ToLock);
  }

  ghost predicate TriesAs(s: State, t: Tid, a: Addr, s': State, r: Code)
    requires Mapped(s, a)
  {
    && SameConds(s, s') && s'.pcs == s.pcs && s'.blocked == s.blocked
    && if Meant(s, a) == None then r == EINVAL && SameMutexes(s, s') && s'.log == s.log
       else
         var mid, m := Meant(s, a).value, Before(s, a);
         if m.current == None || (m.current == Some(t) && m.kind == Recursive) then
           && r == OK && Becomes(s, a, s', Mutex(m.kind, m.count + 1, Some(t), m.waiting))
           && s'.log == s.log + [Locked(t, mid)]
         else r == EBUSY && Becomes(s, a, s', m) && s'.log == s.log
  }

  lemma TrySays(s: State, t: Tid, a: Addr)
    requires Inv(s) && Mapped(s, a)
    ensures TriesAs(s, t, a, TryLock(s, t, a).0, TryLock(s, t, a).1)
  {
    hide Inv, Search, Meant, Before;
    SearchMeant(s, a);
  }

  /** In every run a trylock call does and answers this. */
  lemma RunTries(ss: seq<State>, ops: seq<Op>, i: nat)
    requires Execution(ss, ops) && i < |ops| && ops[i].TryOp?
    ensures Mapped(ss[i], ops[i].a) && TriesAs(ss[i], ops[i].t, ops[i].a, ss[i + 1], TryLock(ss[i], ops[i].t, ops[i].a).1)
  {
    hide Inv, TryLock, TriesAs;
    RunKeeps(ss, ops, i);
    assert Enabled(ss[i], ops[i]) && ss[i + 1] == Do(ss[i], ops[i]);
    TrySays(ss[i], ops[i].t, ops[i].a);
  }

  // ----- Unlocking and destroying -----

  /** What an unlock by `t` makes of the mutex: its owner holds it once less, and nobody else changes it. */
  ghost predicate LetsGo(s: State, t: Tid, a: Addr, s': State)
    requires Mapped(s, a)
  {
    if Meant(s, a) == None then SameMutexes(s, s') && s'.log == s.log
    else
      var mid, m := Meant(s, a).value, Before(s, a);
      if m.current != Some(t) then Becomes(s, a, s', m) && s'.log == s.log
      else
        && s'.log == s.log + [Unlocked(t, mid)] && m.count > 0
        && Becomes(s, a, s', Mutex(m.kind, m.count - 1, if m.count == 1 then None else Some(t), m.waiting))
  }

  /** The last unlock wakes the first waiter, who stays on the list. */
  ghost function WokenBy(s: State, t: Tid, a: Addr): set<Tid>
    requires Mapped(s, a)
  {
    if Meant(s, a) == None then {}
    else
      var m := Before(s, a);
      if m.current == Some(t) && m.count == 1 && m.waiting != [] then {m.waiting[0]} else {}
  }

  ghost predicate UnlocksAs(s: State, t: Tid, a: Addr, s': State, r: Code)
    requires Mapped(s, a)
  {
    && SameConds(s, s') && s'.pcs == s.pcs && LetsGo(s, t, a, s') && s'.blocked == s.blocked - WokenBy(s, t, a)
    && r == (if Meant(s, a) == None then EINVAL else if Before(s, a).current != Some(t) then EPERM else OK)
  }

  lemma UnlockSays(s: State, t: Tid, a: Addr)
    requires Inv(s) && Mapped(s, a)
    ensures UnlocksAs(s, t, a, Unlock(s, t, a).0, Unlock(s, t, a).1)
    ensures Unlock(s, t, a).2 <==> WokenBy(s, t, a) != {}
  {
    hide Inv, Search;
    SearchMeant(s, a);
    if Meant(s, a).Some? && s.words[a].id != 0 {
      OwnedCounts(s, s.words[a].id);
    }
  }

  lemma OwnedCounts(s: State, mid: Mid)
    requires Inv(s) && mid in s.mutexes
    ensures s.mutexes[mid].current.Some? <==> s.mutexes[mid].count > 0
    ensures 3 <= mid < s.nextMid
  {
    assert Good(s, mid);
  }

  /** In every run an unlock call does and answers this. */
  lemma RunUnlocks(ss: seq<State>, ops: seq<Op>, i: nat)
    requires Execution(ss, ops) && i < |ops| && ops[i].UnlockOp?
    ensures Mapped(ss[i], ops[i].a) && UnlocksAs(ss[i], ops[i].t, ops[i].a, ss[i + 1], Unlock(ss[i], ops[i].t, ops[i].a).1)
  {
    hide Inv, Unlock, UnlocksAs;
    RunKeeps(ss, ops, i);
    assert Enabled(ss[i], ops[i]) && ss[i + 1] == Do(ss[i], ops[i]);
    UnlockSays(ss[i], ops[i].t, ops[i].a);
  }

  /** A destroy call: the mutex goes and its word is marked, unless it is owned or waited for. */
  ghost predicate DestroysAs(s: State, a: Addr, s': State, r: Code)
    requires Mapped(s, a)
  {
    && SameConds(s, s') && s'.pcs == s.pcs && s'.blocked == s.blocked && s'.log == s.log
    && if Meant(s, a) == None then r == EINVAL && SameMutexes(s, s')
       else
         var mid, m := Meant(s, a).value, Before(s, a);
         if m.current != None || m.waiting != [] then r == EBUSY && Becomes(s, a, s', m)
         else
           && r == OK && s'.mutexes == s.mutexes - {mid} && s'.words == s.words[a := Word(2, s.words[a].kind)]
           && s'.nextMid == s.nextMid + (if s.words[a].id == 0 then 1 else 0)
  }

  lemma DestroySays(s: State, a: Addr)
    requires Inv(s) && Mapped(s, a)
    ensures DestroysAs(s, a, Destroy(s, a).0, Destroy(s, a).1)
  {
    hide Inv, Search;
    SearchMeant(s, a);
  }

  /** A new mutex at `a`, whatever was there: of the type asked for, free and with nobody waiting. */
  ghost predicate InitsAs(s: State, a: Addr, attr: Option<nat>, s': State, r: Code)
    requires Mapped(s, a)
  {
    && SameConds(s, s') && s'.pcs == s.pcs && s'.blocked == s.blocked && s'.log == s.log
    && if a == 0 || (attr.Some? && attr.value > 1) then r == EINVAL && SameMutexes(s, s')
       else
         && r == OK && s.nextMid !in s.mutexes && s'.nextMid == s.nextMid + 1
         && s'.mutexes == s.mutexes[s.nextMid := Mutex(if attr == Some(1) then Recursive else Normal, 0, None, [])]
         && s'.words == s.words[a := Word(s.nextMid, s.words[a].kind)]
  }

  /** In every run initialising and destroying a mutex do and answer this. */
  lemma RunMakes(ss: seq<State>, ops: seq<Op>, i: nat)
    requires Execution(ss, ops) && i < |ops|
    ensures ops[i].InitOp? ==> Mapped(ss[i], ops[i].a) && InitsAs(ss[i], ops[i].a, ops[i].attr, ss[i + 1], Init(ss[i], ops[i].a, ops[i].attr).1)
    ensures ops[i].DestroyOp? ==> Mapped(ss[i], ops[i].a) && DestroysAs(ss[i], ops[i].a, ss[i + 1], Destroy(ss[i], ops[i].a).1)
  {
    hide Inv, Destroy, DestroysAs;
    RunKeeps(ss, ops, i);
    assert Enabled(ss[i], ops[i]) && ss[i + 1] == Do(ss[i], ops[i]);
    if ops[i].DestroyOp? {
      DestroySays(ss[i], ops[i].a);
    } else if ops[i].InitOp? {
      FreshMid(ss[i]);
    }
  }

  lemma FreshMid(s: State)
    requires Inv(s)
    ensures s.nextMid !in s.mutexes && s.nextCid !in s.conds
  {
    hide Good, Placed, Balanced, FreshIds, Calls;
    NextMidFresh(s);
  }

  // ----- A static mutex -----

  /** The address names a new mutex, which is `m`; every other mutex and word stays. */
  ghost predicate Made(s: State, a: Addr, s': State, m: Mutex)
    requires a in s.words
  {
    && s.nextMid !in s.mutexes && s'.mutexes == s.mutexes[s.nextMid := m]
    && s'.words == s.words[a := Word(s.nextMid, s.words[a].kind)] && s'.nextMid == s.nextMid + 1
  }

  /** The first call on a statically initialised mutex makes one of exactly the stored kind, and goes on with it. */
  lemma RunStatic(ss: seq<State>, ops: seq<Op>, i: nat, t: Tid, a: Addr)
    requires Execution(ss, ops) && i < |ops| && a != 0 && a in ss[i].words && ss[i].words[a].id == 0
    ensures ops[i] == LockOp(t, a) ==>
              Lock(ss[i], t, a, ToLock).1 == Done(OK) && Made(ss[i], a, ss[i + 1], Mutex(ss[i].words[a].kind, 1, Some(t), []))
    ensures ops[i] == TryOp(t, a) ==>
              TryLock(ss[i], t, a).1 == OK && Made(ss[i], a, ss[i + 1], Mutex(ss[i].words[a].kind, 1, Some(t), []))
    ensures ops[i] == UnlockOp(t, a) ==>
              Unlock(ss[i], t, a).1 == EPERM && Made(ss[i], a, ss[i + 1], Mutex(ss[i].words[a].kind, 0, None, []))
    ensures ops[i].WaitOp? && ops[i].a == a && CondMapped(ss[i], ops[i].c) && CondMeant(ss[i], ops[i].c).Some? ==>
              Made(ss[i], a, ss[i + 1], Mutex(ss[i].words[a].kind, 0, None, []))
    ensures ops[i] == DestroyOp(a) ==>
              && Destroy(ss[i], a).1 == OK && ss[i + 1].mutexes == ss[i].mutexes && ss[i + 1].nextMid == ss[i].nextMid + 1
              && ss[i + 1].words == ss[i].words[a := Word(2, ss[i].words[a].kind)]
  {
    hide Inv, Do, Enabled, Lock, TryLock, Unlock, Destroy, Moves, Wait;
    RunKeeps(ss, ops, i);
    FreshMid(ss[i]);
    match ops[i]
    case LockOp(_, _) => RunLocks(ss, ops, i);
    case TryOp(_, _) => RunTries(ss, ops, i);
    case UnlockOp(_, _) => RunUnlocks(ss, ops, i);
    case WaitOp(_, _, _, _) => RunWaits(ss, ops, i);
    case DestroyOp(_) => RunMakes(ss, ops, i);
    case _ =>
  }

  // ----- Condition variables -----

  /**
   * A wait of `t`: it gives up the mutex once, and joins the end of the list and sleeps, unless that
   * wakes somebody; then it yields first.  A bad condition variable is the only error.
   */
  ghost predicate WaitsAs(s: State, t: Tid, c: Addr, a: Addr, timed: bool, s': State, r: Result)
    requires CondMapped(s, c) && Mapped(s, a)
  {
    if CondMeant(s, c) == None then
      r == Done(EINVAL) && SameMutexes(s, s') && SameConds(s, s') && s'.pcs == s.pcs && s'.blocked == s.blocked && s'.log == s.log
    else
      var v, woken := CondBefore(s, c), WokenBy(s, t, a);
      var call := Call(CondMeant(s, c).value, a, if Meant(s, a).Some? then Meant(s, a).value else 0,
                       if Meant(s, a).Some? && Before(s, a).current == Some(t) then Before(s, a).count else 0, timed, false);
      && r == Blocks && LetsGo(s, t, a, s')
      && if woken != {} then
           CondBecomes(s, c, s', v) && Moves(s, s', t, Releasing(call)) && s'.blocked == s.blocked - woken
         else
           && CondBecomes(s, c, s', Cond(v.waiting + [t], v.arrived + [t], v.woken))
           && Moves(s, s', t, Sleeping(call)) && s'.blocked == s.blocked + {t}
  }

  lemma SearchCondMeant(s: State, c: Addr)
    requires CondMapped(s, c)
    ensures var (s1, found) := SearchCond(s, c);
            && found == CondMeant(s, c)
            && (found == None ==> s1 == s)
            && (found.Some? ==> c != 0 && CondBecomes(s, c, s1, CondBefore(s, c)) && s1 == s.(conds := s1.conds, cwords := s1.cwords, nextCid := s1.nextCid))
  {
    if CondMeant(s, c).Some? && s.cwords[c] != 0 {
      assert s.cwords[c := s.cwords[c]] == s.cwords;
    }
  }

  /** In states that agree on mutexes and words, an address means the same. */
  lemma MeantSame(s: State, s1: State, t: Tid, a: Addr, s': State)
    requires Mapped(s, a) && SameMutexes(s, s1) && s1.log == s.log
    ensures Mapped(s1, a) && Meant(s1, a) == Meant(s, a) && (Meant(s, a).Some? ==> Before(s1, a) == Before(s, a))
    ensures WokenBy(s1, t, a) == WokenBy(s, t, a) && (LetsGo(s1, t, a, s') ==> LetsGo(s, t, a, s'))
  {}

  lemma HoldsMeant(s: State, t: Tid, a: Addr)
    requires Inv(s) && Mapped(s, a)
    ensures Holds(s, t, if Meant(s, a).Some? then Meant(s, a).value else 0) ==
              if Meant(s, a).Some? && Before(s, a).current == Some(t) then Before(s, a).count else 0
  {
    FreshMid(s);
    ReservedFree(s, t);
  }

  lemma WaitSays(s: State, t: Tid, c: Addr, a: Addr, timed: bool)
    requires Inv(s) && CondMapped(s, c) && Mapped(s, a)
    ensures WaitsAs(s, t, c, a, timed, Wait(s, t, c, a, timed).0, Wait(s, t, c, a, timed).1)
  {
    hide Inv, Search, SearchCond, Unlock, LetsGo, WokenBy, Meant, CondMeant, CondBefore, Before, Holds, Moves;
    SearchCondMeant(s, c);
    var (s1, found) := SearchCond(s, c);
    if found.Some? {
      var s' := Wait(s, t, c, a, timed).0;
      SearchCondKeeps(s, c);
      MeantSame(s, s1, t, a, Unlock(s1, t, a).0);
      SearchMeant(s1, a);
      HoldsMeant(s1, t, a);
      UnlockSays(s1, t, a);
      MeantSame(s, s1, t, a, s');
      LetsGoSame(s1, t, a, Unlock(s1, t, a).0, s');
      MovesTo(s, s', t, s'.pcs[t]);
    }
  }

  lemma LetsGoSame(s: State, t: Tid, a: Addr, s1: State, s': State)
    requires Mapped(s, a) && LetsGo(s, t, a, s1) && SameMutexes(s1, s') && s'.log == s1.log
    ensures LetsGo(s, t, a, s')
  {}

  /** In every run a wait on a condition variable does and answers this. */
  lemma RunWaits(ss: seq<State>, ops: seq<Op>, i: nat)
    requires Execution(ss, ops) && i < |ops| && ops[i].WaitOp?
    ensures Mapped(ss[i], ops[i].a) && CondMapped(ss[i], ops[i].c)
    ensures WaitsAs(ss[i], ops[i].t, ops[i].c, ops[i].a, ops[i].timed, ss[i + 1],
                    Wait(ss[i], ops[i].t, ops[i].c, ops[i].a, ops[i].timed).1)
  {
    hide Inv, Wait, WaitsAs;
    RunKeeps(ss, ops, i);
    assert Enabled(ss[i], ops[i]) && ss[i + 1] == Do(ss[i], ops[i]);
    WaitSays(ss[i], ops[i].t, ops[i].c, ops[i].a, ops[i].timed);
  }

  /** A signal takes the first thread off the list and wakes it; a broadcast all of them. */
  ghost predicate SignalsAs(s: State, c: Addr, all: bool, s': State, r: Code)
    requires CondMapped(s, c)
  {
    && SameMutexes(s, s') && s'.pcs == s.pcs && s'.log == s.log
    && if CondMeant(s, c) == None then r == EINVAL && SameConds(s, s') && s'.blocked == s.blocked
       else
         var v := CondBefore(s, c);
         var k := if all then |v.waiting| else if v.waiting == [] then 0 else 1;
         && r == OK && CondBecomes(s, c, s', Cond(v.waiting[k..], v.arrived, v.woken + v.waiting[..k]))
         && forall t {:trigger t in s'.blocked} :: t in s'.blocked <==> t in s.blocked && t !in v.waiting[..k]
  }

  lemma SignalSays(s: State, c: Addr)
    requires CondMapped(s, c)
    ensures SignalsAs(s, c, false, Signal(s, c).0, Signal(s, c).1)
  {
    hide SearchCond, CondMeant, CondBefore;
    SearchCondMeant(s, c);
    if CondMeant(s, c).Some? {
      var v := CondBefore(s, c);
      assert v.waiting[0..] == v.waiting && v.woken + v.waiting[..0] == v.woken;
      assert v.waiting != [] ==> v.waiting[..1] == [v.waiting[0]];
    }
  }

  lemma BroadcastSays(s: State, c: Addr)
    requires CondMapped(s, c)
    ensures SignalsAs(s, c, true, Broadcast(s, c).0, Broadcast(s, c).1)
  {
    hide SearchCond, CondMeant, CondBefore;
    SearchCondMeant(s, c);
    if CondMeant(s, c).Some? {
      var v := CondBefore(s, c);
      assert v.waiting[..|v.waiting|] == v.waiting && v.waiting[|v.waiting|..] == [];
    }
  }

  /** A new condition variable at `c`, whatever was there. */
  ghost predicate InitsCondAs(s: State, c: Addr, s': State, r: Code) {
    && SameMutexes(s, s') && s'.pcs == s.pcs && s'.log == s.log && s'.blocked == s.blocked
    && if c == 0 then r == EINVAL && SameConds(s, s')
       else
         && r == OK && s.nextCid !in s.conds && s'.nextCid == s.nextCid + 1
         && s'.conds == s.conds[s.nextCid := Cond([], [], [])] && s'.cwords == s.cwords[c := s.nextCid]
  }

  /** In every run a signal, a broadcast and an initialisation do and answer this. */
  lemma RunSignals(ss: seq<State>, ops: seq<Op>, i: nat)
    requires Execution(ss, ops) && i < |ops|
    ensures ops[i].SignalOp? ==> CondMapped(ss[i], ops[i].c) && SignalsAs(ss[i], ops[i].c, false, ss[i + 1], Signal(ss[i], ops[i].c).1)
    ensures ops[i].BroadcastOp? ==> CondMapped(ss[i], ops[i].c) && SignalsAs(ss[i], ops[i].c, true, ss[i + 1], Broadcast(ss[i], ops[i].c).1)
    ensures ops[i].InitCondOp? ==> InitsCondAs(ss[i], ops[i].c, ss[i + 1], InitCond(ss[i], ops[i].c).1)
  {
    hide Inv, Signal, Broadcast, SignalsAs;
    RunKeeps(ss, ops, i);
    assert Enabled(ss[i], ops[i]) && ss[i + 1] == Do(ss[i], ops[i]);
    match ops[i]
    case SignalOp(c) => SignalSays(ss[i], c);
    case BroadcastOp(c) => BroadcastSays(ss[i], c);
    case InitCondOp(c) => FreshMid(ss[i]);
    case _ =>
  }

  // ----- Running on inside a call -----

  /** A woken thread takes itself off the list and takes the mutex, if it is free by now, or waits again at the end. */
  ghost predicate RetriesAs(s: State, t: Tid, mid: Mid, why: Why, s': State, r: Result) {
    && mid in s.mutexes && mid in s'.mutexes && SameConds(s, s') && s'.words == s.words && s'.nextMid == s.nextMid
    && var m := s.mutexes[mid];
       var m' := s'.mutexes[mid];
       && s'.mutexes == s.mutexes[mid := m'] && m'.kind == m.kind
       && if m.current == None then
            && r == Done(if why.ToRelock? && why.call.expired then ETIMEDOUT else OK)
            && m'.count == m.count + 1 && m'.current == Some(t) && TakenOut(m.waiting, t, m'.waiting)
            && Moves(s, s', t, Idle) && s'.blocked == s.blocked && s'.log == s.log + [Locked(t, mid)]
          else
            && r == Blocks && m'.count == m.count && m'.current == m.current
            && 0 < |m'.waiting| == |m.waiting| && m'.waiting[|m'.waiting| - 1] == t && TakenOut(m.waiting, t, m'.waiting[..|m'.waiting| - 1])
            && Moves(s, s', t, Locking(mid, why)) && s'.blocked == s.blocked + {t} && s'.log == s.log
  }

  /** What a thread inside a call does when it runs: try again, join the list it was going to, or lock for its wait. */
  ghost predicate ResumesAs(s: State, t: Tid, s': State, r: Result) {
    match PcOf(s, t)
    case Idle => false
    case Locking(mid, why) => RetriesAs(s, t, mid, why, s', r)
    case Releasing(call) =>
      && r == Blocks && call.cid in s.conds && SameMutexes(s, s') && s'.cwords == s.cwords && s'.nextCid == s.nextCid
      && var v := s.conds[call.cid];
         && s'.conds == s.conds[call.cid := Cond(v.waiting + [t], v.arrived + [t], v.woken)]
         && Moves(s, s', t, Sleeping(call)) && s'.blocked == s.blocked + {t} && s'.log == s.log
    case Sleeping(call) =>
      && Mapped(s, call.addr)
      && exists q :: LocksAs(s, t, call.addr, ToRelock(call), s', q)
                     && r == if q == Blocks then Blocks else Done(if call.expired then ETIMEDOUT else OK)
  }

  lemma RetrySays(s: State, t: Tid, mid: Mid, why: Why)
    requires Inv(s) && PcOf(s, t) == Locking(mid, why) && Sane(s, t)
    ensures RetriesAs(s, t, mid, why, Resume(s, t).0, Resume(s, t).1)
  {
    hide Inv, Acquire, Moves, Removed, TakenOut;
    WaitsOnce(s, t, mid, why);
    var m := s.mutexes[mid];
    var w := Removed(m.waiting, t);
    RemovedTakes(m.waiting, t);
    var s1 := SetMutex(s, mid, m.(waiting := w));
    AcquireSays(s1, t, mid, why);
    MovesSame(s, s1, Resume(s, t).0, t);
    assert (w + [t])[..|m.waiting| - 1] == w;
  }

  lemma WaitsOnce(s: State, t: Tid, mid: Mid, why: Why)
    requires Inv(s) && PcOf(s, t) == Locking(mid, why) && Sane(s, t)
    ensures mid in s.mutexes && NoDup(s.mutexes[mid].waiting) && t in s.mutexes[mid].waiting
  {
    hide FreshIds, Balanced, InOrder, Calls;
    assert Good(s, mid) && RetryingOn(s, t, mid);
  }

  lemma MovesSame(s: State, s1: State, s': State, t: Tid)
    requires s1.pcs == s.pcs
    ensures forall pc :: Moves(s1, s', t, pc) ==> Moves(s, s', t, pc)
  {}

  lemma ResumeSays(s: State, t: Tid)
    requires Inv(s) && Enabled(s, ResumeOp(t))
    ensures ResumesAs(s, t, Resume(s, t).0, Resume(s, t).1)
  {
    hide Inv, Lock, Retry, RetriesAs, LocksAs, Moves;
    match PcOf(s, t)
    case Locking(mid, why) => RetrySays(s, t, mid, why);
    case Releasing(call) => MovesTo(s, Resume(s, t).0, t, Sleeping(call));
    case Sleeping(call) => LockSays(s, t, call.addr, ToRelock(call));
  }

  /** In every run a thread that is not blocked runs on like this. */
  lemma RunResumes(ss: seq<State>, ops: seq<Op>, i: nat)
    requires Execution(ss, ops) && i < |ops| && ops[i].ResumeOp?
    ensures Enabled(ss[i], ops[i]) && ResumesAs(ss[i], ops[i].t, ss[i + 1], Resume(ss[i], ops[i].t).1)
  {
    hide Inv, Resume, ResumesAs;
    RunKeeps(ss, ops, i);
    assert Enabled(ss[i], ops[i]) && ss[i + 1] == Do(ss[i], ops[i]);
    ResumeSays(ss[i], ops[i].t);
  }

  /** A thread woken for no reason stays where it is in its call; one whose time is over is still on the list. */
  lemma RunWakes(ss: seq<State>, ops: seq<Op>, i: nat)
    requires Execution(ss, ops) && i < |ops| && (ops[i].NudgeOp? || ops[i].ExpireOp?)
    ensures var s, s', t := ss[i], ss[i + 1], ops[i].t;
            && SameMutexes(s, s') && SameConds(s, s') && s'.log == s.log && t in s.blocked && s'.blocked == s.blocked - {t}
            && (ops[i].NudgeOp? ==> s'.pcs == s.pcs)
            && (ops[i].ExpireOp? ==> PcOf(s, t).Sleeping? && PcOf(s, t).call.timed
                                     && Moves(s, s', t, Sleeping(PcOf(s, t).call.(expired := true))))
  {
    assert Enabled(ss[i], ops[i]) && ss[i + 1] == Do(ss[i], ops[i]);
  }
}
