/**
 * What holds of mutexes and condition variables in every run, whatever the interleaving.
 *
 * The invariant has two parts that rarely meet.  `Locks` is about each mutex by itself: its
 * owner, count and list, and the places of the threads on it.  A step touches one mutex and one
 * thread, so it is enough to look at that mutex (`LocksAt`), or at none (`ElsewhereLocks`).
 * `Account` compares what threads hold with the log of their calls.  A step either changes
 * nobody's hold (`QuietAccount`) or gives or takes one and logs it (`NotedAccount`).  Every
 * operation is brought under one case of each, then the calls are put together from the
 * operations, and `RunKeeps` from the calls.
 */
module SyncRuns {
  import opened Basics
  import opened Sync

  lemma {:induction false} BalanceGrows(log: seq<Event>, e: Event, t: Tid, mid: Mid)
    ensures Balance(log + [e], t, mid) ==
              Balance(log, t, mid) + if e == Locked(t, mid) then 1 else if e == Unlocked(t, mid) then -1 else 0
  {
    assert (log + [e])[..|log|] == log;
  }

  // ----- The account of locks and unlocks -----

  ghost predicate Account(s: State) {
    Balanced(s) && FreshIds(s) && Calls(s)
  }

  /** Nobody's hold on a mutex changes; at most `t` moves. */
  ghost predicate Quiet(s: State, s': State, t: Tid) {
    && s'.log == s.log && s'.nextMid >= s.nextMid
    && (forall mid :: mid in s'.mutexes && mid !in s.mutexes ==> mid >= s.nextMid)
    && (forall u, mid {:trigger Holds(s', u, mid)} :: Holds(s', u, mid) == Holds(s, u, mid))
    && (forall mid :: mid in s.mutexes && mid in s'.mutexes ==> s'.mutexes[mid].kind == s.mutexes[mid].kind)
    && (forall u {:trigger PcOf(s', u)} :: u != t ==> PcOf(s', u) == PcOf(s, u))
  }

  lemma OnceLessKept(s: State, s': State, t: Tid, call: Call)
    requires OnceLess(s, t, call) && Holds(s', t, call.mid) == Holds(s, t, call.mid)
    requires forall mid :: mid in s.mutexes && mid in s'.mutexes ==> s'.mutexes[mid].kind == s.mutexes[mid].kind
    ensures OnceLess(s', t, call)
  {}

  lemma QuietAccount(s: State, s': State, t: Tid)
    requires Account(s) && Quiet(s, s', t) && LetGo(s', t)
    ensures Account(s')
  {
    hide Holds, Balance, PcOf, OnceLess, CallOf;
    forall u: Tid, mid: Mid {:trigger Holds(s', u, mid)} | mid in s'.mutexes ensures Balance(s'.log, u, mid) == Holds(s', u, mid) {
      if mid !in s.mutexes {
        HoldsNothing(s, u, mid);
      }
    }
    forall u: Tid ensures LetGo(s', u) {
      if u != t {
        assert LetGo(s, u);
        if CallOf(PcOf(s, u)).Some? {
          OnceLessKept(s, s', u, CallOf(PcOf(s, u)).value);
        }
      }
    }
  }

  lemma HoldsNothing(s: State, u: Tid, mid: Mid)
    requires mid !in s.mutexes
    ensures Holds(s, u, mid) == 0
  {}

  /** `t` gains or loses one hold on `mid`, and the log says so. */
  ghost predicate Noted(s: State, s': State, t: Tid, mid: Mid, e: Event) {
    && (e == Locked(t, mid) || e == Unlocked(t, mid))
    && s'.log == s.log + [e] && s'.nextMid == s.nextMid && mid < s.nextMid
    && mid in s.mutexes && s'.mutexes.Keys == s.mutexes.Keys
    && Holds(s', t, mid) == Holds(s, t, mid) + (if e.Locked? then 1 else -1)
    && (forall u, m {:trigger Holds(s', u, m)} :: u != t || m != mid ==> Holds(s', u, m) == Holds(s, u, m))
    && (forall m :: m in s.mutexes ==> s'.mutexes[m].kind == s.mutexes[m].kind)
    && (forall u {:trigger PcOf(s', u)} :: u != t ==> PcOf(s', u) == PcOf(s, u))
  }

  lemma NotedAccount(s: State, s': State, t: Tid, mid: Mid, e: Event)
    requires Account(s) && Noted(s, s', t, mid, e) && LetGo(s', t)
    ensures Account(s')
  {
    hide Holds, Balance, PcOf, OnceLess, CallOf;
    forall u: Tid, m: Mid {:trigger Holds(s', u, m)} | m in s'.mutexes ensures Balance(s'.log, u, m) == Holds(s', u, m) {
      BalanceGrows(s.log, e, u, m);
      assert Balance(s.log, u, m) == Holds(s, u, m);
    }
    forall u: Tid, m: Mid {:trigger Balance(s'.log, u, m)} | m >= s'.nextMid ensures Balance(s'.log, u, m) == 0 {
      BalanceGrows(s.log, e, u, m);
    }
    forall u: Tid ensures LetGo(s', u) {
      if u != t {
        assert LetGo(s, u);
        if CallOf(PcOf(s, u)).Some? {
          OnceLessKept(s, s', u, CallOf(PcOf(s, u)).value);
        }
      }
    }
  }

  // ----- Steps on one mutex -----

  /** At most mutex `mid`, thread `t` and the set of blocked threads differ. */
  ghost predicate At(s: State, s': State, mid: Mid, t: Tid) {
    && mid in s.mutexes && mid in s'.mutexes && s'.mutexes == s.mutexes[mid := s'.mutexes[mid]] && s'.nextMid == s.nextMid
    && s'.words.Keys >= s.words.Keys && s'.conds.Keys >= s.conds.Keys
    && (forall u {:trigger PcOf(s', u)} :: u != t ==> PcOf(s', u) == PcOf(s, u))
    && (forall u {:trigger u in s'.blocked} :: u in s'.blocked ==> u in s.blocked || u == t)
  }

  lemma LocksAt(s: State, s': State, mid: Mid, t: Tid)
    requires Locks(s) && At(s, s', mid, t) && Good(s', mid)
    requires PcOf(s, t).Locking? ==> PcOf(s, t).mid == mid
    requires PcOf(s', t).Locking? ==> PcOf(s', t).mid == mid
    requires Placed(s', t)
    ensures Locks(s')
  {
    hide PcOf, NoDup;
    forall m | m in s'.mutexes ensures Good(s', m) {
      if m != mid {
        OtherGood(s, s', mid, t, m);
      }
    }
    forall u: Tid ensures Placed(s', u) {
      if u != t {
        assert Placed(s, u) && PcOf(s', u) == PcOf(s, u);
      }
    }
  }

  lemma OtherGood(s: State, s': State, mid: Mid, t: Tid, m: Mid)
    requires Locks(s) && At(s, s', mid, t) && m in s.mutexes && m in s'.mutexes && m != mid
    requires PcOf(s, t).Locking? ==> PcOf(s, t).mid == mid
    requires PcOf(s', t).Locking? ==> PcOf(s', t).mid == mid
    ensures Good(s', m)
  {
    hide PcOf, NoDup, Sane;
    assert Good(s, m);
    forall u {:trigger PcOf(s', u)} {:trigger u in s'.mutexes[m].waiting}
      ensures u in s'.mutexes[m].waiting <==> RetryingOn(s', u, m)
    {
      assert u in s.mutexes[m].waiting <==> RetryingOn(s, u, m);
    }
    if s.mutexes[m].current.None? && s.mutexes[m].waiting != [] {
      var f := s.mutexes[m].waiting[0];
      assert f in s.mutexes[m].waiting && RetryingOn(s, f, m);
    }
  }

  /** `w` is the list of mutex `mid` once `t` is off it. */
  ghost predicate Others(s: State, t: Tid, mid: Mid, w: seq<Tid>) {
    NoDup(w) && forall u {:trigger PcOf(s, u)} {:trigger u in w} :: u in w <==> u != t && RetryingOn(s, u, mid)
  }

  ghost function WithList(s: State, mid: Mid, w: seq<Tid>): State
    requires mid in s.mutexes
  {
    SetMutex(s, mid, s.mutexes[mid].(waiting := w))
  }

  lemma AcquireGood(s: State, t: Tid, mid: Mid, w: seq<Tid>, why: Why)
    requires Locks(s) && mid in s.mutexes && Others(s, t, mid, w) && s.mutexes[mid].current != Some(t)
    ensures var s' := Acquire(WithList(s, mid, w), t, mid, why).0;
            At(s, s', mid, t) && Good(s', mid)
            && PcOf(s', t) == (if s.mutexes[mid].current.Some? then Locking(mid, why) else Idle)
            && (t in s'.blocked ==> t in s.blocked || s.mutexes[mid].current.Some?)
  {
    var s' := Acquire(WithList(s, mid, w), t, mid, why).0;
    assert Good(s, mid);
    forall u {:trigger PcOf(s', u)} ensures u != t ==> PcOf(s', u) == PcOf(s, u) {}
    forall u {:trigger PcOf(s', u)} {:trigger u in s'.mutexes[mid].waiting}
      ensures u in s'.mutexes[mid].waiting <==> RetryingOn(s', u, mid)
    {
      assert u in w <==> u != t && RetryingOn(s, u, mid);
    }
    if s.mutexes[mid].current.Some? {
      assert t !in w;
      NoDupAppend(w, t);
      var o := s.mutexes[mid].current.value;
      assert o in s.mutexes[mid].waiting <==> RetryingOn(s, o, mid);
    }
  }

  lemma AcquireLocks(s: State, t: Tid, mid: Mid, w: seq<Tid>, why: Why)
    requires Locks(s) && mid in s.mutexes && Others(s, t, mid, w) && s.mutexes[mid].current != Some(t) && t !in s.blocked
    requires PcOf(s, t).Locking? ==> PcOf(s, t).mid == mid
    ensures Locks(Acquire(WithList(s, mid, w), t, mid, why).0)
  {
    hide Others, Acquire, Good, Locks;
    AcquireGood(s, t, mid, w, why);
    LocksAt(s, Acquire(WithList(s, mid, w), t, mid, why).0, mid, t);
  }

  lemma AcquireQuiet(s: State, t: Tid, mid: Mid, w: seq<Tid>, why: Why)
    requires mid in s.mutexes && s.mutexes[mid].current.Some?
    ensures var s' := Acquire(WithList(s, mid, w), t, mid, why).0;
            Quiet(s, s', t) && PcOf(s', t) == Locking(mid, why)
  {}

  lemma AcquireNoted(s: State, t: Tid, mid: Mid, w: seq<Tid>, why: Why)
    requires mid in s.mutexes && s.mutexes[mid].current.None? && Good(s, mid)
    ensures var s' := Acquire(WithList(s, mid, w), t, mid, why).0;
            Noted(s, s', t, mid, Locked(t, mid)) && PcOf(s', t) == Idle
  {}

  lemma AcquireAccount(s: State, t: Tid, mid: Mid, w: seq<Tid>, why: Why)
    requires Account(s) && Locks(s) && mid in s.mutexes && s.mutexes[mid].current != Some(t)
    requires why.ToRelock? ==> OnceLess(s, t, why.call)
    ensures Account(Acquire(WithList(s, mid, w), t, mid, why).0)
  {
    hide Account, LetGo, Acquire, Good, OnceLess, PcOf, Noted;
    var s' := Acquire(WithList(s, mid, w), t, mid, why).0;
    GoodAt(s, mid);
    if s.mutexes[mid].current.Some? {
      AcquireQuiet(s, t, mid, w, why);
      AcquireLetGo(s, s', t, mid, why);
      QuietAccount(s, s', t);
    } else {
      AcquireNoted(s, t, mid, w, why);
      IdleLetGo(s', t);
      NotedAccount(s, s', t, mid, Locked(t, mid));
    }
  }

  lemma GoodAt(s: State, mid: Mid)
    requires Locks(s) && mid in s.mutexes
    ensures Good(s, mid)
  {}

  lemma AcquireLetGo(s: State, s': State, t: Tid, mid: Mid, why: Why)
    requires why.ToRelock? ==> OnceLess(s, t, why.call)
    requires why.ToRelock? ==> Holds(s', t, why.call.mid) == Holds(s, t, why.call.mid)
    requires forall m :: m in s.mutexes && m in s'.mutexes ==> s'.mutexes[m].kind == s.mutexes[m].kind
    requires PcOf(s', t) == Locking(mid, why)
    ensures LetGo(s', t)
  {
    if why.ToRelock? {
      OnceLessKept(s, s', t, why.call);
    }
  }

  lemma IdleLetGo(s: State, t: Tid)
    requires PcOf(s, t) == Idle
    ensures LetGo(s, t)
  {}

  /** `t` is neither blocked nor in a retry loop, so it is on no mutex's list. */
  ghost predicate Free(s: State, t: Tid) {
    t !in s.blocked && !PcOf(s, t).Locking?
  }

  lemma FreeOthers(s: State, t: Tid, mid: Mid)
    requires Locks(s) && mid in s.mutexes && Free(s, t)
    ensures Others(s, t, mid, s.mutexes[mid].waiting) && WithList(s, mid, s.mutexes[mid].waiting) == s
  {
    assert Good(s, mid);
    assert !RetryingOn(s, t, mid);
  }

  lemma AgainGood(s: State, t: Tid, mid: Mid)
    requires Locks(s) && mid in s.mutexes && s.mutexes[mid].current == Some(t) && s.mutexes[mid].kind.Recursive? && Free(s, t)
    ensures var s' := LockMutex(s, t, mid, ToLock).0;
            At(s, s', mid, t) && Good(s', mid)
  {
    var s' := LockMutex(s, t, mid, ToLock).0;
    assert Good(s, mid);
    forall u {:trigger PcOf(s', u)} {:trigger u in s'.mutexes[mid].waiting}
      ensures u in s'.mutexes[mid].waiting <==> RetryingOn(s', u, mid)
    {
      assert u in s.mutexes[mid].waiting <==> RetryingOn(s, u, mid);
    }
  }

  /** Everything but a thread's place, words and lists of condition variables is the same. */
  ghost predicate Elsewhere(s: State, s': State, t: Tid) {
    && s'.mutexes == s.mutexes && s'.nextMid == s.nextMid && s'.log == s.log
    && s'.words.Keys >= s.words.Keys && s'.conds.Keys >= s.conds.Keys
    && (forall u {:trigger PcOf(s', u)} :: u != t ==> PcOf(s', u) == PcOf(s, u))
    && (PcOf(s', t) == PcOf(s, t) || (!PcOf(s', t).Locking? && !PcOf(s, t).Locking?))
    && (forall u {:trigger u in s'.blocked} :: u in s'.blocked ==> u in s.blocked || (u == t && !PcOf(s, t).Locking?))
  }

  lemma ElsewhereLocks(s: State, s': State, t: Tid)
    requires Locks(s) && Elsewhere(s, s', t) && Placed(s', t)
    ensures Locks(s')
  {
    hide PcOf, NoDup;
    forall m | m in s'.mutexes ensures Good(s', m) {
      assert Good(s, m);
      forall u {:trigger PcOf(s', u)} {:trigger u in s'.mutexes[m].waiting}
        ensures u in s'.mutexes[m].waiting <==> RetryingOn(s', u, m)
      {
        assert u in s.mutexes[m].waiting <==> RetryingOn(s, u, m);
      }
      if s.mutexes[m].current.None? && s.mutexes[m].waiting != [] {
        var f := s.mutexes[m].waiting[0];
        assert f in s.mutexes[m].waiting && RetryingOn(s, f, m);
      }
    }
    forall u: Tid ensures Placed(s', u) {
      if u != t {
        assert Placed(s, u) && PcOf(s', u) == PcOf(s, u);
      }
    }
  }

  lemma ElsewhereAccount(s: State, s': State, t: Tid)
    requires Account(s) && Elsewhere(s, s', t) && LetGo(s', t)
    ensures Account(s')
  {
    hide Account, LetGo, PcOf;
    QuietAccount(s, s', t);
  }

  lemma LockMutexKeeps(s: State, t: Tid, mid: Mid, why: Why)
    requires Locks(s) && Account(s) && mid in s.mutexes && Free(s, t)
    requires why.ToRelock? ==> OnceLess(s, t, why.call)
    ensures Locks(LockMutex(s, t, mid, why).0) && Account(LockMutex(s, t, mid, why).0)
  {
    hide Locks, Account, LetGo;
    var s' := LockMutex(s, t, mid, why).0;
    if s.mutexes[mid].current != Some(t) {
      FreeOthers(s, t, mid);
      AcquireLocks(s, t, mid, s.mutexes[mid].waiting, why);
      AcquireAccount(s, t, mid, s.mutexes[mid].waiting, why);
    } else if s.mutexes[mid].kind.Recursive? {
      AgainGood(s, t, mid);
      LocksAt(s, s', mid, t);
      IdleLetGo(s', t);
      NotedAccount(s, s', t, mid, Locked(t, mid));
    } else {
      IdleLetGo(s', t);
      ElsewhereLocks(s, s', t);
      ElsewhereAccount(s, s', t);
    }
  }

  // ----- New mutexes -----

  lemma NextMidFresh(s: State)
    requires Locks(s)
    ensures s.nextMid !in s.mutexes
  {
    assert s.nextMid in s.mutexes ==> Good(s, s.nextMid);
  }

  lemma NewMutexLocks(s: State, a: Addr, stored: Kind, kind: Kind)
    requires Locks(s)
    ensures Locks(NewMutex(s, a, stored, kind))
  {
    var s' := NewMutex(s, a, stored, kind);
    forall u {:trigger PcOf(s', u)} ensures PcOf(s', u) == PcOf(s, u) {}
    NextMidFresh(s);
    forall m | m in s'.mutexes ensures Good(s', m) {
      forall u {:trigger PcOf(s', u)} {:trigger u in s'.mutexes[m].waiting}
        ensures u in s'.mutexes[m].waiting <==> RetryingOn(s', u, m)
      {
        assert Placed(s, u);
        if m in s.mutexes {
          assert Good(s, m);
          assert u in s.mutexes[m].waiting <==> RetryingOn(s, u, m);
        }
      }
      if m in s.mutexes {
        assert Good(s, m);
      }
    }
    forall u: Tid ensures Placed(s', u) {
      assert Placed(s, u);
    }
  }

  lemma NewMutexAccount(s: State, a: Addr, stored: Kind, kind: Kind, t: Tid)
    requires Locks(s) && Account(s)
    ensures Account(NewMutex(s, a, stored, kind))
  {
    hide Account;
    var s' := NewMutex(s, a, stored, kind);
    NextMidFresh(s);
    LetGoAt(s, t);
    QuietAccount(s, s', t);
  }

  lemma LetGoAt(s: State, t: Tid)
    requires Account(s)
    ensures LetGo(s, t)
  {}

  lemma SearchKeeps(s: State, a: Addr, t: Tid)
    requires Locks(s) && Account(s) && Mapped(s, a)
    ensures var r := Search(s, a);
            && Locks(r.0) && Account(r.0) && r.0.pcs == s.pcs && r.0.blocked == s.blocked
            && r.0.words.Keys == s.words.Keys
            && r.0.conds == s.conds && r.0.nextCid == s.nextCid && r.0.cwords == s.cwords
            && (r.1.Some? ==> r.1.value in r.0.mutexes)
            && (forall mid :: mid in s.mutexes ==> mid in r.0.mutexes && r.0.mutexes[mid] == s.mutexes[mid])
            && (forall u, mid {:trigger Holds(r.0, u, mid)} :: Holds(r.0, u, mid) == Holds(s, u, mid))
  {
    hide Locks, Account, Holds;
    if a != 0 && s.words[a].id == 0 {
      NewMutexLocks(s, a, s.words[a].kind, s.words[a].kind);
      NewMutexAccount(s, a, s.words[a].kind, s.words[a].kind, t);
      NewMutexHolds(s, a, s.words[a].kind, s.words[a].kind);
      NextMidFresh(s);
    }
  }

  lemma NewMutexHolds(s: State, a: Addr, stored: Kind, kind: Kind)
    requires Locks(s)
    ensures var s' := NewMutex(s, a, stored, kind);
            forall u, mid {:trigger Holds(s', u, mid)} :: Holds(s', u, mid) == Holds(s, u, mid)
  {
    NextMidFresh(s);
  }

  // ----- The calls -----

  lemma LockKeeps(s: State, t: Tid, a: Addr, why: Why)
    requires Locks(s) && Account(s) && Mapped(s, a) && Free(s, t)
    requires why.ToRelock? ==> OnceLess(s, t, why.call)
    ensures Locks(Lock(s, t, a, why).0) && Account(Lock(s, t, a, why).0)
  {
    hide Locks, Account, LetGo, Search;
    SearchKeeps(s, a, t);
    var (s1, found) := Search(s, a);
    match found
    case None =>
      IdleLetGo(SetPc(s1, t, Idle), t);
      ElsewhereLocks(s1, SetPc(s1, t, Idle), t);
      ElsewhereAccount(s1, SetPc(s1, t, Idle), t);
    case Some(mid) =>
      if why.ToRelock? {
        OnceLessKept(s, s1, t, why.call);
      }
      LockMutexKeeps(s1, t, mid, why);
  }

  lemma RetryKeeps(s: State, t: Tid, mid: Mid, why: Why)
    requires Locks(s) && Account(s) && mid in s.mutexes && t !in s.blocked && PcOf(s, t) == Locking(mid, why)
    ensures Locks(Retry(s, t, mid, why).0) && Account(Retry(s, t, mid, why).0)
  {
    var w := Removed(s.mutexes[mid].waiting, t);
    assert Good(s, mid) && RetryingOn(s, t, mid);
    RemovedMembers(s.mutexes[mid].waiting, t);
    RemovedNoDup(s.mutexes[mid].waiting, t);
    assert Others(s, t, mid, w);
    assert LetGo(s, t);
    AcquireLocks(s, t, mid, w, why);
    AcquireAccount(s, t, mid, w, why);
  }

  lemma TakeGood(s: State, t: Tid, mid: Mid)
    requires Locks(s) && mid in s.mutexes && Free(s, t)
    requires var m := s.mutexes[mid]; m.current == None || (m.kind.Recursive? && m.current == Some(t))
    ensures var m := s.mutexes[mid];
            var s' := SetMutex(s, mid, m.(current := Some(t), count := m.count + 1)).(log := s.log + [Locked(t, mid)]);
            At(s, s', mid, t) && Good(s', mid) && Noted(s, s', t, mid, Locked(t, mid))
  {
    var m := s.mutexes[mid];
    var s' := SetMutex(s, mid, m.(current := Some(t), count := m.count + 1)).(log := s.log + [Locked(t, mid)]);
    assert Good(s, mid);
    assert t !in m.waiting <==> !RetryingOn(s, t, mid);
    forall u {:trigger PcOf(s', u)} ensures PcOf(s', u) == PcOf(s, u) {}
    forall u {:trigger PcOf(s', u)} {:trigger u in s'.mutexes[mid].waiting}
      ensures u in s'.mutexes[mid].waiting <==> RetryingOn(s', u, mid)
    {
      assert u in s.mutexes[mid].waiting <==> RetryingOn(s, u, mid);
    }
  }

  lemma TryLockKeeps(s: State, t: Tid, a: Addr)
    requires Locks(s) && Account(s) && Mapped(s, a) && Free(s, t) && PcOf(s, t) == Idle
    ensures Locks(TryLock(s, t, a).0) && Account(TryLock(s, t, a).0)
  {
    hide Locks, Account, LetGo, Search, At, Good, Noted;
    SearchKeeps(s, a, t);
    var (s1, found) := Search(s, a);
    if found.Some? {
      var mid, m := found.value, s1.mutexes[found.value];
      if m.current == None || (m.kind.Recursive? && m.current == Some(t)) {
        var s' := SetMutex(s1, mid, m.(current := Some(t), count := m.count + 1)).(log := s1.log + [Locked(t, mid)]);
        TakeGood(s1, t, mid);
        LocksAt(s1, s', mid, t);
        IdleLetGo(s', t);
        NotedAccount(s1, s', t, mid, Locked(t, mid));
      }
    }
  }

  lemma UnlockGood(s: State, t: Tid, mid: Mid)
    requires Locks(s) && mid in s.mutexes && s.mutexes[mid].current == Some(t)
    ensures var s' := UnlockMutex(s, t, mid).0;
            && At(s, s', mid, t) && Good(s', mid) && Noted(s, s', t, mid, Unlocked(t, mid))
            && s'.pcs == s.pcs && s'.blocked <= s.blocked
  {
    var s' := UnlockMutex(s, t, mid).0;
    assert Good(s, mid);
    forall u {:trigger PcOf(s', u)} ensures PcOf(s', u) == PcOf(s, u) {}
    forall u {:trigger PcOf(s', u)} {:trigger u in s'.mutexes[mid].waiting}
      ensures u in s'.mutexes[mid].waiting <==> RetryingOn(s', u, mid)
    {
      assert u in s.mutexes[mid].waiting <==> RetryingOn(s, u, mid);
    }
  }

  lemma UnlockKeeps(s: State, t: Tid, a: Addr)
    requires Locks(s) && Account(s) && Mapped(s, a) && Free(s, t) && PcOf(s, t) == Idle
    ensures var r := Unlock(s, t, a);
            && Locks(r.0) && Account(r.0) && r.0.pcs == s.pcs && r.0.blocked <= s.blocked
            && r.0.conds == s.conds && r.0.nextCid == s.nextCid && r.0.words.Keys == s.words.Keys && r.0.cwords == s.cwords
  {
    hide Locks, Account, LetGo, Search, At, Good;
    SearchKeeps(s, a, t);
    var (s1, found) := Search(s, a);
    if found.Some? && s1.mutexes[found.value].current == Some(t) {
      var mid := found.value;
      var s' := UnlockMutex(s1, t, mid).0;
      UnlockGood(s1, t, mid);
      LocksAt(s1, s', mid, t);
      IdleLetGo(s', t);
      NotedAccount(s1, s', t, mid, Unlocked(t, mid));
    }
  }

  lemma DestroyLocks(s: State, mid: Mid)
    requires Locks(s) && mid in s.mutexes && s.mutexes[mid].current == None && s.mutexes[mid].waiting == []
    ensures var s' := s.(mutexes := s.mutexes - {mid});
            Locks(s') && forall u, m {:trigger Holds(s', u, m)} :: Holds(s', u, m) == Holds(s, u, m)
  {
    var s' := s.(mutexes := s.mutexes - {mid});
    assert Good(s, mid);
    forall u {:trigger PcOf(s', u)} ensures PcOf(s', u) == PcOf(s, u) && !RetryingOn(s, u, mid) {
      assert u in s.mutexes[mid].waiting <==> RetryingOn(s, u, mid);
    }
    forall m | m in s'.mutexes ensures Good(s', m) {
      assert Good(s, m);
      forall u {:trigger PcOf(s', u)} {:trigger u in s'.mutexes[m].waiting}
        ensures u in s'.mutexes[m].waiting <==> RetryingOn(s', u, m)
      {
        assert u in s.mutexes[m].waiting <==> RetryingOn(s, u, m);
      }
    }
    forall u: Tid ensures Placed(s', u) {
      assert Placed(s, u) && PcOf(s', u) == PcOf(s, u);
    }
  }

  lemma DestroyKeeps(s: State, a: Addr)
    requires Locks(s) && Account(s) && Mapped(s, a)
    ensures Locks(Destroy(s, a).0) && Account(Destroy(s, a).0)
  {
    hide Locks, Account, LetGo, Search, Good, Holds;
    SearchKeeps(s, a, 0);
    var (s1, found) := Search(s, a);
    if found.Some? && s1.mutexes[found.value].current == None && s1.mutexes[found.value].waiting == [] {
      var mid := found.value;
      var s2, s3 := s1.(mutexes := s1.mutexes - {mid}), Destroy(s, a).0;
      DestroyLocks(s1, mid);
      SearchMapped(s, a);
      LetGoSame(s1, s2, 0);
      QuietAccount(s1, s2, 0);
      PlacedSame(s2, s3, 0);
      ElsewhereLocks(s2, s3, 0);
      HoldsSame(s2, s3);
      LetGoSame(s2, s3, 0);
      ElsewhereAccount(s2, s3, 0);
    }
  }

  lemma HoldsSame(s: State, s': State)
    requires s'.mutexes == s.mutexes
    ensures forall u, mid {:trigger Holds(s', u, mid)} :: Holds(s', u, mid) == Holds(s, u, mid)
  {}

  lemma SearchMapped(s: State, a: Addr)
    requires Mapped(s, a) && Search(s, a).1.Some?
    ensures a in Search(s, a).0.words
  {}

  lemma LetGoSame(s: State, s': State, t: Tid)
    requires Account(s) && PcOf(s', t) == PcOf(s, t)
    requires forall u, mid {:trigger Holds(s', u, mid)} :: Holds(s', u, mid) == Holds(s, u, mid)
    requires forall mid :: mid in s.mutexes && mid in s'.mutexes ==> s'.mutexes[mid].kind == s.mutexes[mid].kind
    ensures LetGo(s', t)
  {
    assert LetGo(s, t);
    if CallOf(PcOf(s, t)).Some? {
      OnceLessKept(s, s', t, CallOf(PcOf(s, t)).value);
    }
  }

  lemma PlacedSame(s: State, s': State, t: Tid)
    requires Locks(s) && PcOf(s', t) == PcOf(s, t) && s'.blocked <= s.blocked
    requires s'.mutexes.Keys == s.mutexes.Keys && s'.words.Keys >= s.words.Keys && s'.conds.Keys >= s.conds.Keys
    ensures Placed(s', t)
  {
    assert Placed(s, t);
  }

  // ----- Condition variables -----

  /** Nothing about mutexes or places differs, except that threads may have been woken. */
  lemma CondStepKeeps(s: State, s': State)
    requires Locks(s) && Account(s)
    requires s'.mutexes == s.mutexes && s'.nextMid == s.nextMid && s'.log == s.log && s'.pcs == s.pcs
    requires s'.words.Keys >= s.words.Keys && s'.conds.Keys >= s.conds.Keys && s'.blocked <= s.blocked
    ensures Locks(s') && Account(s')
  {
    hide Locks, Account, LetGo;
    PlacedSame(s, s', 0);
    LetGoSame(s, s', 0);
    ElsewhereLocks(s, s', 0);
    ElsewhereAccount(s, s', 0);
  }

  lemma SearchCondKeeps(s: State, c: Addr)
    requires Inv(s) && CondMapped(s, c)
    ensures var r := SearchCond(s, c);
            Inv(r.0) && r.0.pcs == s.pcs && r.0.blocked == s.blocked && (r.1.Some? ==> r.1.value in r.0.conds) && r.0.words == s.words
  {
    hide Locks, Balanced, FreshIds, Calls;
    CondStepKeeps(s, SearchCond(s, c).0);
  }

  lemma InitCondKeeps(s: State, c: Addr)
    requires Inv(s)
    ensures Inv(InitCond(s, c).0)
  {
    hide Locks, Balanced, FreshIds, Calls;
    CondStepKeeps(s, InitCond(s, c).0);
  }

  lemma SleepKeeps(s: State, t: Tid, call: Call)
    requires Inv(s) && Free(s, t) && call.cid in s.conds && Mapped(s, call.addr)
    requires OnceLess(s, t, call)
    ensures Inv(Sleep(s, t, call))
  {
    hide Locks, Balanced, FreshIds, Calls;
    var s' := Sleep(s, t, call);
    assert LetGo(s', t);
    ElsewhereLocks(s, s', t);
    ElsewhereAccount(s, s', t);
    var c := s.conds[call.cid];
    assert s'.conds[call.cid].arrived == c.woken + (c.waiting + [t]);
  }

  lemma WakeFirstKeeps(s: State, cid: Cid)
    requires Inv(s) && cid in s.conds
    ensures Inv(WakeFirst(s, cid))
  {
    hide Locks, Balanced, FreshIds, Calls;
    var c := s.conds[cid];
    if c.waiting != [] {
      CondStepKeeps(s, WakeFirst(s, cid));
      assert c.waiting == [c.waiting[0]] + c.waiting[1..];
    }
  }

  lemma WakeAllKeeps(s: State, cid: Cid)
    requires Inv(s) && cid in s.conds
    ensures Inv(WakeAll(s, cid))
  {
    hide Locks, Balanced, FreshIds, Calls;
    CondStepKeeps(s, WakeAll(s, cid));
  }

  lemma WaitKeeps(s: State, t: Tid, c: Addr, a: Addr, timed: bool)
    requires Inv(s) && Ready(s, t) && CondMapped(s, c) && Mapped(s, a)
    ensures Inv(Wait(s, t, c, a, timed).0)
  {
    hide Locks, Balanced, FreshIds, Calls, SearchCond, Search, Unlock, Holds;
    SearchCondKeeps(s, c);
    var (s1, found) := SearchCond(s, c);
    if found.Some? {
      var mid := match Search(s1, a).1 case None => 0 case Some(mid) => mid;
      var call := Call(found.value, a, mid, Holds(s1, t, mid), timed, false);
      ReservedFree(s1, t);
      UnlockKeeps(s1, t, a);
      UnlockOnceLess(s1, t, a, call);
      var r := Unlock(s1, t, a);
      if r.2 {
        ReleasingKeeps(r.0, t, call);
      } else {
        SleepKeeps(r.0, t, call);
      }
    }
  }

  /** After the unlock of a condition wait the mutex is held once less than at the call. */
  lemma UnlockOnceLess(s: State, t: Tid, a: Addr, call: Call)
    requires Locks(s) && Mapped(s, a)
    requires call.mid == match Search(s, a).1 case None => 0 case Some(mid) => mid
    requires call.depth == Holds(s, t, call.mid)
    ensures OnceLess(Unlock(s, t, a).0, t, call)
  {
    ReservedFree(s, t);
    NextMidFresh(s);
    if call.depth > 0 {
      assert Good(s, call.mid);
    }
  }

  /** No mutex has a reserved id. */
  lemma ReservedFree(s: State, t: Tid)
    requires Locks(s)
    ensures Holds(s, t, 0) == 0
  {}

  lemma ReleasingKeeps(s: State, t: Tid, call: Call)
    requires Inv(s) && Free(s, t) && call.cid in s.conds && Mapped(s, call.addr)
    requires OnceLess(s, t, call)
    ensures Inv(SetPc(s, t, Releasing(call)))
  {
    hide Locks, Balanced, FreshIds, Calls;
    var s' := SetPc(s, t, Releasing(call));
    assert LetGo(s', t);
    ElsewhereLocks(s, s', t);
    ElsewhereAccount(s, s', t);
  }

  lemma ResumeKeeps(s: State, t: Tid)
    requires Inv(s) && Sane(s, t) && t !in s.blocked
    ensures Inv(Resume(s, t).0)
  {
    hide Locks, Account, Balanced, FreshIds, Calls, Retry, Lock;
    AccountOf(s);
    LetGoAt(s, t);
    match PcOf(s, t)
    case Idle =>
    case Locking(mid, why) =>
      RetryKeeps(s, t, mid, why);
      RetryConds(s, t, mid, why);
      OfAccount(Resume(s, t).0);
    case Releasing(call) =>
      SleepKeeps(s, t, call);
    case Sleeping(call) =>
      LockKeeps(s, t, call.addr, ToRelock(call));
      LockConds(s, t, call.addr, ToRelock(call));
      OfAccount(Resume(s, t).0);
  }

  lemma AccountOf(s: State)
    requires Balanced(s) && FreshIds(s) && Calls(s)
    ensures Account(s)
  {}

  lemma OfAccount(s: State)
    requires Account(s)
    ensures Balanced(s) && FreshIds(s) && Calls(s)
  {}

  lemma RetryConds(s: State, t: Tid, mid: Mid, why: Why)
    requires mid in s.mutexes
    ensures var s' := Retry(s, t, mid, why).0; s'.conds == s.conds && s'.nextCid == s.nextCid
  {}

  lemma LockMutexConds(s: State, t: Tid, mid: Mid, why: Why)
    requires mid in s.mutexes
    ensures var s' := LockMutex(s, t, mid, why).0; s'.conds == s.conds && s'.nextCid == s.nextCid
  {}

  lemma LockConds(s: State, t: Tid, a: Addr, why: Why)
    requires Mapped(s, a)
    ensures var s' := Lock(s, t, a, why).0; s'.conds == s.conds && s'.nextCid == s.nextCid
  {
    hide LockMutex;
    var (s1, found) := Search(s, a);
    if found.Some? {
      LockMutexConds(s1, t, found.value, why);
    }
  }

  // ----- Runs -----

  lemma NudgeKeeps(s: State, t: Tid)
    requires Inv(s)
    ensures Inv(s.(blocked := s.blocked - {t}))
  {
    hide Locks, Balanced, FreshIds, Calls;
    CondStepKeeps(s, s.(blocked := s.blocked - {t}));
  }

  lemma ExpireKeeps(s: State, t: Tid)
    requires Inv(s) && PcOf(s, t).Sleeping?
    ensures Inv(SetPc(s, t, Sleeping(PcOf(s, t).call.(expired := true))).(blocked := s.blocked - {t}))
  {
    hide Locks, Account, Balanced, FreshIds, Calls;
    var s' := SetPc(s, t, Sleeping(PcOf(s, t).call.(expired := true))).(blocked := s.blocked - {t});
    AccountOf(s);
    LetGoAt(s, t);
    PlacedAt(s, t);
    assert LetGo(s', t);
    ElsewhereLocks(s, s', t);
    ElsewhereAccount(s, s', t);
    OfAccount(s');
  }

  lemma PlacedAt(s: State, t: Tid)
    requires Locks(s)
    ensures Placed(s, t)
  {}

  lemma MutexStep(s: State, s': State)
    requires Inv(s) && Locks(s') && Account(s') && s'.conds == s.conds && s'.nextCid == s.nextCid
    ensures Inv(s')
  {
    hide Locks, Balanced, FreshIds, Calls;
  }

  lemma SearchConds(s: State, t: Tid, a: Addr)
    requires Mapped(s, a)
    ensures var s' := TryLock(s, t, a).0; s'.conds == s.conds && s'.nextCid == s.nextCid
    ensures var s' := Destroy(s, a).0; s'.conds == s.conds && s'.nextCid == s.nextCid
  {}

  lemma StepKeeps(s: State, op: Op)
    requires Inv(s) && Enabled(s, op)
    ensures Inv(Do(s, op))
  {
    hide Locks, Account, Balanced, FreshIds, Calls, InOrder, Lock, TryLock, Unlock, Destroy, Wait, Resume, SearchCond, WakeFirst, WakeAll, NewMutex;
    AccountOf(s);
    match op
    case Poke(a, w) => CondStepKeeps(s, Do(s, op)); MutexStep(s, Do(s, op));
    case PokeCond(c, id) => CondStepKeeps(s, Do(s, op)); MutexStep(s, Do(s, op));
    case InitOp(a, attr) =>
      if Init(s, a, attr).1 == OK {
        var kind := if attr == Some(RECURSIVE) then Recursive else Normal;
        NewMutexLocks(s, a, s.words[a].kind, kind);
        NewMutexAccount(s, a, s.words[a].kind, kind, 0);
        NewMutexConds(s, a, s.words[a].kind, kind);
        MutexStep(s, Do(s, op));
      }
    case DestroyOp(a) =>
      DestroyKeeps(s, a);
      SearchConds(s, 0, a);
      MutexStep(s, Do(s, op));
    case LockOp(t, a) =>
      LockKeeps(s, t, a, ToLock);
      LockConds(s, t, a, ToLock);
      MutexStep(s, Do(s, op));
    case TryOp(t, a) =>
      TryLockKeeps(s, t, a);
      SearchConds(s, t, a);
      MutexStep(s, Do(s, op));
    case UnlockOp(t, a) =>
      UnlockKeeps(s, t, a);
      MutexStep(s, Do(s, op));
    case WaitOp(t, c, a, timed) => WaitKeeps(s, t, c, a, timed);
    case InitCondOp(c) => InitCondKeeps(s, c);
    case SignalOp(c) =>
      SearchCondKeeps(s, c);
      if SearchCond(s, c).1.Some? {
        WakeFirstKeeps(SearchCond(s, c).0, SearchCond(s, c).1.value);
      }
    case BroadcastOp(c) =>
      SearchCondKeeps(s, c);
      if SearchCond(s, c).1.Some? {
        WakeAllKeeps(SearchCond(s, c).0, SearchCond(s, c).1.value);
      }
    case ResumeOp(t) => ResumeKeeps(s, t);
    case NudgeOp(t) => NudgeKeeps(s, t);
    case ExpireOp(t) => ExpireKeeps(s, t);
  }

  lemma NewMutexConds(s: State, a: Addr, stored: Kind, kind: Kind)
    ensures var s' := NewMutex(s, a, stored, kind); s'.conds == s.conds && s'.nextCid == s.nextCid
  {}

  lemma {:induction false} RunKeeps(ss: seq<State>, ops: seq<Op>, i: nat)
    requires Execution(ss, ops) && i <= |ops|
    ensures Inv(ss[i])
  {
    hide Do, Enabled, Inv;
    if i == 0 {
      InitialInv();
    } else {
      RunKeeps(ss, ops, i - 1);
      assert Enabled(ss[i - 1], ops[i - 1]) && ss[i] == Do(ss[i - 1], ops[i - 1]);
      StepKeeps(ss[i - 1], ops[i - 1]);
    }
  }

  lemma InitialInv()
    ensures Inv(Initial)
  {}
}
