/**
 * Mutexes and condition variables as they run: an object whose methods carry one thread from
 * a scheduling point to the next and leave the tables as the functions of `Sync` say.
 */
module SyncTable {
  import opened Basics
  import opened Sync

  class Primitives {
    var mutexes: map<Mid, Mutex>
    var nextMid: nat
    var words: map<Addr, Word>
    var conds: map<Cid, Cond>
    var nextCid: nat
    var cwords: map<Addr, nat>
    var pcs: map<Tid, Pc>
    var blocked: set<Tid>
    var log: seq<Event>

    function State(): Sync.State
      reads this
    {
      Sync.State(mutexes, nextMid, words, conds, nextCid, cwords, pcs, blocked, log)
    }

    constructor ()
      ensures State() == Initial
    {
      mutexes, nextMid, words := map[], 3, map[];
      conds, nextCid, cwords := map[], 3, map[];
      pcs, blocked, log := map[], {}, [];
    }

    method CreateMutex(a: Addr, stored: Kind, kind: Kind)
      modifies this
      ensures State() == NewMutex(old(State()), a, stored, kind)
    {
      mutexes := mutexes[nextMid := Mutex(kind, 0, None, [])];
      words := words[a := Word(nextMid, stored)];
      nextMid := nextMid + 1;
    }

    method SearchMutex(a: Addr) returns (r: Option<Mid>)
      requires Mapped(State(), a)
      modifies this
      ensures (State(), r) == Search(old(State()), a)
    {
      if a == 0 {
        return None;
      }
      if words[a].id == 0 {
        CreateMutex(a, words[a].kind, words[a].kind);
      }
      return if words[a].id in mutexes then Some(words[a].id) else None;
    }

    method InitMutex(a: Addr, attr: Option<nat>) returns (r: Code)
      requires Mapped(State(), a)
      modifies this
      ensures (State(), r) == Init(old(State()), a, attr)
    {
      if a == 0 {
        return EINVAL;
      }
      if attr.Some? && attr.value != RECURSIVE && attr.value != NORMAL {
        return EINVAL;
      }
      CreateMutex(a, words[a].kind, if attr == Some(RECURSIVE) then Recursive else Normal);
      return OK;
    }

    method DestroyMutex(a: Addr) returns (r: Code)
      requires Mapped(State(), a)
      modifies this
      ensures (State(), r) == Destroy(old(State()), a)
    {
      var found := SearchMutex(a);
      if found == None {
        return EINVAL;
      }
      var m := mutexes[found.value];
      if m.current != None || m.waiting != [] {
        return EBUSY;
      }
      mutexes := mutexes - {found.value};
      words := words[a := words[a].(id := 2)];
      return OK;
    }

    /** One turn of the retry loop: take the mutex, or join its list and block. */
    method Attempt(t: Tid, mid: Mid, why: Why) returns (r: Result)
      requires mid in mutexes
      modifies this
      ensures (State(), r) == Acquire(old(State()), t, mid, why)
    {
      var m := mutexes[mid];
      if m.current.Some? {
        mutexes := mutexes[mid := m.(waiting := m.waiting + [t])];
        pcs := pcs[t := Locking(mid, why)];
        blocked := blocked + {t};
        return Blocks;
      }
      mutexes := mutexes[mid := m.(current := Some(t), count := m.count + 1)];
      pcs := pcs[t := Idle];
      log := log + [Locked(t, mid)];
      return Done(OK);
    }

    method LockAt(t: Tid, a: Addr, why: Why) returns (r: Result)
      requires Mapped(State(), a)
      modifies this
      ensures (State(), r) == Lock(old(State()), t, a, why)
    {
      var found := SearchMutex(a);
      if found == None {
        pcs := pcs[t := Idle];
        return Done(EINVAL);
      }
      var mid := found.value;
      var m := mutexes[mid];
      if m.current == Some(t) {
        pcs := pcs[t := Idle];
        if m.kind.Recursive? {
          mutexes := mutexes[mid := m.(count := m.count + 1)];
          log := log + [Locked(t, mid)];
          return Done(OK);
        }
        return Done(EDEADLK);
      }
      r := Attempt(t, mid, why);
    }

    /** Take every occurrence of `t` off a list. */
    static method Remove(s: seq<Tid>, t: Tid) returns (r: seq<Tid>)
      ensures r == Removed(s, t)
    {
      r := [];
      var i := 0;
      while i < |s|
        invariant i <= |s| && Removed(s, t) == r + Removed(s[i..], t)
      {
        assert s[i..][0] == s[i] && s[i..][1..] == s[i + 1..];
        if s[i] != t {
          r := r + [s[i]];
        }
        i := i + 1;
      }
    }

    method RetryLock(t: Tid, mid: Mid, why: Why) returns (r: Result)
      requires mid in mutexes
      modifies this
      ensures (State(), r) == Retry(old(State()), t, mid, why)
    {
      var w := Remove(mutexes[mid].waiting, t);
      mutexes := mutexes[mid := mutexes[mid].(waiting := w)];
      r := Attempt(t, mid, why);
    }

    method TryLockAt(t: Tid, a: Addr) returns (r: Code)
      requires Mapped(State(), a)
      modifies this
      ensures (State(), r) == TryLock(old(State()), t, a)
    {
      var found := SearchMutex(a);
      if found == None {
        return EINVAL;
      }
      var mid, m := found.value, mutexes[found.value];
      var free := match m.kind
                  case Recursive => m.current == None || m.current == Some(t)
                  case Normal => m.current == None;
      if !free {
        return EBUSY;
      }
      mutexes := mutexes[mid := m.(current := Some(t), count := m.count + 1)];
      log := log + [Locked(t, mid)];
      return OK;
    }

    method UnlockAt(t: Tid, a: Addr) returns (r: Code, yielded: bool)
      requires Mapped(State(), a)
      modifies this
      ensures (State(), r, yielded) == Unlock(old(State()), t, a)
    {
      var found := SearchMutex(a);
      if found == None {
        return EINVAL, false;
      }
      var mid, m := found.value, mutexes[found.value];
      if m.current != Some(t) {
        return EPERM, false;
      }
      ghost var before := mutexes;
      log := log + [Unlocked(t, mid)];
      var count := if m.count == 0 then 0 else m.count - 1;
      mutexes := mutexes[mid := m.(count := count)];
      if m.count == 1 {
        mutexes := mutexes[mid := mutexes[mid].(current := None)];
        assert mutexes == before[mid := m.(count := 0, current := None)];
        if m.waiting != [] {
          blocked := blocked - {m.waiting[0]};
          return OK, true;
        }
      }
      return OK, false;
    }

    method CreateCond(c: Addr)
      modifies this
      ensures State() == NewCond(old(State()), c)
    {
      conds := conds[nextCid := Cond([], [], [])];
      cwords := cwords[c := nextCid];
      nextCid := nextCid + 1;
    }

    method CondInit(c: Addr) returns (r: Code)
      modifies this
      ensures (State(), r) == InitCond(old(State()), c)
    {
      if c == 0 {
        return EINVAL;
      }
      CreateCond(c);
      return OK;
    }

    method SearchCondition(c: Addr) returns (r: Option<Cid>)
      requires CondMapped(State(), c)
      modifies this
      ensures (State(), r) == SearchCond(old(State()), c)
    {
      if c == 0 {
        return None;
      }
      if cwords[c] == 0 {
        var cid := nextCid;
        CreateCond(c);
        return Some(cid);
      }
      return if cwords[c] in conds then Some(cwords[c]) else None;
    }

    method FallAsleep(t: Tid, call: Call)
      requires call.cid in conds
      modifies this
      ensures State() == Sleep(old(State()), t, call)
    {
      var c := conds[call.cid];
      conds := conds[call.cid := c.(waiting := c.waiting + [t], arrived := c.arrived + [t])];
      pcs := pcs[t := Sleeping(call)];
      blocked := blocked + {t};
    }

    method CondWait(t: Tid, c: Addr, a: Addr, timed: bool) returns (r: Result)
      requires CondMapped(State(), c) && Mapped(State(), a)
      modifies this
      ensures (State(), r) == Wait(old(State()), t, c, a, timed)
    {
      var found := SearchCondition(c);
      if found == None {
        return Done(EINVAL);
      }
      var s1 := State();
      var mid := if a == 0 then 0 else if words[a].id == 0 then nextMid else if words[a].id in mutexes then words[a].id else 0;
      var call := Call(found.value, a, mid, Holds(s1, t, mid), timed, false);
      var code, yielded := UnlockAt(t, a);
      if yielded {
        pcs := pcs[t := Releasing(call)];
      } else if found.value in conds {
        FallAsleep(t, call);
      }
      return Blocks;
    }

    method CondSignal(c: Addr) returns (r: Code)
      requires CondMapped(State(), c)
      modifies this
      ensures (State(), r) == Signal(old(State()), c)
    {
      var found := SearchCondition(c);
      if found == None {
        return EINVAL;
      }
      var cond := conds[found.value];
      if cond.waiting != [] {
        blocked := blocked - {cond.waiting[0]};
        conds := conds[found.value := Cond(cond.waiting[1..], cond.arrived, cond.woken + [cond.waiting[0]])];
      }
      return OK;
    }

    method CondBroadcast(c: Addr) returns (r: Code)
      requires CondMapped(State(), c)
      modifies this
      ensures (State(), r) == Broadcast(old(State()), c)
    {
      var found := SearchCondition(c);
      if found == None {
        return EINVAL;
      }
      var cond := conds[found.value];
      ghost var before := State();
      var i := 0;
      while i < |cond.waiting|
        invariant i <= |cond.waiting|
        invariant State() == before.(blocked := before.blocked - (set t | t in cond.waiting[..i]))
      {
        assert cond.waiting[..i + 1] == cond.waiting[..i] + [cond.waiting[i]];
        blocked := blocked - {cond.waiting[i]};
        i := i + 1;
      }
      assert cond.waiting[..i] == cond.waiting;
      conds := conds[found.value := Cond([], cond.arrived, cond.woken + cond.waiting)];
      return OK;
    }

    /** Run a thread on from the scheduling point it stopped at inside a call. */
    method ResumeThread(t: Tid) returns (r: Result)
      requires Sane(State(), t)
      modifies this
      ensures (State(), r) == Resume(old(State()), t)
    {
      match PcOf(State(), t)
      case Idle =>
        r := Done(OK);
      case Locking(mid, why) =>
        r := RetryLock(t, mid, why);
        if r.Done? && why.ToRelock? {
          r := Done(WaitCode(why.call));
        }
      case Releasing(call) =>
        FallAsleep(t, call);
        r := Blocks;
      case Sleeping(call) =>
        r := LockAt(t, call.addr, ToRelock(call));
        if r.Done? {
          r := Done(WaitCode(call));
        }
    }
  }
}
