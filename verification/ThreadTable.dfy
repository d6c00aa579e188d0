/**
 * A process's threads as they run: the vector of records, searched by loops, and the records
 * themselves changed in place.
 */
module ThreadTable {
  import opened Basics
  import opened Threads
  import opened ThreadRuns

  class Process {
    // The vector, and what its pointers lead to.
    var order: seq<Serial>
    var threads: map<Serial, Rec>

    var next: Serial
    var joining: map<Serial, Serial>
    var blocked: set<Serial>
    var over: bool
    var fatal: bool

    // History.
    var exits: map<Serial, int>
    var joins: seq<Joined>

    ghost function State(): Threads.State
      reads this
    {
      Threads.State(threads, next, joining, blocked, exits, joins, over, fatal)
    }

    /** The vector lists every record once. */
    ghost predicate Valid()
      reads this
    {
      && (forall x {:trigger x in threads} :: x in threads <==> x in order)
      && (forall i, j :: 0 <= i < j < |order| ==> order[i] != order[j])
      && Inv(State())
    }

    constructor ()
      ensures Valid() && State() == Initial
    {
      order, threads, next := [0], map[0 := Rec(0, false, false, 0, None)], 1;
      joining, blocked, over, fatal := map[], {}, false, false;
      exits, joins := map[], [];
    }

    /** Try the ids one after the other against all threads. */
    method AllocateTid() returns (r: Option<nat>)
      requires Valid()
      ensures r == LeastTid(threads, 0)
    {
      for tid := 0 to 0xffff
        invariant LeastTid(threads, 0) == LeastTid(threads, tid)
      {
        var found := false;
        var i := 0;
        while i < |order| && !found
          invariant i <= |order|
          invariant found ==> TidUsed(threads, tid)
          invariant !found ==> forall k :: 0 <= k < i ==> threads[order[k]].tid != tid
        {
          if threads[order[i]].tid == tid {
            found := true;
          }
          i := i + 1;
        }
        if !found {
          assert !TidUsed(threads, tid);
          return Some(tid);
        }
      }
      return None;
    }

    method CreateThread()
      requires Valid()
      modifies this
      ensures Valid() && State() == Create(old(State()))
    {
      hide Records, Waits, JoinsRight, LeastTid;
      CreateKeeps(State());
      NextFresh(State());
      var tid := AllocateTid();
      if tid == None {
        fatal := true;
        return;
      }
      threads := threads[next := Rec(tid.value, false, false, 0, None)];
      order := order + [next];
      next := next + 1;
    }

    static lemma NextFresh(s: Threads.State)
      requires Inv(s)
      ensures s.next !in s.threads
    {}

    method SearchThread(tid: nat) returns (r: Option<Serial>)
      requires Valid()
      ensures r == Search(State(), tid)
    {
      SearchFinds(State(), tid);
      var i := 0;
      while i < |order|
        invariant i <= |order|
        invariant forall k :: 0 <= k < i ==> threads[order[k]].tid != tid
      {
        if threads[order[i]].tid == tid {
          return Some(order[i]);
        }
        i := i + 1;
      }
      return None;
    }

    /** Take a record out of the vector and free it. */
    method DeleteThread(x: Serial)
      requires x in threads
      requires forall y {:trigger y in threads} :: y in threads <==> y in order
      requires forall i, j :: 0 <= i < j < |order| ==> order[i] != order[j]
      modifies this`order, this`threads
      ensures threads == old(threads) - {x}
      ensures forall y {:trigger y in threads} :: y in threads <==> y in order
      ensures forall i, j :: 0 <= i < j < |order| ==> order[i] != order[j]
    {
      var i := 0;
      while i < |order| && order[i] != x
        invariant i <= |order| && forall k :: 0 <= k < i ==> order[k] != x
      {
        i := i + 1;
      }
      assert i < |order|;
      ghost var before := order;
      order := order[..i] + order[i + 1..];
      assert before == before[..i] + [x] + before[i + 1..];
      threads := threads - {x};
    }

    method ExitThread(u: Serial, v: int)
      requires Valid() && Enabled(State(), ExitOp(u, v))
      modifies this
      ensures Valid() && State() == Exit(old(State()), u, v)
    {
      hide Records, Waits, JoinsRight;
      ExitKeeps(State(), u, v);
      OrderSize();
      if |order| == 1 {
        order, threads, joining, blocked, over := [], map[], map[], {}, true;
        return;
      }
      exits := exits[u := v];
      if threads[u].detached {
        DeleteThread(u);
        return;
      }
      var w := threads[u].joinWaiter;
      threads := threads[u := threads[u].(hasExit := true, exitValue := v)];
      if w.Some? {
        blocked := blocked - {w.value};
      }
    }

    /** The vector is as long as there are records. */
    lemma OrderSize()
      requires Valid()
      ensures |order| == |threads|
    {
      SizeOf(order, threads.Keys);
    }

    static lemma {:induction false} SizeOf(s: seq<Serial>, k: set<Serial>)
      requires forall x {:trigger x in k} :: x in k <==> x in s
      requires forall i, j :: 0 <= i < j < |s| ==> s[i] != s[j]
      ensures |s| == |k|
    {
      if s == [] {
        assert k == {};
      } else {
        var k1 := k - {s[0]};
        assert s == [s[0]] + s[1..];
        forall x {:trigger x in k1} ensures x in k1 <==> x in s[1..] {}
        SizeOf(s[1..], k1);
      }
    }

    /** From the head of the join loop until the caller sleeps or has the value. */
    method CollectOrSleep(u: Serial, x: Serial) returns (r: Result)
      requires x in threads
      requires forall y {:trigger y in threads} :: y in threads <==> y in order
      requires forall i, j :: 0 <= i < j < |order| ==> order[i] != order[j]
      modifies this
      ensures (State(), r) == Collect(old(State()), u, x)
      ensures forall y {:trigger y in threads} :: y in threads <==> y in order
      ensures forall i, j :: 0 <= i < j < |order| ==> order[i] != order[j]
    {
      if !threads[x].hasExit {
        threads := threads[x := threads[x].(joinWaiter := Some(u))];
        joining := joining[u := x];
        blocked := blocked + {u};
        return Blocks;
      }
      var v := threads[x].exitValue;
      joining := joining - {u};
      joins := joins + [Joined(x, u, v)];
      DeleteThread(x);
      return Value(v);
    }

    method JoinThread(u: Serial, tid: nat) returns (r: Result)
      requires Valid() && Enabled(State(), JoinOp(u, tid))
      modifies this
      ensures Valid() && (State(), r) == Join(old(State()), u, tid)
    {
      JoinKeeps(State(), u, tid);
      if threads[u].tid == tid {
        return Done(EDEADLK);
      }
      SearchFinds(State(), tid);
      var found := SearchThread(tid);
      if found == None {
        return Done(ESRCH);
      }
      var x := found.value;
      if threads[x].detached || threads[x].joinWaiter.Some? {
        return Done(EINVAL);
      }
      r := CollectOrSleep(u, x);
    }

    /** A thread inside a join runs again. */
    method ResumeThread(u: Serial) returns (r: Result)
      requires Valid() && Enabled(State(), ResumeOp(u))
      modifies this
      ensures Valid() && (State(), r) == ResumeJoin(old(State()), u)
    {
      ResumeKeeps(State(), u);
      var x := joining[u];
      threads := threads[x := threads[x].(joinWaiter := None)];
      r := CollectOrSleep(u, x);
    }

    method DetachThread(tid: nat) returns (r: Code)
      requires Valid()
      modifies this
      ensures Valid() && (State(), r) == Detach(old(State()), tid)
    {
      DetachKeeps(State(), tid);
      SearchFinds(State(), tid);
      var found := SearchThread(tid);
      if found == None {
        return ESRCH;
      }
      var x := found.value;
      if threads[x].detached {
        return EINVAL;
      }
      if threads[x].joinWaiter.Some? {
        return OK;
      }
      threads := threads[x := threads[x].(detached := true)];
      return OK;
    }
  }
}
