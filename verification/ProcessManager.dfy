/**
 * The process table as it runs: one object whose methods change the table in place, step by
 * step, and leave it as the functions of `ProcessTable` say.
 */
module ProcessManager {
  import opened Basics
  import opened ProcessTable

  class Manager {
    var procs: map<Pid, Proc>
    var nextPid: nat
    var fatal: bool
    var ok: bool

    // History.
    var births: seq<Birth>
    var ends: map<nat, int>
    var reaps: seq<Reap>

    ghost function State(): Table
      reads this
    {
      Table(procs, nextPid, births, ends, reaps, fatal, ok)
    }

    constructor (firstPid: nat)
      requires firstPid < 0x1_0000
      ensures Initial(State()) && nextPid == firstPid
    {
      procs, nextPid, fatal, ok := map[], firstPid, false, true;
      births, ends, reaps := [], map[], [];
    }

    method AllocatePid() returns (r: Option<Pid>)
      modifies this`nextPid, this`fatal
      ensures r == Probe(procs, old(nextPid), 0)
      ensures r.Some? ==> nextPid == (r.value + 1) % 0x1_0000 && fatal == old(fatal)
      ensures r.None? ==> nextPid == old(nextPid) && fatal
    {
      for i := 0 to 0xffff
        invariant Probe(procs, nextPid, 0) == Probe(procs, nextPid, i)
        invariant nextPid == old(nextPid) && fatal == old(fatal)
      {
        var candidate := (nextPid + i) % 0x1_0000;
        if candidate > 1 && candidate !in procs {
          nextPid := (candidate + 1) % 0x1_0000;
          return Some(candidate);
        }
      }
      fatal := true;
      return None;
    }

    method CreateProcess(ppid: nat, parent: Option<nat>) returns (r: Option<Pid>)
      modifies this
      ensures (State(), r) == NewProcess(old(State()), ppid, parent)
    {
      r := AllocatePid();
      if r.Some? {
        procs := procs[r.value := Proc(ppid, {}, false, 0, |births|, map[])];
        births := births + [Birth(r.value, parent)];
      }
    }

    method Fork(p: Pid) returns (r: Option<Pid>)
      requires p in procs
      modifies this
      ensures (State(), r) == ForkProcess(old(State()), p)
    {
      r := CreateProcess(p, Some(procs[p].serial));
      if r.Some? {
        procs := procs[p := procs[p].(children := procs[p].children + {r.value})];
      }
    }

    /** Give the children `cs` to pid 1 and forget those that have ended. */
    method OrphanChildren(cs: set<Pid>)
      modifies this`procs
      ensures procs == Orphaned(old(procs), cs)
    {
      var todo := cs;
      while todo != {}
        invariant todo <= cs
        invariant procs == Orphaned(old(procs), cs - todo)
        decreases todo
      {
        var c := Least(todo);
        todo := todo - {c};
        assert cs - todo == (cs - (todo + {c})) + {c};
        if c in procs {
          procs := procs[c := procs[c].(ppid := 1)];
          if c > 1 && procs[c].zombie {
            procs := procs - {c};
          }
        }
      }
      assert cs - todo == cs;
    }

    static method WakeAll(s: map<nat, Sleeper>) returns (s': map<nat, Sleeper>)
      ensures s' == Woken(s)
    {
      s' := s;
      var todo := s.Keys;
      while todo != {}
        invariant todo <= s.Keys && s'.Keys == s.Keys
        invariant forall tid :: tid in s ==> s'[tid] == if tid in todo then s[tid] else s[tid].(woken := true)
        decreases todo
      {
        var tid := Least(todo);
        todo := todo - {tid};
        s' := s'[tid := s'[tid].(woken := true)];
      }
    }

    method ChildFinished(p: Pid)
      requires p in procs
      modifies this`procs, this`ok
      ensures var ppid := old(procs)[p].ppid;
              if ppid in old(procs) then
                var y := old(procs)[ppid];
                procs == old(procs)[ppid := y.(sleepers := Woken(y.sleepers))] && ok == old(ok)
              else procs == old(procs) && !ok
    {
      var ppid := procs[p].ppid;
      if ppid in procs {
        var s := WakeAll(procs[ppid].sleepers);
        procs := procs[ppid := procs[ppid].(sleepers := s)];
      } else {
        ok := false;
      }
    }

    method DeleteProcess(p: Pid)
      requires p in procs
      modifies this
      ensures State() == Delete(old(State()), p)
    {
      var x := procs[p];
      procs := procs[p := x.(children := {}, sleepers := map[])];
      OrphanChildren(x.children);
      assert State() == Detach(old(State()), p);
      if p !in procs {
        ok := false;
        return;
      }
      if !procs[p].zombie {
        ends := ends[procs[p].serial := procs[p].exitValue];
      }
      if procs[p].ppid > 1 {
        procs := procs[p := procs[p].(zombie := true)];
        ChildFinished(p);
      } else {
        procs := procs - {p};
      }
    }

    method Exit(p: Pid, value: int)
      requires p in procs
      modifies this
      ensures State() == Delete(SetExitValue(old(State()), p, value), p)
    {
      procs := procs[p := procs[p].(exitValue := value)];
      DeleteProcess(p);
    }

    method Stop(p: Pid)
      modifies this
      ensures State() == if p in old(procs) then Delete(old(State()), p) else old(State())
    {
      if p in procs {
        DeleteProcess(p);
      }
    }

    /** Look through the children in pid order; hand out the first that has ended. */
    method ScanChildren(p: Pid, tid: nat, want: int, nohang: bool) returns (a: Answer)
      requires p in procs
      modifies this
      ensures (State(), a) == Scan(old(State()), p, tid, want, nohang)
    {
      var children, childCount := procs[p].children, 0;
      var todo := children;
      ghost var m, z := Matching(State(), p, want), Zombies(State(), p, want);
      while todo != {}
        invariant todo <= children && State() == old(State())
        invariant z <= todo
        invariant childCount > 0 <==> m - todo != {}
        decreases todo
      {
        var c := Least(todo);
        todo := todo - {c};
        if c > 1 && c in procs && (want == -1 || want == c) {
          childCount := childCount + 1;
          assert c in m - todo;
          if procs[c].zombie {
            assert c in z && Least(z) in todo + {c};
            assert c == Least(z);
            a := Child(c, procs[c].exitValue);
            reaps := reaps + [Reap(procs[c].serial, procs[p].serial, procs[c].exitValue)];
            procs := procs[p := procs[p].(children := procs[p].children - {c})];
            procs := procs - {c};
            return;
          }
        } else {
          assert m - todo == m - (todo + {c});
        }
      }
      assert m - todo == m;
      if childCount == 0 {
        return Failed(ECHILD);
      }
      if nohang {
        return NotYet;
      }
      procs := procs[p := procs[p].(sleepers := procs[p].sleepers[tid := Sleeper(want, false)])];
      return Asleep;
    }

    method Waitpid(p: Pid, tid: nat, want: int, opts: Options) returns (a: Answer)
      requires p in procs
      modifies this
      ensures (State(), a) == WaitPid(old(State()), p, tid, want, opts)
    {
      if opts.untraced || opts.continued {
        return Failed(EINVAL);
      }
      if want == 0 || want < -1 {
        return Failed(EINVAL);
      }
      a := ScanChildren(p, tid, want, opts.nohang);
    }

    /** The thread runs again inside waitpid. */
    method ResumeWaitpid(p: Pid, tid: nat, interrupted: bool) returns (a: Answer)
      requires p in procs && tid in procs[p].sleepers
      modifies this
      ensures (State(), a) == ResumeWait(old(State()), p, tid, interrupted)
    {
      var want := procs[p].sleepers[tid].want;
      procs := procs[p := procs[p].(sleepers := procs[p].sleepers - {tid})];
      if interrupted {
        return Failed(EINTR);
      }
      a := ScanChildren(p, tid, want, false);
    }
  }
}
