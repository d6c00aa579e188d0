/** What each operation does to the process table, said of the tables alone. */
module ProcessSteps {
  import opened Basics
  import opened ProcessTable
  import opened ProcessRuns

  // ----- Start and fork -----

  /** The `k`-th candidate from the cursor on is the first that is above 1 and free. */
  ghost predicate FirstFree(t: Table, k: nat, c: Pid) {
    && k < 0xffff && c == (t.nextPid + k) % 0x1_0000 && c > 1 && c !in t.procs
    && forall j :: 0 <= j < k ==> Tried(t, j)
  }

  /** A candidate that cannot be used. */
  ghost predicate Tried(t: Table, j: nat) {
    (t.nextPid + j) % 0x1_0000 <= 1 || (t.nextPid + j) % 0x1_0000 in t.procs
  }

  /** None of the 65535 candidates can be used, and the manager gives up. */
  ghost predicate Exhausted(t: Table, t': Table) {
    (forall j :: 0 <= j < 0xffff ==> Tried(t, j)) && t' == t.(fatal := true)
  }

  /** Process `c` is new, alive, has parent `ppid`, no children and nobody asleep, and is the next to be born. */
  ghost predicate NewBorn(t: Table, t': Table, c: Pid, ppid: nat, parent: Option<nat>) {
    && c in t'.procs && t'.procs[c] == Proc(ppid, {}, false, 0, |t.births|, map[])
    && t'.procs.Keys == t.procs.Keys + {c}
    && t'.births == t.births + [Birth(c, parent)] && t'.nextPid == (c + 1) % 0x1_0000
    && t'.ends == t.ends && t'.reaps == t.reaps && t'.fatal == t.fatal && t'.ok == t.ok
  }

  ghost predicate Started(t: Table, t': Table) {
    || Exhausted(t, t')
    || exists k: nat, c: Pid :: FirstFree(t, k, c) && NewBorn(t, t', c, 0, None)
                                && forall q :: q in t.procs ==> t'.procs[q] == t.procs[q]
  }

  ghost predicate Forked(t: Table, p: Pid, t': Table)
    requires p in t.procs
  {
    || Exhausted(t, t')
    || exists k: nat, c: Pid :: FirstFree(t, k, c) && NewBorn(t, t', c, p, Some(t.procs[p].serial))
                                && t'.procs[p] == t.procs[p].(children := t.procs[p].children + {c})
                                && forall q :: q in t.procs && q != p ==> t'.procs[q] == t.procs[q]
  }

  lemma Choice(t: Table)
    ensures match Probe(t.procs, t.nextPid, 0)
            case Some(c) => exists k: nat :: FirstFree(t, k, c)
            case None => forall j :: 0 <= j < 0xffff ==> Tried(t, j)
  {
    var k := ProbeFirst(t.procs, t.nextPid, 0);
    forall j | 0 <= j < k ensures Tried(t, j) {
      assert !Usable(t.procs, Candidate(t.nextPid, j));
    }
    if Probe(t.procs, t.nextPid, 0).Some? {
      assert FirstFree(t, k, Probe(t.procs, t.nextPid, 0).value);
    }
  }

  /** In every run a start makes one process without a parent, with the first free pid, and touches nobody else. */
  lemma RunStarts(ts: seq<Table>, ops: seq<Op>, i: nat)
    requires Execution(ts, ops) && i < |ops| && ops[i] == Start
    ensures Started(ts[i], ts[i + 1])
  {
    hide FirstFree, Probe;
    assert Enabled(ts[i], ops[i]) && ts[i + 1] == Do(ts[i], ops[i]);
    Choice(ts[i]);
    if c: Pid :| Probe(ts[i].procs, ts[i].nextPid, 0) == Some(c) {
      var k: nat :| FirstFree(ts[i], k, c);
      FreeIsNew(ts[i], k, c);
      assert NewBorn(ts[i], ts[i + 1], c, 0, None);
    }
  }

  lemma FreeIsNew(t: Table, k: nat, c: Pid)
    requires FirstFree(t, k, c)
    ensures c !in t.procs
  {}

  /**
   * In every run a fork makes one process with the caller as its parent, which gets it as a child;
   * it starts with no children of its own and the value 0, and nobody else changes.
   */
  lemma RunForks(ts: seq<Table>, ops: seq<Op>, i: nat)
    requires Execution(ts, ops) && i < |ops| && ops[i].Fork?
    ensures ops[i].p in ts[i].procs && Forked(ts[i], ops[i].p, ts[i + 1])
  {
    hide FirstFree, Probe;
    assert Enabled(ts[i], ops[i]) && ts[i + 1] == Do(ts[i], ops[i]);
    Choice(ts[i]);
    if c: Pid :| Probe(ts[i].procs, ts[i].nextPid, 0) == Some(c) {
      var k: nat :| FirstFree(ts[i], k, c);
      FreeIsNew(ts[i], k, c);
      assert NewBorn(ts[i], ts[i + 1], c, ops[i].p, Some(ts[i].procs[ops[i].p].serial));
    }
  }

  // ----- Exit and stop -----

  /** What happens to process `q` when `p`, whose parent is `ppid`, ends. */
  ghost predicate Bereaved(x: Proc, y: Proc, q: Pid, p: Pid, ppid: nat) {
    && y.ppid == (if x.ppid == p then 1 else x.ppid)
    && y.children == x.children && y.zombie == x.zombie && y.exitValue == x.exitValue && y.serial == x.serial
    && y.sleepers.Keys == x.sleepers.Keys
    && forall tid :: tid in x.sleepers ==>
         y.sleepers[tid] == Sleeper(x.sleepers[tid].want, x.sleepers[tid].woken || (q == ppid && ppid > 1))
  }

  /**
   * Process `p` ends with value `v`: its children get parent 1, those that had ended are forgotten,
   * and everybody else stays; if `p` has a parent above 1 it is a zombie with the value `v`, without
   * children and without threads, and that parent's waiting threads are woken; otherwise it is gone.
   */
  ghost predicate Gone(t: Table, p: Pid, v: int, t': Table)
    requires p in t.procs
  {
    var x := t.procs[p];
    && (forall q :: q in t.procs && q != p ==>
          (q in t'.procs <==> !(t.procs[q].ppid == p && t.procs[q].zombie)))
    && (forall q :: q in t'.procs ==> q in t.procs)
    && (forall q :: q in t'.procs && q != p ==> Bereaved(t.procs[q], t'.procs[q], q, p, x.ppid))
    && (if x.ppid > 1 then p in t'.procs && t'.procs[p] == Proc(x.ppid, {}, true, v, x.serial, map[]) else p !in t'.procs)
    && t'.ends == (if x.zombie then t.ends else t.ends[x.serial := v])
    && t'.births == t.births && t'.reaps == t.reaps && t'.nextPid == t.nextPid && t'.fatal == t.fatal && t'.ok
  }

  lemma DetachSays(t: Table, p: Pid)
    requires Inv(t) && p in t.procs
    ensures var t1 := Detach(t, p);
            && t1 == t.(procs := t1.procs) && p in t1.procs && t1.procs[p] == t.procs[p].(children := {}, sleepers := map[])
            && (forall q :: q in t.procs && q != p ==> (q in t1.procs <==> !(t.procs[q].ppid == p && t.procs[q].zombie)))
            && (forall q :: q in t1.procs ==> q in t.procs)
            && (forall q :: q in t1.procs && q != p ==> t1.procs[q] == t.procs[q].(ppid := if t.procs[q].ppid == p then 1 else t.procs[q].ppid))
  {
    hide NoneLost, History;
    DetachFamily(t, p);
    forall q | q in t.procs ensures q in t.procs[p].children <==> t.procs[q].ppid == p {
      assert t.procs[q].ppid > 1 || t.procs[q].ppid <= 1;
    }
  }

  lemma LingerSays(t: Table, p: Pid)
    requires p in t.procs && t.procs[p].ppid in t.procs && t.procs[p].ppid != p
    ensures var t', x := Linger(t, p), t.procs[p];
            && t' == t.(procs := t'.procs, ends := NoteEnd(t, p)) && t'.procs.Keys == t.procs.Keys
            && t'.procs[p] == x.(zombie := true)
            && forall q :: q in t.procs && q != p ==> t'.procs[q] == t.procs[q].(sleepers := if q == x.ppid then Woken(t.procs[q].sleepers) else t.procs[q].sleepers)
  {}

  lemma DeleteSays(t: Table, p: Pid)
    requires Inv(t) && p in t.procs
    ensures Gone(t, p, t.procs[p].exitValue, Delete(t, p))
  {
    hide Inv, Detach, Linger, Family, NoneLost, History;
    DetachSays(t, p);
    var t1 := Detach(t, p);
    ParentThere(t, p);
    if t1.procs[p].ppid > 1 {
      LingerSays(t1, p);
    }
  }

  lemma ParentThere(t: Table, p: Pid)
    requires Inv(t) && p in t.procs
    ensures t.ok && t.procs[p].ppid != p
    ensures t.procs[p].ppid > 1 ==>
              t.procs[p].ppid in t.procs && !t.procs[t.procs[p].ppid].zombie
  {
    hide NoneLost, History;
  }

  /** In every run an exit ends the caller with the value it gave. */
  lemma RunExits(ts: seq<Table>, ops: seq<Op>, i: nat)
    requires Execution(ts, ops) && i < |ops| && ops[i].Exit?
    ensures ops[i].p in ts[i].procs && Gone(ts[i], ops[i].p, ops[i].value, ts[i + 1])
  {
    hide Inv, Delete, Gone;
    RunKeeps(ts, ops, i);
    assert Enabled(ts[i], ops[i]) && ts[i + 1] == Do(ts[i], ops[i]);
    var t, p, v := ts[i], ops[i].p, ops[i].value;
    ExitValueKeeps(t, p, v);
    DeleteSays(SetExitValue(t, p, v), p);
    GoneWith(t, p, v, ts[i + 1]);
  }

  lemma GoneWith(t: Table, p: Pid, v: int, t': Table)
    requires p in t.procs && !t.procs[p].zombie && Gone(t.(procs := t.procs[p := t.procs[p].(exitValue := v)]), p, v, t')
    ensures Gone(t, p, v, t')
  {
    hide Bereaved;
    var t1 := t.(procs := t.procs[p := t.procs[p].(exitValue := v)]);
    assert forall q :: q in t.procs && q != p ==> t1.procs[q] == t.procs[q];
  }

  /** In every run stopping a process that is there ends it with the value it has, and stopping another does nothing. */
  lemma RunStops(ts: seq<Table>, ops: seq<Op>, i: nat)
    requires Execution(ts, ops) && i < |ops| && ops[i].Stop?
    ensures if ops[i].p in ts[i].procs then Gone(ts[i], ops[i].p, ts[i].procs[ops[i].p].exitValue, ts[i + 1]) else ts[i + 1] == ts[i]
  {
    hide Inv, Delete, Gone;
    RunKeeps(ts, ops, i);
    assert Enabled(ts[i], ops[i]) && ts[i + 1] == Do(ts[i], ops[i]);
    if ops[i].p in ts[i].procs {
      DeleteSays(ts[i], ops[i].p);
    }
  }

  // ----- Waiting -----

  /** The child `c` is handed to `p`: it leaves the table and the set of children, and that is noted. */
  ghost predicate HandedOut(t: Table, p: Pid, c: Pid, t': Table)
    requires p in t.procs && c in t.procs
  {
    && t'.procs.Keys == t.procs.Keys - {c} && p in t'.procs
    && t'.procs[p] == t.procs[p].(children := t.procs[p].children - {c})
    && (forall q :: q in t'.procs && q != p ==> t'.procs[q] == t.procs[q])
    && t' == t.(procs := t'.procs, reaps := t.reaps + [Reap(t.procs[c].serial, t.procs[p].serial, t.procs[c].exitValue)])
  }

  /** Only the entry of thread `tid` of `p` among the threads asleep may differ. */
  ghost predicate OnlySleeper(t: Table, p: Pid, tid: nat, t': Table)
    requires p in t.procs
  {
    && t'.procs.Keys == t.procs.Keys && t' == t.(procs := t'.procs)
    && t'.procs[p] == t.procs[p].(sleepers := t'.procs[p].sleepers)
    && t'.procs[p].sleepers - {tid} == t.procs[p].sleepers - {tid}
    && forall q :: q in t.procs && q != p ==> t'.procs[q] == t.procs[q]
  }

  /** A thread that is told `a`, having waited for `want`. */
  ghost predicate Waited(t: Table, p: Pid, tid: nat, want: int, a: Answer, t': Table)
    requires p in t.procs && tid !in t.procs[p].sleepers
  {
    match a
    case Child(c, status) => c in t.procs && c != p && status == t.procs[c].exitValue && HandedOut(t, p, c, t')
    case Asleep => OnlySleeper(t, p, tid, t') && tid in t'.procs[p].sleepers && t'.procs[p].sleepers[tid] == Sleeper(want, false)
    case _ => t' == t
  }

  lemma ScanSays(t: Table, p: Pid, tid: nat, want: int, nohang: bool)
    requires Inv(t) && Alive(t, p) && tid !in t.procs[p].sleepers
    ensures Waited(t, p, tid, want, Scan(t, p, tid, want, nohang).1, Scan(t, p, tid, want, nohang).0)
  {
    hide NoneLost, History, Least;
    if Zombies(t, p, want) != {} {
      assert Least(Zombies(t, p, want)) in Zombies(t, p, want);
    }
  }

  /** The table without the entry of a thread that has run on. */
  ghost predicate WokeUp(t: Table, p: Pid, tid: nat, t1: Table)
    requires p in t.procs
  {
    OnlySleeper(t, p, tid, t1) && tid !in t1.procs[p].sleepers
  }

  ghost predicate WaitedOn(t: Table, p: Pid, tid: nat, want: int, a: Answer, t': Table)
    requires p in t.procs
  {
    exists t1 :: WokeUp(t, p, tid, t1) && Waited(t1, p, tid, want, a, t')
  }

  /**
   * What waitpid does to the table in every run: the child it answers with leaves the table and its
   * parent, with its value noted; a caller that must wait is entered as asleep on what it wants; no
   * other answer changes anything.  A thread that runs on is first taken off the sleepers.
   */
  lemma RunWaitChanges(ts: seq<Table>, ops: seq<Op>, i: nat)
    requires Execution(ts, ops) && i < |ops| && Enabled(ts[i], ops[i])
    ensures match ops[i]
            case Wait(q, k, want, opts) => Waited(ts[i], q, k, want, WaitPid(ts[i], q, k, want, opts).1, ts[i + 1])
            case Resume(q, k, interrupted) =>
              WaitedOn(ts[i], q, k, ts[i].procs[q].sleepers[k].want, ResumeWait(ts[i], q, k, interrupted).1, ts[i + 1])
            case Nudge(q, k) =>
              && OnlySleeper(ts[i], q, k, ts[i + 1])
              && k in ts[i + 1].procs[q].sleepers && ts[i + 1].procs[q].sleepers[k] == Sleeper(ts[i].procs[q].sleepers[k].want, true)
            case _ => true
  {
    hide Inv, Waited, Scan;
    RunKeeps(ts, ops, i);
    assert ts[i + 1] == Do(ts[i], ops[i]);
    match ops[i]
    case Wait(q, k, want, opts) =>
      ScanSays(ts[i], q, k, want, opts.nohang);
      SameIfFailed(ts[i], q, k, want, EINVAL);
    case Resume(q, k, interrupted) =>
      var t1 := SetSleepers(ts[i], q, ts[i].procs[q].sleepers - {k});
      var want := ts[i].procs[q].sleepers[k].want;
      ResumeInv(ts[i], q, k);
      assert WokeUp(ts[i], q, k, t1);
      SameIfFailed(t1, q, k, want, EINTR);
      ScanSays(t1, q, k, want, false);
    case _ =>
  }

  lemma SameIfFailed(t: Table, p: Pid, tid: nat, want: int, err: Errno)
    requires p in t.procs && tid !in t.procs[p].sleepers
    ensures Waited(t, p, tid, want, Failed(err), t)
  {}

  // ----- Where the values come from -----

  /** Operation `j` ends the process with serial `s`, which had not ended. */
  ghost predicate EndsAt(t: Table, op: Op, s: nat) {
    (op.Exit? || op.Stop?) && op.p in t.procs && !t.procs[op.p].zombie && t.procs[op.p].serial == s
  }

  /** The argument of an exit; a process that is stopped has the value it was made with. */
  function ValueOf(op: Op): int {
    if op.Exit? then op.value else 0
  }

  /** Nobody who has not ended has a value yet. */
  ghost predicate Unvalued(t: Table) {
    forall p :: p in t.procs && !t.procs[p].zombie ==> t.procs[p].exitValue == 0
  }

  /** Which ends are on record after the operation, and with which value. */
  ghost predicate Recorded(t: Table, op: Op, t': Table) {
    && Unvalued(t')
    && (forall s :: s in t'.ends <==> s in t.ends || EndsAt(t, op, s))
    && forall s :: s in t'.ends ==> t'.ends[s] == if EndsAt(t, op, s) then ValueOf(op) else t.ends[s]
  }

  lemma BirthRecorded(t: Table, op: Op, t': Table)
    requires Unvalued(t) && Enabled(t, op)
    requires match op case Start => Started(t, t') case Fork(p) => Forked(t, p, t') case _ => false
    ensures Recorded(t, op, t')
  {
    hide FirstFree, Tried;
  }

  lemma GoneRecorded(t: Table, op: Op, t': Table)
    requires Unvalued(t) && (op.Exit? || op.Stop?) && op.p in t.procs
    requires Gone(t, op.p, if op.Exit? then op.value else t.procs[op.p].exitValue, t')
    requires op.Exit? ==> !t.procs[op.p].zombie
    ensures Recorded(t, op, t')
  {
    forall q | q in t'.procs && !t'.procs[q].zombie ensures t'.procs[q].exitValue == 0 {
      assert q != op.p ==> Bereaved(t.procs[q], t'.procs[q], q, op.p, t.procs[op.p].ppid);
    }
  }

  lemma WaitedUnvalued(t: Table, p: Pid, tid: nat, want: int, a: Answer, t': Table)
    requires Unvalued(t) && p in t.procs && tid !in t.procs[p].sleepers && Waited(t, p, tid, want, a, t')
    ensures Unvalued(t') && t'.ends == t.ends
  {}

  lemma ResumedUnvalued(t: Table, p: Pid, tid: nat, want: int, a: Answer, t': Table)
    requires Unvalued(t) && p in t.procs && WaitedOn(t, p, tid, want, a, t')
    ensures Unvalued(t') && t'.ends == t.ends
  {
    hide Unvalued, Waited;
    var t1 :| WokeUp(t, p, tid, t1) && Waited(t1, p, tid, want, a, t');
    SleeperUnvalued(t, p, tid, t1);
    WaitedUnvalued(t1, p, tid, want, a, t');
  }

  lemma SleeperUnvalued(t: Table, p: Pid, tid: nat, t': Table)
    requires Unvalued(t) && p in t.procs && OnlySleeper(t, p, tid, t')
    ensures Unvalued(t') && t'.ends == t.ends
  {}

  lemma {:induction false} RunRecords(ts: seq<Table>, ops: seq<Op>, i: nat)
    requires Execution(ts, ops) && i <= |ops|
    ensures Unvalued(ts[i])
    ensures i > 0 ==> Recorded(ts[i - 1], ops[i - 1], ts[i])
  {
    hide Do, Started, Forked, Gone, Waited, WaitedOn, Unvalued, Recorded, WaitPid, ResumeWait, OnlySleeper;
    if i == 0 {
      NothingYet(ts[0]);
    } else {
      RunRecords(ts, ops, i - 1);
      var t, op, t' := ts[i - 1], ops[i - 1], ts[i];
      assert Enabled(t, op);
      match op {
        case Start => RunStarts(ts, ops, i - 1); BirthRecorded(t, op, t');
        case Fork(_) => RunForks(ts, ops, i - 1); BirthRecorded(t, op, t');
        case Exit(_, _) => RunExits(ts, ops, i - 1); GoneRecorded(t, op, t');
        case Stop(p) =>
          RunStops(ts, ops, i - 1);
          if p in t.procs {
            GoneRecorded(t, op, t');
          } else {
            SameRecorded(t, op, t');
          }
        case Wait(p, k, want, opts) =>
          RunWaitChanges(ts, ops, i - 1);
          WaitedUnvalued(t, p, k, want, WaitPid(t, p, k, want, opts).1, t');
          SameRecorded(t, op, t');
        case Resume(p, k, b) =>
          RunWaitChanges(ts, ops, i - 1);
          ResumedUnvalued(t, p, k, t.procs[p].sleepers[k].want, ResumeWait(t, p, k, b).1, t');
          SameRecorded(t, op, t');
        case Nudge(p, k) =>
          RunWaitChanges(ts, ops, i - 1);
          SleeperUnvalued(t, p, k, t');
          SameRecorded(t, op, t');
      }
      assert Recorded(t, op, t');
      RecordedUnvalued(t, op, t');
    }
  }

  lemma NothingYet(t: Table)
    requires Initial(t)
    ensures Unvalued(t)
  {}

  lemma RecordedUnvalued(t: Table, op: Op, t': Table)
    requires Recorded(t, op, t')
    ensures Unvalued(t')
  {}

  lemma SameRecorded(t: Table, op: Op, t': Table)
    requires Unvalued(t') && t'.ends == t.ends
    requires (op.Exit? || op.Stop?) ==> op.p !in t.procs
    ensures Recorded(t, op, t')
  {}

  /** The one exit or stop that ended the process with serial `s` before step `i`. */
  ghost predicate EndedAt(ts: seq<Table>, ops: seq<Op>, i: nat, j: nat, s: nat)
    requires i <= |ops| < |ts|
  {
    j < i && EndsAt(ts[j], ops[j], s) && forall k :: 0 <= k < i && EndsAt(ts[k], ops[k], s) ==> k == j
  }

  /**
   * In every run a process is on record as ended exactly if one exit or stop ended it, no second one
   * did, and the value on record is the argument of that exit, or 0 if it was stopped.
   */
  lemma {:induction false} RunEndValues(ts: seq<Table>, ops: seq<Op>, i: nat, s: nat)
    requires Execution(ts, ops) && i <= |ops|
    ensures s in ts[i].ends <==> exists j: nat :: EndedAt(ts, ops, i, j, s)
    ensures forall j: nat :: EndedAt(ts, ops, i, j, s) ==> s in ts[i].ends && ts[i].ends[s] == ValueOf(ops[j])
    ensures forall j: nat :: j < i && EndsAt(ts[j], ops[j], s) ==> EndedAt(ts, ops, i, j, s)
  {
    hide Do, Enabled, Inv, EndsAt, Initial, Unvalued;
    if i == 0 {
      NothingEnded(ts[0]);
    } else {
      RunEndValues(ts, ops, i - 1, s);
      RunRecords(ts, ops, i);
      RunKeeps(ts, ops, i - 1);
      if EndsAt(ts[i - 1], ops[i - 1], s) {
        NotYetEnded(ts[i - 1], ops[i - 1], s);
        forall k: nat | k < i - 1 ensures !EndsAt(ts[k], ops[k], s) {}
        assert EndedAt(ts, ops, i, i - 1, s);
      } else {
        forall j: nat ensures EndedAt(ts, ops, i, j, s) <==> EndedAt(ts, ops, i - 1, j, s) {}
        if s in ts[i].ends {
          var j: nat :| EndedAt(ts, ops, i - 1, j, s);
          assert EndedAt(ts, ops, i, j, s);
        }
      }
    }
  }

  lemma NothingEnded(t: Table)
    requires Initial(t)
    ensures t.ends == map[]
  {}

  lemma NotYetEnded(t: Table, op: Op, s: nat)
    requires Inv(t) && EndsAt(t, op, s)
    ensures s !in t.ends
  {
    hide Family, NoneLost, Genuine, ReapsRight, ReapedOnce;
  }

  /** In every run waitpid hands out, with each child, the value of the exit that ended it, or 0 if it was stopped. */
  lemma RunHandsOut(ts: seq<Table>, ops: seq<Op>, i: nat, p: Pid, a: Answer)
    requires Execution(ts, ops) && i < |ops| && Enabled(ts[i], ops[i]) && a.Child?
    requires match ops[i]
             case Wait(q, k, want, opts) => p == q && a == WaitPid(ts[i], q, k, want, opts).1
             case Resume(q, k, b) => p == q && a == ResumeWait(ts[i], q, k, b).1
             case _ => false
    ensures a.pid in ts[i].procs && ts[i].procs[a.pid].ppid == p
    ensures exists j: nat :: EndedAt(ts, ops, i, j, ts[i].procs[a.pid].serial) && a.status == ValueOf(ops[j])
  {
    hide Inv, WaitPid, ResumeWait, EndsAt, Do;
    RunWaits(ts, ops, i);
    var s := ts[i].procs[a.pid].serial;
    RunEndValues(ts, ops, i, s);
    var j: nat :| EndedAt(ts, ops, i, j, s);
    assert a.status == ValueOf(ops[j]);
  }
}
