/** Every run of the process table. */
module ProcessRuns {
  import opened Basics
  import opened ProcessTable

  // Families stay together, no wakeup is lost, and each ended child is handed to its own parent once.

  /** Nothing that the history is about differs. */
  ghost predicate SameHistory(t: Table, t': Table) {
    && t'.births == t.births && t'.ends == t.ends && t'.reaps == t.reaps
    && t'.procs.Keys == t.procs.Keys
    && forall p {:trigger t'.procs[p]} :: p in t.procs ==>
         var x, y := t.procs[p], t'.procs[p];
         y.serial == x.serial && y.ppid == x.ppid && y.zombie == x.zombie && (x.zombie ==> y.exitValue == x.exitValue)
  }

  lemma HistoryKept(t: Table, t': Table)
    requires History(t) && SameHistory(t, t')
    ensures History(t')
  {
    assert Genuine(t');
    assert Ended(t');
    assert ReapsRight(t');
  }

  // ----- Birth -----

  lemma BornFamily(t: Table, c: Pid)
    requires Family(t.procs) && Usable(t.procs, c) && c < 0x1_0000
    ensures Family(Born(t, c, 0, None).procs)
  {}

  lemma AdoptFamily(t: Table, c: Pid, p: Pid)
    requires Family(t.procs) && Usable(t.procs, c) && c < 0x1_0000 && Alive(t, p)
    ensures var t1 := Born(t, c, p, Some(t.procs[p].serial));
            1 < p && p in t1.procs && Family(Adopt(t1, p, c).procs)
  {}

  lemma BornNoneLost(t: Table, c: Pid, ppid: nat, parent: Option<nat>)
    requires Family(t.procs) && NoneLost(t.procs) && Usable(t.procs, c)
    ensures NoneLost(Born(t, c, ppid, parent).procs)
  {}

  lemma AdoptNoneLost(t: Table, p: Pid, c: Pid)
    requires NoneLost(t.procs) && Alive(t, p) && Alive(t, c)
    ensures NoneLost(Adopt(t, p, c).procs)
  {}

  lemma BornHistory(t: Table, c: Pid, ppid: nat, parent: Option<nat>)
    requires Family(t.procs) && History(t) && Usable(t.procs, c)
    requires if ppid == 0 then parent == None else Alive(t, ppid) && parent == Some(t.procs[ppid].serial)
    ensures History(Born(t, c, ppid, parent))
  {
    var t' := Born(t, c, ppid, parent);
    assert Genuine(t');
    assert Ended(t');
    assert ReapsRight(t');
  }

  lemma StartKeeps(t: Table)
    requires Inv(t)
    ensures Inv(NewProcess(t, 0, None).0)
  {
    hide Family, NoneLost, History;
    var k := ProbeFirst(t.procs, t.nextPid, 0);
    var r := NewProcess(t, 0, None);
    if r.1.Some? {
      var c := r.1.value;
      BornFamily(t, c);
      BornNoneLost(t, c, 0, None);
      BornHistory(t, c, 0, None);
    } else {
      HistoryKept(t, r.0);
    }
  }

  lemma ForkKeeps(t: Table, p: Pid)
    requires Inv(t) && Alive(t, p)
    ensures Inv(ForkProcess(t, p).0)
  {
    hide Family, NoneLost, History;
    var k := ProbeFirst(t.procs, t.nextPid, 0);
    var parent := Some(t.procs[p].serial);
    var r := NewProcess(t, p, parent);
    if r.1.Some? {
      var c := r.1.value;
      AdoptFamily(t, c, p);
      BornNoneLost(t, c, p, parent);
      AdoptNoneLost(r.0, p, c);
      BornHistory(t, c, p, parent);
      HistoryKept(r.0, Adopt(r.0, p, c));
    } else {
      HistoryKept(t, r.0);
    }
  }

  // ----- Death -----

  lemma DetachFamily(t: Table, p: Pid)
    requires Family(t.procs) && p in t.procs
    ensures var procs := Detach(t, p).procs;
            Family(procs) && p in procs && procs[p] == t.procs[p].(children := {}, sleepers := map[])
  {
    assert p !in t.procs[p].children;
  }

  lemma DetachNoneLost(t: Table, p: Pid)
    requires Family(t.procs) && NoneLost(t.procs) && p in t.procs
    ensures NoneLost(Detach(t, p).procs)
  {
    var procs := Detach(t, p).procs;
    forall q, tid {:trigger procs[q].sleepers[tid]} | q in procs && tid in procs[q].sleepers && !procs[q].sleepers[tid].woken
      ensures Patient(procs, q, procs[q].sleepers[tid].want)
    {
      assert q != p && procs[q].children == t.procs[q].children;
      assert Patient(t.procs, q, t.procs[q].sleepers[tid].want);
    }
  }

  lemma DetachHistory(t: Table, p: Pid)
    requires Family(t.procs) && History(t) && p in t.procs
    ensures History(Detach(t, p))
  {
    var t' := Detach(t, p);
    assert Genuine(t');
    assert Ended(t');
    assert ReapsRight(t');
  }

  lemma LingerFamily(t: Table, p: Pid)
    requires Family(t.procs) && p in t.procs && t.procs[p].ppid > 1
    requires t.procs[p].children == {} && t.procs[p].sleepers == map[]
    ensures Family(Linger(t, p).procs) && Linger(t, p).ok == t.ok
  {}

  lemma LingerNoneLost(t: Table, p: Pid)
    requires Family(t.procs) && NoneLost(t.procs) && p in t.procs && t.procs[p].ppid > 1
    requires t.procs[p].children == {} && t.procs[p].sleepers == map[]
    ensures NoneLost(Linger(t, p).procs)
  {
    var procs := Linger(t, p).procs;
    forall q, tid {:trigger procs[q].sleepers[tid]} | q in procs && tid in procs[q].sleepers && !procs[q].sleepers[tid].woken
      ensures Patient(procs, q, procs[q].sleepers[tid].want)
    {
      assert q != p && q != t.procs[p].ppid;
      assert Patient(t.procs, q, t.procs[q].sleepers[tid].want);
    }
  }

  lemma LingerProcs(t: Table, p: Pid)
    requires p in t.procs
    ensures var t' := Linger(t, p);
            && t'.births == t.births && t'.reaps == t.reaps && t'.ends == NoteEnd(t, p)
            && t'.procs.Keys == t.procs.Keys
            && forall q {:trigger t'.procs[q]} :: q in t.procs ==>
                 var x, y := t.procs[q], t'.procs[q];
                 y.serial == x.serial && y.ppid == x.ppid && y.zombie == (q == p || x.zombie) && y.exitValue == x.exitValue
  {}

  lemma LingerHistory(t: Table, p: Pid)
    requires History(t) && p in t.procs
    ensures History(Linger(t, p))
  {
    hide Linger;
    LingerProcs(t, p);
    var t' := Linger(t, p);
    assert Genuine(t');
    assert Ended(t');
    assert ReapsRight(t');
  }

  lemma EraseFamily(t: Table, p: Pid)
    requires Family(t.procs) && p in t.procs && t.procs[p].ppid <= 1 && t.procs[p].children == {}
    ensures Family(t.procs - {p})
  {}

  lemma EraseNoneLost(t: Table, p: Pid)
    requires Family(t.procs) && NoneLost(t.procs) && p in t.procs && t.procs[p].ppid <= 1
    ensures NoneLost(t.procs - {p})
  {
    var procs := t.procs - {p};
    forall q, tid {:trigger procs[q].sleepers[tid]} | q in procs && tid in procs[q].sleepers && !procs[q].sleepers[tid].woken
      ensures Patient(procs, q, procs[q].sleepers[tid].want)
    {
      assert Patient(t.procs, q, t.procs[q].sleepers[tid].want);
    }
  }

  lemma EraseHistory(t: Table, p: Pid)
    requires Family(t.procs) && History(t) && p in t.procs
    ensures History(t.(procs := t.procs - {p}, ends := NoteEnd(t, p)))
  {
    var t' := t.(procs := t.procs - {p}, ends := NoteEnd(t, p));
    assert Genuine(t');
    assert Ended(t');
    assert ReapsRight(t');
  }

  lemma DeleteKeeps(t: Table, p: Pid)
    requires Inv(t) && p in t.procs
    ensures Inv(Delete(t, p))
  {
    hide Family, NoneLost, History, Linger;
    DetachFamily(t, p);
    DetachNoneLost(t, p);
    DetachHistory(t, p);
    var t1 := Detach(t, p);
    if t1.procs[p].ppid > 1 {
      LingerFamily(t1, p);
      LingerNoneLost(t1, p);
      LingerHistory(t1, p);
    } else {
      EraseFamily(t1, p);
      EraseNoneLost(t1, p);
      EraseHistory(t1, p);
    }
  }

  /** The tables have the same shape: only exit values and sleepers of live processes differ. */
  ghost predicate SameShape(procs: map<Pid, Proc>, procs': map<Pid, Proc>) {
    && procs'.Keys == procs.Keys
    && forall p {:trigger procs'[p]} :: p in procs ==>
         var x, y := procs[p], procs'[p];
         y.ppid == x.ppid && y.children == x.children && y.zombie == x.zombie && (x.zombie ==> y.sleepers == x.sleepers)
  }

  lemma FamilyKept(procs: map<Pid, Proc>, procs': map<Pid, Proc>)
    requires Family(procs) && SameShape(procs, procs')
    ensures Family(procs')
  {}

  lemma NoneLostKept(procs: map<Pid, Proc>, procs': map<Pid, Proc>)
    requires SameShape(procs, procs')
    requires forall p, tid {:trigger procs'[p].sleepers[tid]} ::
               p in procs' && tid in procs'[p].sleepers && !procs'[p].sleepers[tid].woken ==>
                 Patient(procs, p, procs'[p].sleepers[tid].want)
    ensures NoneLost(procs')
  {}

  lemma ExitValueKeeps(t: Table, p: Pid, v: int)
    requires Inv(t) && Alive(t, p)
    ensures Inv(SetExitValue(t, p, v))
  {
    hide History, Family, Patient;
    var t' := SetExitValue(t, p, v);
    HistoryKept(t, t');
    FamilyKept(t.procs, t'.procs);
    NoneLostKept(t.procs, t'.procs);
  }

  // ----- Waiting -----

  lemma SleepersKeep(t: Table, p: Pid, s: map<nat, Sleeper>)
    requires Inv(t) && Alive(t, p)
    requires forall tid {:trigger s[tid]} :: tid in s && !s[tid].woken ==> Patient(t.procs, p, s[tid].want)
    ensures Inv(SetSleepers(t, p, s))
  {
    hide History, Family, Patient;
    var t' := SetSleepers(t, p, s);
    HistoryKept(t, t');
    FamilyKept(t.procs, t'.procs);
    NoneLostKept(t.procs, t'.procs);
  }

  ghost predicate EndedChild(t: Table, p: Pid, c: Pid) {
    Alive(t, p) && c in t.procs[p].children && c in t.procs && t.procs[c].zombie
  }

  lemma ReapFamily(t: Table, p: Pid, c: Pid)
    requires Family(t.procs) && EndedChild(t, p, c)
    ensures Family(Reaped(t, p, c).procs)
  {}

  lemma ReapNoneLost(t: Table, p: Pid, c: Pid)
    requires Family(t.procs) && NoneLost(t.procs) && EndedChild(t, p, c)
    ensures NoneLost(Reaped(t, p, c).procs)
  {
    var t' := Reaped(t, p, c);
    forall q, tid {:trigger t'.procs[q].sleepers[tid]} |
      q in t'.procs && tid in t'.procs[q].sleepers && !t'.procs[q].sleepers[tid].woken
      ensures Patient(t'.procs, q, t'.procs[q].sleepers[tid].want)
    {
      var want := t.procs[q].sleepers[tid].want;
      assert Patient(t.procs, q, want);
      var d :| d in t.procs[q].children && Wants(want, d);
      assert d in t'.procs[q].children;
    }
  }

  lemma ReapHistory(t: Table, p: Pid, c: Pid)
    requires Family(t.procs) && History(t) && EndedChild(t, p, c)
    ensures History(Reaped(t, p, c))
  {
    var t' := Reaped(t, p, c);
    assert t.procs[c].ppid == p;
    assert Genuine(t');
    assert Ended(t');
    assert ReapsRight(t');
  }

  lemma ReapKeeps(t: Table, p: Pid, c: Pid)
    requires Inv(t) && EndedChild(t, p, c)
    ensures Inv(Reaped(t, p, c))
  {
    hide Family, NoneLost, History;
    ReapFamily(t, p, c);
    ReapNoneLost(t, p, c);
    ReapHistory(t, p, c);
  }

  lemma ScanKeeps(t: Table, p: Pid, tid: nat, want: int, nohang: bool)
    requires Inv(t) && Alive(t, p)
    ensures Inv(Scan(t, p, tid, want, nohang).0)
  {
    hide Genuine, Ended, ReapsRight, ReapedOnce;
    if Zombies(t, p, want) != {} {
      ReapKeeps(t, p, Least(Zombies(t, p, want)));
    } else if Matching(t, p, want) != {} && !nohang {
      ScanPatient(t, p, want);
      SleepersKeep(t, p, t.procs[p].sleepers[tid := Sleeper(want, false)]);
    }
  }

  lemma ScanPatient(t: Table, p: Pid, want: int)
    requires Family(t.procs) && p in t.procs && Zombies(t, p, want) == {} && Matching(t, p, want) != {}
    ensures Patient(t.procs, p, want)
  {
    var c :| c in Matching(t, p, want);
    forall c | c in t.procs[p].children && c in t.procs && Wants(want, c) ensures !t.procs[c].zombie {
      assert c in Matching(t, p, want);
      assert c !in Zombies(t, p, want);
    }
  }

  lemma StepKeeps(t: Table, op: Op)
    requires Inv(t) && Enabled(t, op)
    ensures Inv(Do(t, op))
  {
    hide Family, NoneLost, History, Scan;
    match op
    case Start => StartKeeps(t);
    case Fork(p) => ForkKeeps(t, p);
    case Exit(p, v) =>
      ExitValueKeeps(t, p, v);
      DeleteKeeps(SetExitValue(t, p, v), p);
    case Stop(p) =>
      if p in t.procs {
        DeleteKeeps(t, p);
      }
    case Wait(p, tid, want, opts) =>
      ScanKeeps(t, p, tid, want, opts.nohang);
    case Resume(p, tid, i) =>
      SleeperAlive(t, p, tid);
      SleepersKeep(t, p, t.procs[p].sleepers - {tid});
      ScanKeeps(SetSleepers(t, p, t.procs[p].sleepers - {tid}), p, tid, t.procs[p].sleepers[tid].want, false);
    case Nudge(p, tid) =>
      SleeperAlive(t, p, tid);
      SleepersKeep(t, p, t.procs[p].sleepers[tid := t.procs[p].sleepers[tid].(woken := true)]);
  }

  lemma SleeperAlive(t: Table, p: Pid, tid: nat)
    requires Inv(t) && Sleeps(t, p, tid)
    ensures Alive(t, p)
    ensures forall k {:trigger t.procs[p].sleepers[k]} ::
              k in t.procs[p].sleepers && !t.procs[p].sleepers[k].woken ==> Patient(t.procs, p, t.procs[p].sleepers[k].want)
  {}

  lemma {:induction false} RunKeeps(ts: seq<Table>, ops: seq<Op>, i: nat)
    requires Execution(ts, ops) && i <= |ops|
    ensures Inv(ts[i])
  {
    hide Do, Enabled;
    if i > 0 {
      RunKeeps(ts, ops, i - 1);
      assert Enabled(ts[i - 1], ops[i - 1]) && ts[i] == Do(ts[i - 1], ops[i - 1]);
      StepKeeps(ts[i - 1], ops[i - 1]);
    }
  }

  // ----- What every reachable table guarantees -----

  /** Children are exactly the processes that name this parent, and every parent is a live process. */
  lemma RunFamily(ts: seq<Table>, ops: seq<Op>, i: nat, p: Pid)
    requires Execution(ts, ops) && i <= |ops| && p in ts[i].procs
    ensures var procs := ts[i].procs;
            && procs[p].children == (set c | c in procs && procs[c].ppid == p)
            && (procs[p].ppid > 1 ==> Alive(ts[i], procs[p].ppid))
            && (procs[p].zombie ==> procs[p].ppid > 1)
  {
    hide Do, Enabled, NoneLost, History;
    RunKeeps(ts, ops, i);
    var procs := ts[i].procs;
    forall c ensures c in procs[p].children <==> c in procs && procs[c].ppid == p {}
  }

  /** A wait for -1 means any child, every other wait the child with that pid. */
  ghost predicate IsMeant(want: int, c: Pid) {
    if want == -1 then true else c == want
  }

  lemma WantsMeant(want: int)
    ensures forall c: Pid {:trigger Wants(want, c)} {:trigger IsMeant(want, c)} :: Wants(want, c) <==> IsMeant(want, c)
  {}

  /** A thread asleep in waitpid has a live child to wait for, or somebody has woken it. */
  lemma RunLosesNoWakeup(ts: seq<Table>, ops: seq<Op>, i: nat, p: Pid, tid: nat)
    requires Execution(ts, ops) && i <= |ops| && Sleeps(ts[i], p, tid) && !ts[i].procs[p].sleepers[tid].woken
    ensures var procs, want := ts[i].procs, ts[i].procs[p].sleepers[tid].want;
            && (forall c :: c in procs && procs[c].ppid == p && IsMeant(want, c) ==> !procs[c].zombie)
            && (exists c :: c in procs && procs[c].ppid == p && IsMeant(want, c))
  {
    hide Do, Enabled, History;
    RunKeeps(ts, ops, i);
    var procs, want := ts[i].procs, ts[i].procs[p].sleepers[tid].want;
    assert Patient(procs, p, want);
    var c :| c in procs[p].children && Wants(want, c);
    assert c in procs && procs[c].ppid == p;
  }

  /** Every ended child is handed out at most once, to the process that forked it, with the value it ended with. */
  lemma RunReapsOnce(ts: seq<Table>, ops: seq<Op>, i: nat, a: nat, b: nat)
    requires Execution(ts, ops) && i <= |ops| && a < |ts[i].reaps| && b < |ts[i].reaps|
    ensures var r := ts[i].reaps[a];
            && r.child in ts[i].ends && r.value == ts[i].ends[r.child]
            && r.child < |ts[i].births| && ts[i].births[r.child].parent == Some(r.parent)
    ensures ts[i].reaps[a].child == ts[i].reaps[b].child ==> a == b
  {
    hide Do, Enabled, Family, NoneLost;
    RunKeeps(ts, ops, i);
  }

  /**
   * The answer to process `p` is right, judged by the parents the processes name: ECHILD exactly
   * when none of its children is wanted, the smallest ended one with its value when there is one,
   * and otherwise the caller sleeps or is told to come back.
   */
  ghost predicate Tells(t: Table, p: Pid, want: int, nohang: bool, a: Answer) {
    var procs := t.procs;
    && (a == Failed(ECHILD) <==> forall c :: c in procs && procs[c].ppid == p ==> !IsMeant(want, c))
    && (a.Child? <==> exists c :: c in procs && procs[c].ppid == p && IsMeant(want, c) && procs[c].zombie)
    && (a.Child? ==>
          && a.pid in procs && procs[a.pid].ppid == p && IsMeant(want, a.pid) && procs[a.pid].zombie
          && procs[a.pid].serial in t.ends && a.status == t.ends[procs[a.pid].serial]
          && forall c :: c in procs && procs[c].ppid == p && IsMeant(want, c) && procs[c].zombie ==> a.pid <= c)
    && (a == NotYet ==> nohang) && (a == Asleep ==> !nohang) && (a.Failed? ==> a.err == ECHILD)
  }

  /** What a scan answers. */
  lemma RunScans(ts: seq<Table>, ops: seq<Op>, i: nat, p: Pid, tid: nat, want: int, nohang: bool)
    requires Execution(ts, ops) && i <= |ops| && Alive(ts[i], p)
    ensures Tells(ts[i], p, want, nohang, Scan(ts[i], p, tid, want, nohang).1)
  {
    hide Do, Enabled, Inv, Scan;
    RunKeeps(ts, ops, i);
    ScanMeans(ts[i], p, tid, want, nohang);
  }

  /**
   * What waitpid answers in every run: EINVAL exactly for the options and targets it does not
   * support, and otherwise as the family of the caller stands; a waiter that runs again fails with
   * EINTR exactly if it was interrupted and otherwise is told the same; the child handed out is
   * gone, and the caller is asleep exactly if that is the answer.
   */
  lemma RunWaits(ts: seq<Table>, ops: seq<Op>, i: nat)
    requires Execution(ts, ops) && i < |ops| && Enabled(ts[i], ops[i])
    ensures match ops[i]
            case Wait(q, k, want, opts) =>
              var a := WaitPid(ts[i], q, k, want, opts).1;
              && (a == Failed(EINVAL) <==> opts.untraced || opts.continued || want == 0 || want < -1)
              && (if a == Failed(EINVAL) then ts[i + 1] == ts[i] else Tells(ts[i], q, want, opts.nohang, a))
              && (a.Child? ==> a.pid !in ts[i + 1].procs)
              && (Sleeps(ts[i + 1], q, k) <==> a == Asleep)
            case Resume(q, k, interrupted) =>
              var a := ResumeWait(ts[i], q, k, interrupted).1;
              && (a == Failed(EINTR) <==> interrupted)
              && (!interrupted ==> Tells(ts[i], q, ts[i].procs[q].sleepers[k].want, false, a))
              && (a.Child? ==> a.pid !in ts[i + 1].procs)
              && (Sleeps(ts[i + 1], q, k) <==> a == Asleep)
              && (a == Asleep ==> !ts[i + 1].procs[q].sleepers[k].woken)
            case _ => true
  {
    hide Inv, Tells, Scan, SetSleepers;
    RunKeeps(ts, ops, i);
    assert Enabled(ts[i], ops[i]) && ts[i + 1] == Do(ts[i], ops[i]);
    match ops[i]
    case Wait(q, k, want, opts) =>
      ScanSleeps(ts[i], q, k, want, opts.nohang);
      ScanMeans(ts[i], q, k, want, opts.nohang);
      NotInvalid(ts[i], q, want, opts.nohang, Scan(ts[i], q, k, want, opts.nohang).1);
    case Resume(q, k, interrupted) =>
      var t1, want := SetSleepers(ts[i], q, ts[i].procs[q].sleepers - {k}), ts[i].procs[q].sleepers[k].want;
      SleeperAlive(ts[i], q, k);
      ResumeInv(ts[i], q, k);
      Awake(ts[i], q, k);
      ScanSleeps(t1, q, k, want, false);
      ScanMeans(t1, q, k, want, false);
      NotInvalid(t1, q, want, false, Scan(t1, q, k, want, false).1);
      TellsSame(ts[i], q, ts[i].procs[q].sleepers - {k}, want, Scan(t1, q, k, want, false).1);
    case _ =>
  }

  lemma NotInvalid(t: Table, p: Pid, want: int, nohang: bool, a: Answer)
    requires Tells(t, p, want, nohang, a)
    ensures a.Failed? ==> a.err == ECHILD
  {}

  lemma Awake(t: Table, p: Pid, tid: nat)
    requires Alive(t, p)
    ensures var t' := SetSleepers(t, p, t.procs[p].sleepers - {tid}); Alive(t', p) && !Sleeps(t', p, tid)
  {}

  lemma TellsSame(t: Table, p: Pid, sleepers: map<nat, Sleeper>, want: int, a: Answer)
    requires p in t.procs && Tells(SetSleepers(t, p, sleepers), p, want, false, a)
    ensures Tells(t, p, want, false, a)
  {
    var t' := SetSleepers(t, p, sleepers);
    assert forall c :: c in t.procs ==> t'.procs[c].ppid == t.procs[c].ppid && t'.procs[c].zombie == t.procs[c].zombie && t'.procs[c].serial == t.procs[c].serial;
    if c :| c in t.procs && t.procs[c].ppid == p && IsMeant(want, c) && t.procs[c].zombie {
      assert c in t'.procs && t'.procs[c].zombie;
    }
  }

  lemma ResumeInv(t: Table, p: Pid, tid: nat)
    requires Inv(t) && Sleeps(t, p, tid)
    ensures Inv(SetSleepers(t, p, t.procs[p].sleepers - {tid})) && Alive(t, p)
  {
    hide Family, NoneLost, History;
    SleeperAlive(t, p, tid);
    SleepersKeep(t, p, t.procs[p].sleepers - {tid});
  }

  lemma ScanSleeps(t: Table, p: Pid, tid: nat, want: int, nohang: bool)
    requires Inv(t) && Alive(t, p) && !Sleeps(t, p, tid)
    ensures var (t', a) := Scan(t, p, tid, want, nohang);
            && (Sleeps(t', p, tid) <==> a == Asleep)
            && (a == Asleep ==> !t'.procs[p].sleepers[tid].woken)
            && (a.Child? ==> a.pid !in t'.procs)
            && (a.Failed? ==> a.err == ECHILD && t' == t)
  {
    hide NoneLost, History, Least;
    if Zombies(t, p, want) != {} {
      assert Least(Zombies(t, p, want)) in Zombies(t, p, want);
    }
  }

  lemma MatchingMeans(t: Table, p: Pid, want: int)
    requires Family(t.procs) && p in t.procs
    ensures forall c :: c in Matching(t, p, want) <==> c in t.procs && t.procs[c].ppid == p && Wants(want, c)
    ensures forall c :: c in Zombies(t, p, want) <==> c in t.procs && t.procs[c].ppid == p && Wants(want, c) && t.procs[c].zombie
  {}

  lemma ScanMeans(t: Table, p: Pid, tid: nat, want: int, nohang: bool)
    requires Inv(t) && Alive(t, p)
    ensures Tells(t, p, want, nohang, Scan(t, p, tid, want, nohang).1)
  {
    hide Matching, Zombies, NoneLost, Wants, IsMeant;
    WantsMeant(want);
    MatchingMeans(t, p, want);
    var m, z := Matching(t, p, want), Zombies(t, p, want);
    if z != {} {
      assert Least(z) in z;
    } else if m == {} {
      forall c | c in t.procs && t.procs[c].ppid == p ensures !Wants(want, c) {
        assert c !in m;
      }
    } else {
      var c :| c in m;
      assert Wants(want, c);
    }
    forall c | c in t.procs && t.procs[c].ppid == p && Wants(want, c) ensures c in m {}
    forall c | c in t.procs && t.procs[c].ppid == p && Wants(want, c) && t.procs[c].zombie ensures c in z {}
  }

  /**
   * A zombie keeps its pid until its parent is handed it or ends: no new process gets the pid
   * of a child that has not been waited for.
   */
  lemma ZombieStays(t: Table, op: Op, c: Pid)
    requires Inv(t) && Enabled(t, op) && c in t.procs && t.procs[c].zombie
    ensures var t' := Do(t, op);
            if c in t'.procs then t'.procs[c].serial == t.procs[c].serial && t'.procs[c].zombie
            else
              || (|t'.reaps| == |t.reaps| + 1 && t'.reaps[|t.reaps|].child == t.procs[c].serial)
              || (t'.reaps == t.reaps && !Alive(t', t.procs[c].ppid))
  {
    hide NoneLost, History, Least;
    match op
    case Start => var k := ProbeFirst(t.procs, t.nextPid, 0);
    case Fork(p) => var k := ProbeFirst(t.procs, t.nextPid, 0);
    case Exit(p, v) =>
      ExitValueKeeps(t, p, v);
      DeleteZombies(SetExitValue(t, p, v), p, c);
    case Stop(p) =>
      if p in t.procs {
        DeleteZombies(t, p, c);
      }
    case Wait(p, tid, want, opts) =>
      ScanZombies(t, p, tid, want, opts.nohang, c);
    case Resume(p, tid, i) =>
      SleeperAlive(t, p, tid);
      ScanZombies(SetSleepers(t, p, t.procs[p].sleepers - {tid}), p, tid, t.procs[p].sleepers[tid].want, false, c);
    case Nudge(p, tid) =>
  }

  lemma DeleteZombies(t: Table, p: Pid, c: Pid)
    requires Family(t.procs) && p in t.procs && c in t.procs && t.procs[c].zombie
    ensures var t' := Delete(t, p);
            t'.reaps == t.reaps &&
            if c in t'.procs then t'.procs[c].serial == t.procs[c].serial && t'.procs[c].zombie
            else t.procs[c].ppid == p && !Alive(t', p)
  {
    hide Linger;
    DetachFamily(t, p);
    LingerProcs(Detach(t, p), p);
  }

  lemma ScanZombies(t: Table, p: Pid, tid: nat, want: int, nohang: bool, c: Pid)
    requires Alive(t, p) && c in t.procs && t.procs[c].zombie
    ensures var t' := Scan(t, p, tid, want, nohang).0;
            if c in t'.procs then t'.procs[c].serial == t.procs[c].serial && t'.procs[c].zombie
            else |t'.reaps| == |t.reaps| + 1 && t'.reaps[|t.reaps|].child == t.procs[c].serial
  {}

  lemma RunZombieStays(ts: seq<Table>, ops: seq<Op>, i: nat, c: Pid)
    requires Execution(ts, ops) && i < |ops| && c in ts[i].procs && ts[i].procs[c].zombie
    ensures var t, t' := ts[i], ts[i + 1];
            if c in t'.procs then t'.procs[c].serial == t.procs[c].serial && t'.procs[c].zombie
            else
              || (|t'.reaps| == |t.reaps| + 1 && t'.reaps[|t.reaps|].child == t.procs[c].serial)
              || (t'.reaps == t.reaps && !Alive(t', t.procs[c].ppid))
  {
    hide Inv, Do, Enabled;
    RunKeeps(ts, ops, i);
    assert Enabled(ts[i], ops[i]) && ts[i + 1] == Do(ts[i], ops[i]);
    ZombieStays(ts[i], ops[i], c);
  }
}
