/** The table of virtual processes: start, fork, exit, stop and waitpid. */
module ProcessTable {
  import opened Basics

  // Between two scheduling points everything is atomic, so each operation is one step of a
  // transition system.  A thread inside waitpid sleeps until somebody wakes it and then scans
  // its process's children again.

  type Pid = nat

  /** A thread asleep in waitpid: which child it waits for, and whether it has been made runnable again. */
  datatype Sleeper = Sleeper(want: int, woken: bool)

  /** `serial` tells apart the processes that use the same pid one after the other. */
  datatype Proc = Proc(
    ppid: nat,
    children: set<Pid>,
    zombie: bool,
    exitValue: int,
    serial: nat,
    sleepers: map<nat, Sleeper>)

  /** The process with serial s is the s-th to be born. */
  datatype Birth = Birth(pid: Pid, parent: Option<nat>)

  /** Process `parent` got `value` for the process `child`; both are serials. */
  datatype Reap = Reap(child: nat, parent: nat, value: int)

  /**
   * `births`, `ends` and `reaps` are history: who was forked by whom, which value each ended
   * process ended with, and what waitpid has handed out.  `fatal` is set when no pid is left, and `ok`
   * cleared when an assertion of the code fails.
   */
  datatype Table = Table(
    procs: map<Pid, Proc>,
    nextPid: nat,
    births: seq<Birth>,
    ends: map<nat, int>,
    reaps: seq<Reap>,
    fatal: bool,
    ok: bool)

  datatype Errno = EINVAL | ECHILD | EINTR

  datatype Answer = Child(pid: Pid, status: int) | NotYet | Failed(err: Errno) | Asleep

  datatype Options = Options(nohang: bool, untraced: bool, continued: bool)

  datatype Op =
    | Start
    | Fork(p: Pid)
    | Exit(p: Pid, value: int)
    | Stop(p: Pid)
    | Wait(p: Pid, tid: nat, want: int, opts: Options)
    | Resume(p: Pid, tid: nat, interrupted: bool)
    | Nudge(p: Pid, tid: nat)

  // ----- Choosing a pid -----

  function Candidate(next: nat, i: nat): Pid {
    (next + i) % 0x1_0000
  }

  predicate Usable(procs: map<Pid, Proc>, c: Pid) {
    c > 1 && c !in procs
  }

  /** The first usable pid at or after the cursor, trying 65535 of the 65536 values. */
  ghost function Probe(procs: map<Pid, Proc>, next: nat, i: nat): Option<Pid>
    requires i <= 0xffff
    decreases 0xffff - i
  {
    if i == 0xffff then None
    else if Usable(procs, Candidate(next, i)) then Some(Candidate(next, i))
    else Probe(procs, next, i + 1)
  }

  /** The answer is a free pid above 1, and nothing between the cursor and it was usable. */
  lemma {:induction false} ProbeFirst(procs: map<Pid, Proc>, next: nat, i: nat) returns (k: nat)
    requires i <= 0xffff
    ensures i <= k <= 0xffff
    ensures forall j :: i <= j < k ==> !Usable(procs, Candidate(next, j))
    ensures match Probe(procs, next, i)
            case Some(c) => k < 0xffff && c == Candidate(next, k) && Usable(procs, c) && c < 0x1_0000
            case None => k == 0xffff
    decreases 0xffff - i
  {
    if i == 0xffff || Usable(procs, Candidate(next, i)) {
      k := i;
    } else {
      k := ProbeFirst(procs, next, i + 1);
    }
  }

  /** Allocation fails exactly when each of the 65535 values from the cursor on is reserved or taken. */
  lemma PidExhausted(procs: map<Pid, Proc>, next: nat)
    ensures Probe(procs, next, 0).None? <==> forall i :: 0 <= i < 0xffff ==> !Usable(procs, Candidate(next, i))
  {
    var k := ProbeFirst(procs, next, 0);
  }

  // ----- Sets of pids -----

  lemma {:induction false} LeastExists(s: set<Pid>) returns (m: Pid)
    requires s != {}
    ensures m in s && forall x :: x in s ==> m <= x
    decreases s
  {
    m :| m in s;
    if s - {m} != {} {
      var k := LeastExists(s - {m});
      assert forall x :: x in s ==> x == m || x in s - {m};
      if k < m {
        m := k;
      }
    } else {
      assert s == {m};
    }
  }

  /** The smallest pid of `s`: where an iterator over the set starts. */
  function Least(s: set<Pid>): (m: Pid)
    requires s != {}
    ensures m in s && forall x :: x in s ==> m <= x
  {
    assert exists m :: m in s && forall x :: x in s ==> m <= x by {
      var m := LeastExists(s);
    }
    var m :| m in s && forall x :: x in s ==> m <= x;
    m
  }

  // ----- The operations -----

  predicate Wants(want: int, c: Pid) {
    want == -1 || want == c
  }

  /** The children a wait is about, and those among them that have ended. */
  ghost function Matching(t: Table, p: Pid, want: int): set<Pid>
    requires p in t.procs
  {
    set c | c in t.procs[p].children && c > 1 && c in t.procs && Wants(want, c)
  }

  ghost function Zombies(t: Table, p: Pid, want: int): set<Pid>
    requires p in t.procs
  {
    set c | c in Matching(t, p, want) && t.procs[c].zombie
  }

  function Woken(s: map<nat, Sleeper>): map<nat, Sleeper> {
    map tid | tid in s :: s[tid].(woken := true)
  }

  /** The children of an ended process go to pid 1; those that had ended too are forgotten. */
  ghost function Orphaned(procs: map<Pid, Proc>, cs: set<Pid>): map<Pid, Proc> {
    map q | q in procs && !(q in cs && q > 1 && procs[q].zombie) ::
      if q in cs then procs[q].(ppid := 1) else procs[q]
  }

  ghost function NewProcess(t: Table, ppid: nat, parent: Option<nat>): (Table, Option<Pid>) {
    match Probe(t.procs, t.nextPid, 0)
    case None => (t.(fatal := true), None)
    case Some(c) => (Born(t, c, ppid, parent), Some(c))
  }

  ghost function Born(t: Table, c: Pid, ppid: nat, parent: Option<nat>): Table {
    t.(procs := t.procs[c := Proc(ppid, {}, false, 0, |t.births|, map[])],
       nextPid := (c + 1) % 0x1_0000,
       births := t.births + [Birth(c, parent)])
  }

  ghost function Adopt(t: Table, p: Pid, c: Pid): Table
    requires p in t.procs
  {
    t.(procs := t.procs[p := t.procs[p].(children := t.procs[p].children + {c})])
  }

  ghost function ForkProcess(t: Table, p: Pid): (Table, Option<Pid>)
    requires p in t.procs
  {
    var r := NewProcess(t, p, Some(t.procs[p].serial));
    match r.1
    case None => r
    case Some(c) => (Adopt(r.0, p, c), r.1)
  }

  /** The threads of an ended process are gone and its children have no parent any more. */
  ghost function Detach(t: Table, p: Pid): Table
    requires p in t.procs
  {
    var x := t.procs[p];
    t.(procs := Orphaned(t.procs[p := x.(children := {}, sleepers := map[])], x.children))
  }

  ghost function NoteEnd(t: Table, p: Pid): map<nat, int>
    requires p in t.procs
  {
    if t.procs[p].zombie then t.ends else t.ends[t.procs[p].serial := t.procs[p].exitValue]
  }

  /** It waits as a zombie for its parent, whose waiting threads are woken. */
  ghost function Linger(t: Table, p: Pid): Table
    requires p in t.procs
  {
    var x := t.procs[p];
    var procs := t.procs[p := x.(zombie := true)];
    if x.ppid !in procs then t.(procs := procs, ends := NoteEnd(t, p), ok := false)
    else
      var y := procs[x.ppid];
      t.(procs := procs[x.ppid := y.(sleepers := Woken(y.sleepers))], ends := NoteEnd(t, p))
  }

  /** A process ends. */
  ghost function Delete(t: Table, p: Pid): Table
    requires p in t.procs
  {
    var t1 := Detach(t, p);
    if p !in t1.procs then t1.(ok := false)
    else if t1.procs[p].ppid > 1 then Linger(t1, p)
    else t1.(procs := t1.procs - {p}, ends := NoteEnd(t1, p))
  }

  ghost function SetExitValue(t: Table, p: Pid, v: int): Table
    requires p in t.procs
  {
    t.(procs := t.procs[p := t.procs[p].(exitValue := v)])
  }

  /** Child `c` of `p` is handed to its parent and disappears. */
  ghost function Reaped(t: Table, p: Pid, c: Pid): Table
    requires p in t.procs && c in t.procs
  {
    var x, y := t.procs[p], t.procs[c];
    t.(procs := t.procs[p := x.(children := x.children - {c})] - {c},
       reaps := t.reaps + [Reap(y.serial, x.serial, y.exitValue)])
  }

  ghost function SetSleepers(t: Table, p: Pid, s: map<nat, Sleeper>): Table
    requires p in t.procs
  {
    t.(procs := t.procs[p := t.procs[p].(sleepers := s)])
  }

  /** One pass of the retry loop over the children. */
  ghost function Scan(t: Table, p: Pid, tid: nat, want: int, nohang: bool): (Table, Answer)
    requires p in t.procs
  {
    if Zombies(t, p, want) != {} then
      var c := Least(Zombies(t, p, want));
      (Reaped(t, p, c), Child(c, t.procs[c].exitValue))
    else if Matching(t, p, want) == {} then (t, Failed(ECHILD))
    else if nohang then (t, NotYet)
    else (SetSleepers(t, p, t.procs[p].sleepers[tid := Sleeper(want, false)]), Asleep)
  }

  ghost function WaitPid(t: Table, p: Pid, tid: nat, want: int, opts: Options): (Table, Answer)
    requires p in t.procs
  {
    if opts.untraced || opts.continued then (t, Failed(EINVAL))
    else if want == 0 || want < -1 then (t, Failed(EINVAL))
    else Scan(t, p, tid, want, opts.nohang)
  }

  ghost function ResumeWait(t: Table, p: Pid, tid: nat, interrupted: bool): (Table, Answer)
    requires p in t.procs && tid in t.procs[p].sleepers
  {
    var t1 := SetSleepers(t, p, t.procs[p].sleepers - {tid});
    if interrupted then (t1, Failed(EINTR))
    else Scan(t1, p, tid, t.procs[p].sleepers[tid].want, false)
  }

  // ----- Runs -----

  ghost predicate Alive(t: Table, p: Pid) {
    p in t.procs && !t.procs[p].zombie
  }

  ghost predicate Sleeps(t: Table, p: Pid, tid: nat) {
    p in t.procs && tid in t.procs[p].sleepers
  }

  ghost predicate Enabled(t: Table, op: Op) {
    !t.fatal &&
    match op
    case Start => true
    case Fork(p) => Alive(t, p)
    case Exit(p, _) => Alive(t, p)
    case Stop(p) => true
    case Wait(p, tid, _, _) => Alive(t, p) && !Sleeps(t, p, tid)
    case Resume(p, tid, _) => Sleeps(t, p, tid) && t.procs[p].sleepers[tid].woken
    case Nudge(p, tid) => Sleeps(t, p, tid)
  }

  ghost function Do(t: Table, op: Op): Table
    requires Enabled(t, op)
  {
    match op
    case Start => NewProcess(t, 0, None).0
    case Fork(p) => ForkProcess(t, p).0
    case Exit(p, v) => Delete(SetExitValue(t, p, v), p)
    case Stop(p) => if p in t.procs then Delete(t, p) else t
    case Wait(p, tid, want, opts) => WaitPid(t, p, tid, want, opts).0
    case Resume(p, tid, i) => ResumeWait(t, p, tid, i).0
    case Nudge(p, tid) => SetSleepers(t, p, t.procs[p].sleepers[tid := t.procs[p].sleepers[tid].(woken := true)])
  }

  /** The first pid to try is an attribute of the manager. */
  ghost predicate Initial(t: Table) {
    t == Table(map[], t.nextPid, [], map[], [], false, true) && t.nextPid < 0x1_0000
  }

  ghost predicate Execution(ts: seq<Table>, ops: seq<Op>) {
    && |ts| == |ops| + 1 && Initial(ts[0])
    && forall i :: 0 <= i < |ops| ==> Enabled(ts[i], ops[i]) && ts[i + 1] == Do(ts[i], ops[i])
  }

  // ----- The invariant -----

  /** Parents and children know each other, and a process with a parent has a live one. */
  ghost predicate Family(procs: map<Pid, Proc>) {
    && (forall p :: p in procs ==> 1 < p < 0x1_0000)
    && (forall p {:trigger procs[p].ppid} :: p in procs ==> procs[p].ppid != p)
    && (forall p, c {:trigger c in procs[p].children} :: p in procs && c in procs[p].children ==> c in procs && procs[c].ppid == p)
    && (forall c {:trigger procs[c].ppid} :: c in procs && procs[c].ppid > 1 ==>
          var p := procs[c].ppid; p in procs && !procs[p].zombie && c in procs[p].children)
    && (forall p {:trigger procs[p].zombie} :: p in procs && procs[p].zombie ==>
          procs[p].ppid > 1 && procs[p].children == {} && procs[p].sleepers == map[])
  }

  /** A thread asleep and not yet woken still has a child to wait for, and none of those has ended. */
  ghost predicate Patient(procs: map<Pid, Proc>, p: Pid, want: int)
    requires p in procs
  {
    && (forall c :: c in procs[p].children && c in procs && Wants(want, c) ==> !procs[c].zombie)
    && (exists c :: c in procs[p].children && Wants(want, c))
  }

  ghost predicate NoneLost(procs: map<Pid, Proc>) {
    forall p, tid {:trigger procs[p].sleepers[tid]} ::
      p in procs && tid in procs[p].sleepers && !procs[p].sleepers[tid].woken ==>
        Patient(procs, p, procs[p].sleepers[tid].want)
  }

  /** A process in the table holds its own record of birth, and its parent is the one that forked it. */
  ghost predicate Genuine(t: Table) {
    forall p {:trigger t.procs[p].serial} :: p in t.procs ==>
      && t.procs[p].serial < |t.births| && t.births[t.procs[p].serial].pid == p
      && (t.procs[p].ppid in t.procs ==> t.births[t.procs[p].serial].parent == Some(t.procs[t.procs[p].ppid].serial))
  }

  /** The zombies, and only they, have ended, with the value they still hold. */
  ghost predicate Ended(t: Table) {
    && (forall p {:trigger t.procs[p].zombie} :: p in t.procs ==>
          if t.procs[p].zombie then t.procs[p].serial in t.ends && t.ends[t.procs[p].serial] == t.procs[p].exitValue
          else t.procs[p].serial !in t.ends)
    && (forall s {:trigger s in t.ends} :: s in t.ends ==> s < |t.births|)
  }

  /** Each reap was of an ended process, gone since, by the one that forked it and with its value. */
  ghost predicate ReapsRight(t: Table) {
    forall i {:trigger t.reaps[i]} :: 0 <= i < |t.reaps| ==>
      var r := t.reaps[i];
      && r.child in t.ends && t.ends[r.child] == r.value
      && r.child < |t.births| && t.births[r.child].parent == Some(r.parent)
      && (forall p {:trigger t.procs[p].serial} :: p in t.procs ==> t.procs[p].serial != r.child)
  }

  ghost predicate ReapedOnce(t: Table) {
    forall i, j {:trigger t.reaps[i], t.reaps[j]} :: 0 <= i < j < |t.reaps| ==> t.reaps[i].child != t.reaps[j].child
  }

  ghost predicate History(t: Table) {
    Genuine(t) && Ended(t) && ReapsRight(t) && ReapedOnce(t)
  }

  ghost predicate Inv(t: Table) {
    t.ok && Family(t.procs) && NoneLost(t.procs) && History(t)
  }
}
