/** Thread records: create, exit, join and detach. */
module Threads {
  import opened Basics

  // A joiner keeps a pointer to the record it waits for across scheduling points.  Records are
  // named by a serial number here, so that one deleted too early could not be mistaken for a
  // later one with the same thread id.

  type Serial = nat

  datatype Rec = Rec(tid: nat, detached: bool, hasExit: bool, exitValue: int, joinWaiter: Option<Serial>)

  /** Thread `joiner` was given `value` for the record `target`. */
  datatype Joined = Joined(target: Serial, joiner: Serial, value: int)

  /**
   * `joining` says which record each thread inside a join waits for.  `exits` and `joins` are
   * history.  `over` is set when the process has ended, `fatal` when no thread id was left.
   */
  datatype State = State(
    threads: map<Serial, Rec>,
    next: Serial,
    joining: map<Serial, Serial>,
    blocked: set<Serial>,
    exits: map<Serial, int>,
    joins: seq<Joined>,
    over: bool,
    fatal: bool)

  datatype Code = OK | EDEADLK | ESRCH | EINVAL

  datatype Result = Done(code: Code) | Value(value: int) | Blocks

  // ----- Handles -----

  function Pack(pid: bv64, tid: bv64): bv64 {
    (tid << 16) | pid
  }

  function UnpackTid(handle: bv64): bv64 {
    (handle >> 16) & 0xffff
  }

  function UnpackPid(handle: bv64): bv64 {
    handle & 0xffff
  }

  /** The handle of two 16-bit numbers fits in 32 bits and gives back the pair it was made from. */
  lemma HandleRoundTrip(pid: bv64, tid: bv64)
    requires pid <= 0xffff && tid <= 0xffff
    ensures UnpackPid(Pack(pid, tid)) == pid && UnpackTid(Pack(pid, tid)) == tid && Pack(pid, tid) <= 0xffff_ffff
  {}

  /** The process is in the lower half of a handle. */
  lemma LowerHalf(pid: bv64, tid: bv64)
    requires pid <= 0xffff && tid <= 0xffff
    ensures Pack(pid, tid) & 0xffff == pid
  {}

  /** Every 32-bit handle is the one made from its two halves. */
  lemma HandleOnto(handle: bv64)
    requires handle <= 0xffff_ffff
    ensures UnpackPid(handle) <= 0xffff && UnpackTid(handle) <= 0xffff && Pack(UnpackPid(handle), UnpackTid(handle)) == handle
  {}

  // ----- Thread ids -----

  ghost predicate TidUsed(threads: map<Serial, Rec>, tid: nat) {
    exists s :: s in threads && threads[s].tid == tid
  }

  ghost function LeastTid(threads: map<Serial, Rec>, from: nat): Option<nat>
    requires from <= 0xffff
    decreases 0xffff - from
  {
    if from == 0xffff then None
    else if !TidUsed(threads, from) then Some(from)
    else LeastTid(threads, from + 1)
  }

  /** The id given to a new thread is the least that no thread of the process has; there is none only if all are taken. */
  lemma {:induction false} TidIsLeast(threads: map<Serial, Rec>, from: nat)
    requires from <= 0xffff
    ensures match LeastTid(threads, from)
            case Some(tid) => from <= tid < 0xffff && !TidUsed(threads, tid) && forall k :: from <= k < tid ==> TidUsed(threads, k)
            case None => forall k :: from <= k < 0xffff ==> TidUsed(threads, k)
    decreases 0xffff - from
  {
    if from < 0xffff && TidUsed(threads, from) {
      TidIsLeast(threads, from + 1);
    }
  }

  // ----- The calls -----

  ghost function Create(s: State): State {
    match LeastTid(s.threads, 0)
    case None => s.(fatal := true)
    case Some(tid) =>
      s.(threads := s.threads[s.next := Rec(tid, false, false, 0, None)], next := s.next + 1)
  }

  ghost function Wakeup(s: State, w: Option<Serial>): State {
    if w.Some? then s.(blocked := s.blocked - {w.value}) else s
  }

  /** Thread `u` ends; with the last record the whole process ends. */
  ghost function Exit(s: State, u: Serial, v: int): State
    requires u in s.threads
  {
    if |s.threads| == 1 then s.(threads := map[], joining := map[], blocked := {}, over := true)
    else if s.threads[u].detached then s.(threads := s.threads - {u}, exits := s.exits[u := v])
    else
      Wakeup(s.(threads := s.threads[u := s.threads[u].(hasExit := true, exitValue := v)], exits := s.exits[u := v]),
             s.threads[u].joinWaiter)
  }

  ghost function Search(s: State, tid: nat): Option<Serial> {
    if TidUsed(s.threads, tid) then
      var x :| x in s.threads && s.threads[x].tid == tid;
      Some(x)
    else None
  }

  /** The head of the join loop, and what follows it. */
  ghost function Collect(s: State, u: Serial, x: Serial): (State, Result)
    requires x in s.threads
  {
    var r := s.threads[x];
    if !r.hasExit then
      (s.(threads := s.threads[x := r.(joinWaiter := Some(u))], joining := s.joining[u := x], blocked := s.blocked + {u}), Blocks)
    else
      (s.(threads := s.threads - {x}, joining := s.joining - {u}, joins := s.joins + [Joined(x, u, r.exitValue)]), Value(r.exitValue))
  }

  ghost function Join(s: State, u: Serial, tid: nat): (State, Result)
    requires u in s.threads
  {
    if s.threads[u].tid == tid then (s, Done(EDEADLK))
    else
      match Search(s, tid)
      case None => (s, Done(ESRCH))
      case Some(x) =>
        if x !in s.threads then (s, Done(ESRCH))
        else if s.threads[x].detached || s.threads[x].joinWaiter.Some? then (s, Done(EINVAL))
        else Collect(s, u, x)
  }

  /** A thread inside a join runs again. */
  ghost function ResumeJoin(s: State, u: Serial): (State, Result)
    requires u in s.joining && s.joining[u] in s.threads
  {
    var x := s.joining[u];
    Collect(s.(threads := s.threads[x := s.threads[x].(joinWaiter := None)]), u, x)
  }

  ghost function Detach(s: State, tid: nat): (State, Code) {
    match Search(s, tid)
    case None => (s, ESRCH)
    case Some(x) =>
      if x !in s.threads then (s, ESRCH)
      else if s.threads[x].detached then (s, EINVAL)
      else if s.threads[x].joinWaiter.Some? then (s, OK)
      else (s.(threads := s.threads[x := s.threads[x].(detached := true)]), OK)
  }

  // ----- Runs -----

  datatype Op =
    | CreateOp(u: Serial)
    | ExitOp(u: Serial, v: int)
    | JoinOp(u: Serial, tid: nat)
    | ResumeOp(u: Serial)
    | DetachOp(u: Serial, tid: nat)
    | NudgeOp(u: Serial)

  /** `u` can run: it has not ended and is not blocked. */
  ghost predicate Runs(s: State, u: Serial) {
    !s.over && !s.fatal && u in s.threads && !s.threads[u].hasExit && u !in s.blocked
  }

  ghost predicate Enabled(s: State, op: Op) {
    match op
    case CreateOp(u) => Runs(s, u) && u !in s.joining
    case ExitOp(u, _) => Runs(s, u) && u !in s.joining
    case JoinOp(u, _) => Runs(s, u) && u !in s.joining
    case ResumeOp(u) => Runs(s, u) && u in s.joining && s.joining[u] in s.threads
    case DetachOp(u, _) => Runs(s, u) && u !in s.joining
    case NudgeOp(u) => u in s.blocked
  }

  ghost function Do(s: State, op: Op): State
    requires Enabled(s, op)
  {
    match op
    case CreateOp(_) => Create(s)
    case ExitOp(u, v) => Exit(s, u, v)
    case JoinOp(u, tid) => Join(s, u, tid).0
    case ResumeOp(u) => ResumeJoin(s, u).0
    case DetachOp(_, tid) => Detach(s, tid).0
    case NudgeOp(u) => s.(blocked := s.blocked - {u})
  }

  /** A process starts with one thread. */
  const Initial: State := State(map[0 := Rec(0, false, false, 0, None)], 1, map[], {}, map[], [], false, false)

  ghost predicate Execution(ss: seq<State>, ops: seq<Op>) {
    && |ss| == |ops| + 1 && ss[0] == Initial
    && forall i :: 0 <= i < |ops| ==> Enabled(ss[i], ops[i]) && ss[i + 1] == Do(ss[i], ops[i])
  }

  // ----- The invariant -----

  /** Live records have distinct ids and serials below the next. */
  ghost predicate Records(s: State) {
    && (forall x :: x in s.threads ==> x < s.next)
    && (forall x, y {:trigger s.threads[x].tid, s.threads[y].tid} ::
          x in s.threads && y in s.threads && s.threads[x].tid == s.threads[y].tid ==> x == y)
    && (forall x {:trigger s.threads[x].hasExit} :: x in s.threads ==>
          if s.threads[x].hasExit then x in s.exits && s.exits[x] == s.threads[x].exitValue else x !in s.exits)
    && (forall x {:trigger x in s.exits} :: x in s.exits ==> x < s.next)
  }

  /**
   * A record's `joinWaiter` is the thread inside a join of it, which is alive; the record is
   * not detached, and if its thread has ended the joiner has been woken.
   */
  ghost predicate Waits(s: State) {
    && (forall u {:trigger u in s.joining} :: u in s.joining ==>
          && u in s.threads && !s.threads[u].hasExit && s.joining[u] != u
          && s.joining[u] in s.threads && s.threads[s.joining[u]].joinWaiter == Some(u))
    && (forall x {:trigger s.threads[x].joinWaiter} :: x in s.threads && s.threads[x].joinWaiter.Some? ==>
          && s.threads[x].joinWaiter.value in s.joining && s.joining[s.threads[x].joinWaiter.value] == x
          && !s.threads[x].detached
          && (s.threads[x].hasExit ==> s.threads[x].joinWaiter.value !in s.blocked))
    && (forall u {:trigger u in s.blocked} :: u in s.blocked ==> u in s.joining)
  }

  /** Each successful join was of a record gone since, with its exit value, and no record was joined twice. */
  ghost predicate JoinsRight(s: State) {
    && (forall i {:trigger s.joins[i]} :: 0 <= i < |s.joins| ==>
          s.joins[i].target !in s.threads && s.joins[i].target in s.exits && s.exits[s.joins[i].target] == s.joins[i].value)
    && (forall i, j {:trigger s.joins[i], s.joins[j]} :: 0 <= i < j < |s.joins| ==> s.joins[i].target != s.joins[j].target)
  }

  ghost predicate Inv(s: State) {
    Records(s) && Waits(s) && JoinsRight(s)
  }
}
