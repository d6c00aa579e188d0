/** Mutexes and condition variables of one process. */
module Sync {
  import opened Basics

  // A call runs without interruption until it waits or yields, so every thread has a program
  // counter that says where inside a call it is.  A blocked thread may be woken at any time, by
  // a signal as well as by an unlock.

  type Tid = nat
  type Mid = nat
  type Cid = nat
  type Addr = nat

  datatype Kind = Normal | Recursive

  datatype Mutex = Mutex(kind: Kind, count: nat, current: Option<Tid>, waiting: seq<Tid>)

  /** `arrived` and `woken` are history: everybody who ever joined the list, and who was taken off it. */
  datatype Cond = Cond(waiting: seq<Tid>, arrived: seq<Tid>, woken: seq<Tid>)

  /** What the program sees of a mutex: the id kept in its first word, and its kind field. */
  datatype Word = Word(id: nat, kind: Kind)

  /** A condition wait in progress; `mid` and `depth` are the mutex and its depth at the call. */
  datatype Call = Call(cid: Cid, addr: Addr, mid: Mid, depth: nat, timed: bool, expired: bool)

  datatype Why = ToLock | ToRelock(call: Call)

  /**
   * `Locking`: in the retry loop of a lock.  `Releasing`: yielding inside the unlock of a
   * condition wait.  `Sleeping`: on the list of a condition variable.
   */
  datatype Pc = Idle | Locking(mid: Mid, why: Why) | Releasing(call: Call) | Sleeping(call: Call)

  datatype Event = Locked(t: Tid, mid: Mid) | Unlocked(t: Tid, mid: Mid)

  datatype Code = OK | EINVAL | EPERM | EBUSY | EDEADLK | ETIMEDOUT

  datatype Result = Done(code: Code) | Blocks

  datatype State = State(
    mutexes: map<Mid, Mutex>,
    nextMid: nat,
    words: map<Addr, Word>,
    conds: map<Cid, Cond>,
    nextCid: nat,
    cwords: map<Addr, nat>,
    pcs: map<Tid, Pc>,
    blocked: set<Tid>,
    log: seq<Event>)

  function PcOf(s: State, t: Tid): Pc {
    if t in s.pcs then s.pcs[t] else Idle
  }

  /** How many times `t` holds `mid`. */
  function Holds(s: State, t: Tid, mid: Mid): nat {
    if mid in s.mutexes && s.mutexes[mid].current == Some(t) then s.mutexes[mid].count else 0
  }

  /** The successful lock calls of `t` on `mid`, less its successful unlock calls. */
  ghost function Balance(log: seq<Event>, t: Tid, mid: Mid): int {
    if log == [] then 0
    else
      var e := log[|log| - 1];
      Balance(log[..|log| - 1], t, mid) + if e == Locked(t, mid) then 1 else if e == Unlocked(t, mid) then -1 else 0
  }

  // ----- Mutexes -----

  ghost function SetMutex(s: State, mid: Mid, m: Mutex): State {
    s.(mutexes := s.mutexes[mid := m])
  }

  ghost function SetPc(s: State, t: Tid, pc: Pc): State {
    s.(pcs := s.pcs[t := pc])
  }

  /** A new mutex whose id is stored at `a`. */
  ghost function NewMutex(s: State, a: Addr, stored: Kind, kind: Kind): State {
    s.(mutexes := s.mutexes[s.nextMid := Mutex(kind, 0, None, [])],
       words := s.words[a := Word(s.nextMid, stored)],
       nextMid := s.nextMid + 1)
  }

  /** Find the mutex at an address; the word 0 is a static initialiser. */
  ghost function Search(s: State, a: Addr): (State, Option<Mid>)
    requires a == 0 || a in s.words
  {
    if a == 0 then (s, None)
    else
      var s1 := if s.words[a].id == 0 then NewMutex(s, a, s.words[a].kind, s.words[a].kind) else s;
      (s1, if s1.words[a].id in s1.mutexes then Some(s1.words[a].id) else None)
  }

  /** The head of the retry loop. */
  ghost function Acquire(s: State, t: Tid, mid: Mid, why: Why): (State, Result)
    requires mid in s.mutexes
  {
    var m := s.mutexes[mid];
    if m.current.Some? then
      (SetPc(SetMutex(s, mid, m.(waiting := m.waiting + [t])), t, Locking(mid, why)).(blocked := s.blocked + {t}), Blocks)
    else
      (SetPc(SetMutex(s, mid, m.(current := Some(t), count := m.count + 1)), t, Idle).(log := s.log + [Locked(t, mid)]), Done(OK))
  }

  ghost function LockMutex(s: State, t: Tid, mid: Mid, why: Why): (State, Result)
    requires mid in s.mutexes
  {
    var m := s.mutexes[mid];
    if m.current == Some(t) then
      if m.kind.Recursive? then
        (SetPc(SetMutex(s, mid, m.(count := m.count + 1)), t, Idle).(log := s.log + [Locked(t, mid)]), Done(OK))
      else (SetPc(s, t, Idle), Done(EDEADLK))
    else Acquire(s, t, mid, why)
  }

  ghost function Lock(s: State, t: Tid, a: Addr, why: Why): (State, Result)
    requires a == 0 || a in s.words
  {
    var (s1, found) := Search(s, a);
    match found
    case None => (SetPc(s1, t, Idle), Done(EINVAL))
    case Some(mid) => LockMutex(s1, t, mid, why)
  }

  /** A thread in the retry loop runs again. */
  ghost function Retry(s: State, t: Tid, mid: Mid, why: Why): (State, Result)
    requires mid in s.mutexes
  {
    var m := s.mutexes[mid];
    Acquire(SetMutex(s, mid, m.(waiting := Removed(m.waiting, t))), t, mid, why)
  }

  ghost function TryLock(s: State, t: Tid, a: Addr): (State, Code)
    requires a == 0 || a in s.words
  {
    var (s1, found) := Search(s, a);
    match found
    case None => (s1, EINVAL)
    case Some(mid) =>
      var m := s1.mutexes[mid];
      if m.current == None || (m.kind.Recursive? && m.current == Some(t)) then
        (SetMutex(s1, mid, m.(current := Some(t), count := m.count + 1)).(log := s1.log + [Locked(t, mid)]), OK)
      else (s1, EBUSY)
  }

  /** The flag says that a waiter was woken, after which the caller yields. */
  ghost function UnlockMutex(s: State, t: Tid, mid: Mid): (State, Code, bool)
    requires mid in s.mutexes
  {
    var m := s.mutexes[mid];
    if m.current != Some(t) then (s, EPERM, false)
    else
      var s1 := s.(log := s.log + [Unlocked(t, mid)]);
      if m.count != 1 then (SetMutex(s1, mid, m.(count := if m.count == 0 then 0 else m.count - 1)), OK, false)
      else
        var s2 := SetMutex(s1, mid, m.(count := 0, current := None));
        if m.waiting == [] then (s2, OK, false)
        else (s2.(blocked := s2.blocked - {m.waiting[0]}), OK, true)
  }

  ghost function Unlock(s: State, t: Tid, a: Addr): (State, Code, bool)
    requires a == 0 || a in s.words
  {
    var (s1, found) := Search(s, a);
    match found
    case None => (s1, EINVAL, false)
    case Some(mid) => UnlockMutex(s1, t, mid)
  }

  ghost function Destroy(s: State, a: Addr): (State, Code)
    requires a == 0 || a in s.words
  {
    var (s1, found) := Search(s, a);
    match found
    case None => (s1, EINVAL)
    case Some(mid) =>
      var m := s1.mutexes[mid];
      if m.current != None || m.waiting != [] then (s1, EBUSY)
      else (s1.(mutexes := s1.mutexes - {mid}, words := s1.words[a := s1.words[a].(id := 2)]), OK)
  }

  // ----- Condition variables -----

  /** A new condition variable whose id is stored at `c`. */
  ghost function NewCond(s: State, c: Addr): State {
    s.(conds := s.conds[s.nextCid := Cond([], [], [])], cwords := s.cwords[c := s.nextCid], nextCid := s.nextCid + 1)
  }

  ghost function SearchCond(s: State, c: Addr): (State, Option<Cid>)
    requires c == 0 || c in s.cwords
  {
    if c == 0 then (s, None)
    else if s.cwords[c] == 0 then (NewCond(s, c), Some(s.nextCid))
    else (s, if s.cwords[c] in s.conds then Some(s.cwords[c]) else None)
  }

  /** Join the list and block. */
  ghost function Sleep(s: State, t: Tid, call: Call): State
    requires call.cid in s.conds
  {
    var c := s.conds[call.cid];
    SetPc(s, t, Sleeping(call)).(
      conds := s.conds[call.cid := c.(waiting := c.waiting + [t], arrived := c.arrived + [t])],
      blocked := s.blocked + {t})
  }

  ghost function Wait(s: State, t: Tid, c: Addr, a: Addr, timed: bool): (State, Result)
    requires (c == 0 || c in s.cwords) && (a == 0 || a in s.words)
  {
    var (s1, found) := SearchCond(s, c);
    match found
    case None => (s1, Done(EINVAL))
    case Some(cid) =>
      var mid := match Search(s1, a).1 case None => 0 case Some(mid) => mid;
      var call := Call(cid, a, mid, Holds(s1, t, mid), timed, false);
      var r := Unlock(s1, t, a);
      var s2 := r.0;
      if r.2 then (SetPc(s2, t, Releasing(call)), Blocks)
      else if cid in s2.conds then (Sleep(s2, t, call), Blocks)
      else (s2, Blocks)
  }

  /** The front thread is woken and leaves the list. */
  ghost function WakeFirst(s: State, cid: Cid): State
    requires cid in s.conds
  {
    var c := s.conds[cid];
    if c.waiting == [] then s
    else s.(conds := s.conds[cid := Cond(c.waiting[1..], c.arrived, c.woken + [c.waiting[0]])],
            blocked := s.blocked - {c.waiting[0]})
  }

  ghost function WakeAll(s: State, cid: Cid): State
    requires cid in s.conds
  {
    var c := s.conds[cid];
    s.(conds := s.conds[cid := Cond([], c.arrived, c.woken + c.waiting)],
       blocked := s.blocked - (set t | t in c.waiting))
  }

  ghost function Signal(s: State, c: Addr): (State, Code)
    requires c == 0 || c in s.cwords
  {
    var (s1, found) := SearchCond(s, c);
    match found
    case None => (s1, EINVAL)
    case Some(cid) => (WakeFirst(s1, cid), OK)
  }

  ghost function Broadcast(s: State, c: Addr): (State, Code)
    requires c == 0 || c in s.cwords
  {
    var (s1, found) := SearchCond(s, c);
    match found
    case None => (s1, EINVAL)
    case Some(cid) => (WakeAll(s1, cid), OK)
  }

  function WaitCode(call: Call): Code {
    if call.expired then ETIMEDOUT else OK
  }

  /** A thread that is not blocked runs on from where it stopped inside a call. */
  ghost function Resume(s: State, t: Tid): (State, Result)
    requires Sane(s, t)
  {
    match PcOf(s, t)
    case Idle => (s, Done(OK))
    case Locking(mid, why) =>
      var r := Retry(s, t, mid, why);
      (r.0, if r.1.Done? && why.ToRelock? then Done(WaitCode(why.call)) else r.1)
    case Releasing(call) => (Sleep(s, t, call), Blocks)
    case Sleeping(call) =>
      var r := Lock(s, t, call.addr, ToRelock(call));
      (r.0, if r.1.Done? then Done(WaitCode(call)) else r.1)
  }

  /** What `t` is in the middle of still exists. */
  ghost predicate Sane(s: State, t: Tid) {
    match PcOf(s, t)
    case Idle => true
    case Locking(mid, why) => mid in s.mutexes
    case Releasing(call) => call.cid in s.conds && (call.addr == 0 || call.addr in s.words)
    case Sleeping(call) => call.addr == 0 || call.addr in s.words
  }

  // ----- Steps -----

  datatype Op =
    | Poke(a: Addr, w: Word)
    | PokeCond(c: Addr, id: nat)
    | InitOp(a: Addr, attr: Option<nat>)
    | DestroyOp(a: Addr)
    | LockOp(t: Tid, a: Addr)
    | TryOp(t: Tid, a: Addr)
    | UnlockOp(t: Tid, a: Addr)
    | WaitOp(t: Tid, c: Addr, a: Addr, timed: bool)
    | InitCondOp(c: Addr)
    | SignalOp(c: Addr)
    | BroadcastOp(c: Addr)
    | ResumeOp(t: Tid)
    | NudgeOp(t: Tid)
    | ExpireOp(t: Tid)

  const RECURSIVE := 1
  const NORMAL := 0

  ghost function Init(s: State, a: Addr, attr: Option<nat>): (State, Code)
    requires a == 0 || a in s.words
  {
    if a == 0 then (s, EINVAL)
    else if attr.Some? && attr.value != RECURSIVE && attr.value != NORMAL then (s, EINVAL)
    else (NewMutex(s, a, s.words[a].kind, if attr == Some(RECURSIVE) then Recursive else Normal), OK)
  }

  ghost function InitCond(s: State, c: Addr): (State, Code) {
    if c == 0 then (s, EINVAL) else (NewCond(s, c), OK)
  }

  ghost predicate Mapped(s: State, a: Addr) {
    a == 0 || a in s.words
  }

  ghost predicate CondMapped(s: State, c: Addr) {
    c == 0 || c in s.cwords
  }

  ghost predicate Ready(s: State, t: Tid) {
    t !in s.blocked && PcOf(s, t) == Idle
  }

  ghost predicate Enabled(s: State, op: Op) {
    match op
    case Poke(a, w) => a != 0
    case PokeCond(c, id) => c != 0
    case InitOp(a, _) => Mapped(s, a)
    case DestroyOp(a) => Mapped(s, a)
    case LockOp(t, a) => Ready(s, t) && Mapped(s, a)
    case TryOp(t, a) => Ready(s, t) && Mapped(s, a)
    case UnlockOp(t, a) => Ready(s, t) && Mapped(s, a)
    case WaitOp(t, c, a, _) => Ready(s, t) && CondMapped(s, c) && Mapped(s, a)
    case InitCondOp(_) => true
    case SignalOp(c) => CondMapped(s, c)
    case BroadcastOp(c) => CondMapped(s, c)
    case ResumeOp(t) => t !in s.blocked && PcOf(s, t) != Idle && Sane(s, t)
    case NudgeOp(t) => t in s.blocked
    case ExpireOp(t) => t in s.blocked && PcOf(s, t).Sleeping? && PcOf(s, t).call.timed
  }

  ghost function Do(s: State, op: Op): State
    requires Enabled(s, op)
  {
    match op
    case Poke(a, w) => s.(words := s.words[a := w])
    case PokeCond(c, id) => s.(cwords := s.cwords[c := id])
    case InitOp(a, attr) => Init(s, a, attr).0
    case DestroyOp(a) => Destroy(s, a).0
    case LockOp(t, a) => Lock(s, t, a, ToLock).0
    case TryOp(t, a) => TryLock(s, t, a).0
    case UnlockOp(t, a) => Unlock(s, t, a).0
    case WaitOp(t, c, a, timed) => Wait(s, t, c, a, timed).0
    case InitCondOp(c) => InitCond(s, c).0
    case SignalOp(c) => Signal(s, c).0
    case BroadcastOp(c) => Broadcast(s, c).0
    case ResumeOp(t) => Resume(s, t).0
    case NudgeOp(t) => s.(blocked := s.blocked - {t})
    case ExpireOp(t) => SetPc(s, t, Sleeping(PcOf(s, t).call.(expired := true))).(blocked := s.blocked - {t})
  }

  /** A process starts with no mutexes; ids 0 to 2 are reserved. */
  const Initial: State := State(map[], 3, map[], map[], 3, map[], map[], {}, [])

  ghost predicate Execution(ss: seq<State>, ops: seq<Op>) {
    && |ss| == |ops| + 1 && ss[0] == Initial
    && forall i :: 0 <= i < |ops| ==> Enabled(ss[i], ops[i]) && ss[i + 1] == Do(ss[i], ops[i])
  }

  // ----- The invariant -----

  ghost predicate RetryingOn(s: State, t: Tid, mid: Mid) {
    PcOf(s, t).Locking? && PcOf(s, t).mid == mid
  }

  /** Ownership, recursion and the waiting list of one mutex. */
  ghost predicate Good(s: State, mid: Mid)
    requires mid in s.mutexes
  {
    var m := s.mutexes[mid];
    && 3 <= mid < s.nextMid
    && (m.current.Some? <==> m.count > 0)
    && (m.kind.Normal? ==> m.count <= 1)
    && NoDup(m.waiting)
    && (forall t {:trigger PcOf(s, t)} {:trigger t in m.waiting} :: t in m.waiting <==> RetryingOn(s, t, mid))
    && (m.current.Some? ==> m.current.value !in m.waiting)
    && (m.current.None? && m.waiting != [] ==> m.waiting[0] !in s.blocked)
  }

  /** A blocked thread is inside a call that blocks. */
  ghost predicate Placed(s: State, t: Tid) {
    Sane(s, t) && (t in s.blocked ==> PcOf(s, t).Locking? || PcOf(s, t).Sleeping?)
  }

  ghost predicate Locks(s: State) {
    && s.nextMid >= 3
    && (forall mid :: mid in s.mutexes ==> Good(s, mid))
    && (forall t: Tid :: Placed(s, t))
  }

  ghost predicate Balanced(s: State) {
    forall t: Tid, mid: Mid {:trigger Holds(s, t, mid)} :: mid in s.mutexes ==> Balance(s.log, t, mid) == Holds(s, t, mid)
  }

  ghost predicate FreshIds(s: State) {
    forall t: Tid, mid: Mid {:trigger Balance(s.log, t, mid)} :: mid >= s.nextMid ==> Balance(s.log, t, mid) == 0
  }

  /** The condition wait that a thread is inside. */
  function CallOf(pc: Pc): Option<Call> {
    match pc
    case Locking(_, ToRelock(call)) => Some(call)
    case Releasing(call) => Some(call)
    case Sleeping(call) => Some(call)
    case _ => None
  }

  /** `t` holds the mutex of its condition wait once less than when it called. */
  ghost predicate OnceLess(s: State, t: Tid, call: Call) {
    call.depth > 0 ==>
      && Holds(s, t, call.mid) == call.depth - 1
      && (call.depth > 1 ==> call.mid in s.mutexes && s.mutexes[call.mid].kind.Recursive?)
  }

  ghost predicate LetGo(s: State, t: Tid) {
    CallOf(PcOf(s, t)).Some? ==> OnceLess(s, t, CallOf(PcOf(s, t)).value)
  }

  ghost predicate Calls(s: State) {
    forall t: Tid :: LetGo(s, t)
  }

  ghost predicate InOrder(s: State) {
    forall cid {:trigger s.conds[cid]} :: cid in s.conds ==> 3 <= cid < s.nextCid && s.conds[cid].arrived == s.conds[cid].woken + s.conds[cid].waiting
  }

  ghost predicate Inv(s: State) {
    Locks(s) && Balanced(s) && FreshIds(s) && Calls(s) && InOrder(s) && s.nextCid >= 3
  }
}
