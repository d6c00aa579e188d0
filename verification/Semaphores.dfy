/** One semaphore of a process. */
module Semaphores {
  import opened Basics

  type Tid = nat

  const MAX: nat := 0xffff_ffff

  datatype Pc = Idle | Waiting(timed: bool)

  /**
   * `initial`, `posts` and `taken` are history: the first value, the posts, and the successful
   * waits of any kind.  `wraps` counts the posts that found the largest possible count.
   */
  datatype Sem = Sem(
    count: nat,
    waiting: seq<Tid>,
    pcs: map<Tid, Pc>,
    blocked: set<Tid>,
    initial: nat,
    posts: nat,
    taken: nat,
    wraps: nat)

  datatype Result = Taken | Again | TimedOut | Blocks

  datatype Op =
    | Post
    | Wait(t: Tid)
    | TryWait(t: Tid)
    | TimedWait(t: Tid, late: bool)
    | Resume(t: Tid, expired: bool)
    | Nudge(t: Tid)

  function PcOf(s: Sem, t: Tid): Pc {
    if t in s.pcs then s.pcs[t] else Idle
  }

  ghost function DoPost(s: Sem): Sem {
    var s1 := s.(count := (s.count + 1) % (MAX + 1), posts := s.posts + 1,
                 wraps := if s.count == MAX then s.wraps + 1 else s.wraps);
    if s.waiting == [] then s1 else s1.(blocked := s.blocked - {s.waiting[0]})
  }

  ghost function Take(s: Sem, t: Tid): Sem
    requires s.count > 0
  {
    s.(count := s.count - 1, taken := s.taken + 1, pcs := s.pcs[t := Idle])
  }

  /** The head of the retry loop. */
  ghost function Attempt(s: Sem, t: Tid, timed: bool): (Sem, Result) {
    if s.count == 0 then
      (s.(waiting := s.waiting + [t], pcs := s.pcs[t := Waiting(timed)], blocked := s.blocked + {t}), Blocks)
    else (Take(s, t), Taken)
  }

  ghost function DoTryWait(s: Sem, t: Tid): (Sem, Result) {
    if s.count == 0 then (s, Again) else (Take(s, t), Taken)
  }

  /** `late` says that the time given has already passed. */
  ghost function DoTimedWait(s: Sem, t: Tid, late: bool): (Sem, Result) {
    if s.count > 0 then (Take(s, t), Taken)
    else if late then (s, TimedOut)
    else Attempt(s, t, true)
  }

  /** `expired` says that the timer of a timed wait ran out while the thread slept. */
  ghost function DoResume(s: Sem, t: Tid, expired: bool): (Sem, Result)
    requires PcOf(s, t).Waiting?
  {
    var s1 := s.(waiting := Removed(s.waiting, t), pcs := s.pcs[t := Idle]);
    if PcOf(s, t).timed && expired then (s1, TimedOut)
    else Attempt(s1, t, PcOf(s, t).timed)
  }

  // ----- Runs -----

  ghost predicate Free(s: Sem, t: Tid) {
    t !in s.blocked && PcOf(s, t) == Idle
  }

  ghost predicate Enabled(s: Sem, op: Op) {
    match op
    case Post => true
    case Wait(t) => Free(s, t)
    case TryWait(t) => Free(s, t)
    case TimedWait(t, _) => Free(s, t)
    case Resume(t, expired) => t !in s.blocked && PcOf(s, t).Waiting? && (expired ==> PcOf(s, t).timed)
    case Nudge(t) => t in s.blocked
  }

  ghost function Do(s: Sem, op: Op): Sem
    requires Enabled(s, op)
  {
    match op
    case Post => DoPost(s)
    case Wait(t) => Attempt(s, t, false).0
    case TryWait(t) => DoTryWait(s, t).0
    case TimedWait(t, late) => DoTimedWait(s, t, late).0
    case Resume(t, expired) => DoResume(s, t, expired).0
    case Nudge(t) => s.(blocked := s.blocked - {t})
  }

  ghost predicate Initial(s: Sem) {
    s == Sem(s.initial, [], map[], {}, s.initial, 0, 0, 0) && s.initial <= MAX
  }

  ghost predicate Execution(ss: seq<Sem>, ops: seq<Op>) {
    && |ss| == |ops| + 1 && Initial(ss[0])
    && forall i :: 0 <= i < |ops| ==> Enabled(ss[i], ops[i]) && ss[i + 1] == Do(ss[i], ops[i])
  }

  // ----- Conservation -----

  ghost predicate Conserved(s: Sem) {
    s.count <= MAX && s.count + s.taken + s.wraps * (MAX + 1) == s.initial + s.posts
  }

  lemma StepConserves(s: Sem, op: Op)
    requires Conserved(s) && Enabled(s, op)
    ensures Conserved(Do(s, op))
    ensures Do(s, op).initial == s.initial && Do(s, op).posts >= s.posts && Do(s, op).taken >= s.taken
  {}

  /**
   * In every run the count and the successful waits together are the first value and the posts,
   * except for a full turn of the 32-bit counter at each post that found it at its maximum:
   * so nothing is lost exactly if no post ever did.
   */
  lemma {:induction false} RunConserves(ss: seq<Sem>, ops: seq<Op>, i: nat)
    requires Execution(ss, ops) && i <= |ops|
    ensures Conserved(ss[i])
    ensures ss[i].count + ss[i].taken == ss[i].initial + ss[i].posts <==> ss[i].wraps == 0
    ensures ss[i].wraps == 0 <==> forall j :: 0 <= j < i && ops[j] == Post ==> ss[j].count < MAX
  {
    hide Do, Enabled, Initial;
    if i == 0 {
      InitialConserved(ss[0]);
    } else {
      RunConserves(ss, ops, i - 1);
      assert Enabled(ss[i - 1], ops[i - 1]) && ss[i] == Do(ss[i - 1], ops[i - 1]);
      StepConserves(ss[i - 1], ops[i - 1]);
      StepWraps(ss[i - 1], ops[i - 1]);
    }
  }

  lemma InitialConserved(s: Sem)
    requires Initial(s)
    ensures Conserved(s) && s.wraps == 0
  {}

  lemma StepWraps(s: Sem, op: Op)
    requires Enabled(s, op)
    ensures Do(s, op).wraps == if op == Post && s.count == MAX then s.wraps + 1 else s.wraps
  {}

  // ----- The waiting list -----

  /** The list is the threads inside a wait, each once; only they block. */
  ghost predicate Listed(s: Sem) {
    && NoDup(s.waiting)
    && (forall t {:trigger PcOf(s, t)} {:trigger t in s.waiting} :: t in s.waiting <==> PcOf(s, t).Waiting?)
    && (forall t {:trigger t in s.blocked} :: t in s.blocked ==> t in s.waiting)
  }

  lemma RemovedFront(w: seq<Tid>, t: Tid)
    requires NoDup(w) && w != [] && w[0] != t
    ensures Removed(w, t) != [] && Removed(w, t)[0] == w[0]
  {}

  lemma AttemptListed(s: Sem, t: Tid, timed: bool)
    requires Listed(s) && Free(s, t)
    ensures Listed(Attempt(s, t, timed).0)
  {
    assert t !in s.waiting;
    NoDupAppend(s.waiting, t);
    var s' := Attempt(s, t, timed).0;
    forall u {:trigger PcOf(s', u)} {:trigger u in s'.waiting} ensures u in s'.waiting <==> PcOf(s', u).Waiting? {
      assert u in s.waiting <==> PcOf(s, u).Waiting?;
    }
  }

  lemma LeaveListed(s: Sem, t: Tid)
    requires Listed(s) && t !in s.blocked
    ensures var s' := s.(waiting := Removed(s.waiting, t), pcs := s.pcs[t := Idle]);
            Listed(s') && Free(s', t)
  {
    RemovedMembers(s.waiting, t);
    RemovedNoDup(s.waiting, t);
    var s' := s.(waiting := Removed(s.waiting, t), pcs := s.pcs[t := Idle]);
    forall u {:trigger PcOf(s', u)} {:trigger u in s'.waiting} ensures u in s'.waiting <==> PcOf(s', u).Waiting? {
      assert u in s.waiting <==> PcOf(s, u).Waiting?;
    }
  }

  lemma TakeListed(s: Sem, t: Tid)
    requires Listed(s) && Free(s, t) && s.count > 0
    ensures Listed(Take(s, t))
  {
    var s' := Take(s, t);
    forall u {:trigger PcOf(s', u)} {:trigger u in s'.waiting} ensures u in s'.waiting <==> PcOf(s', u).Waiting? {
      assert u in s.waiting <==> PcOf(s, u).Waiting?;
    }
  }

  lemma WakeListed(s: Sem, s': Sem)
    requires Listed(s) && s'.waiting == s.waiting && s'.pcs == s.pcs && s'.blocked <= s.blocked
    ensures Listed(s')
  {
    forall u {:trigger PcOf(s', u)} {:trigger u in s'.waiting} ensures u in s'.waiting <==> PcOf(s', u).Waiting? {
      assert u in s.waiting <==> PcOf(s, u).Waiting?;
    }
  }

  lemma StepListed(s: Sem, op: Op)
    requires Listed(s) && Enabled(s, op)
    ensures Listed(Do(s, op))
  {
    hide Listed, Attempt, Take;
    match op
    case Post => WakeListed(s, Do(s, op));
    case Wait(t) => AttemptListed(s, t, false);
    case TryWait(t) => if s.count > 0 { TakeListed(s, t); }
    case TimedWait(t, _) => if s.count > 0 { TakeListed(s, t); } else { AttemptListed(s, t, true); }
    case Resume(t, expired) =>
      LeaveListed(s, t);
      AttemptListed(s.(waiting := Removed(s.waiting, t), pcs := s.pcs[t := Idle]), t, PcOf(s, t).timed);
    case Nudge(t) => WakeListed(s, Do(s, op));
  }

  /** In every run the list holds exactly the threads inside a wait, each once, and nobody else blocks. */
  lemma {:induction false} RunListed(ss: seq<Sem>, ops: seq<Op>, i: nat)
    requires Execution(ss, ops) && i <= |ops|
    ensures Listed(ss[i])
  {
    hide Do, Enabled, Listed, Initial;
    if i == 0 {
      InitialListed(ss[0]);
    } else {
      RunListed(ss, ops, i - 1);
      assert Enabled(ss[i - 1], ops[i - 1]) && ss[i] == Do(ss[i - 1], ops[i - 1]);
      StepListed(ss[i - 1], ops[i - 1]);
    }
  }

  lemma InitialListed(s: Sem)
    requires Initial(s)
    ensures Listed(s)
  {}

  /** What a call, or the rest of one after a wakeup, answers its thread. */
  ghost function AnswerTo(s: Sem, op: Op): Result
    requires Enabled(s, op) && op != Post && !op.Nudge?
  {
    match op
    case Wait(t) => Attempt(s, t, false).1
    case TryWait(t) => DoTryWait(s, t).1
    case TimedWait(t, late) => DoTimedWait(s, t, late).1
    case Resume(t, expired) => DoResume(s, t, expired).1
  }

  /**
   * A thread is told that it has one exactly when the count went down for it.  It gets one whenever
   * there is one, unless its timer ran out while it slept; it is refused at once only by a trywait or
   * a late timed wait, and left asleep exactly when it is on the list.
   */
  lemma RunAnswers(ss: seq<Sem>, ops: seq<Op>, i: nat)
    requires Execution(ss, ops) && i < |ops| && ops[i] != Post && !ops[i].Nudge? && Enabled(ss[i], ops[i])
    ensures var s, s', op, r := ss[i], ss[i + 1], ops[i], AnswerTo(ss[i], ops[i]);
            && (r == Taken <==> s'.taken == s.taken + 1) && (r == Taken <==> s'.count == s.count - 1)
            && (r == Taken <==> s.count > 0 && !(op.Resume? && op.expired))
            && (r == Again <==> op.TryWait? && s.count == 0)
            && (r == TimedOut <==> (op.TimedWait? && op.late && s.count == 0) || (op.Resume? && op.expired))
            && (r == Blocks <==> op.t in s'.waiting)
  {
    hide Initial;
    RunListed(ss, ops, i);
    RunListed(ss, ops, i + 1);
    assert Enabled(ss[i], ops[i]) && ss[i + 1] == Do(ss[i], ops[i]);
    assert ops[i].t in ss[i + 1].waiting <==> PcOf(ss[i + 1], ops[i].t).Waiting?;
  }

  // ----- What each operation does -----

  /** `t` is at `pc` now and everybody else is where they were. */
  ghost predicate Moves(s: Sem, s': Sem, t: Tid, pc: Pc) {
    forall u: Tid {:trigger PcOf(s', u)} :: PcOf(s', u) == if u == t then pc else PcOf(s, u)
  }

  /** `t` takes one and is in no call; the list is `w`. */
  ghost predicate TakesAs(s: Sem, t: Tid, w: seq<Tid>, s': Sem) {
    && s.count > 0 && s' == s.(count := s.count - 1, taken := s.taken + 1, waiting := w, pcs := s'.pcs)
    && Moves(s, s', t, Idle)
  }

  /** There is none: `t` joins the end of the list `w` and sleeps. */
  ghost predicate SleepsAs(s: Sem, t: Tid, w: seq<Tid>, timed: bool, s': Sem) {
    && s.count == 0 && s' == s.(waiting := w + [t], blocked := s.blocked + {t}, pcs := s'.pcs)
    && Moves(s, s', t, Waiting(timed))
  }

  /** The 32-bit count goes up by one, from the largest to zero, and the first of the list is woken and stays on it. */
  ghost predicate PostsAs(s: Sem, s': Sem) {
    s' == s.(count := if s.count == 0xffff_ffff then 0 else s.count + 1, posts := s.posts + 1,
             wraps := if s.count == 0xffff_ffff then s.wraps + 1 else s.wraps,
             blocked := if s.waiting == [] then s.blocked else s.blocked - {s.waiting[0]})
  }

  /** A woken thread leaves the list, and gives up, takes one, or joins the end again. */
  ghost predicate ResumesAs(s: Sem, t: Tid, expired: bool, s': Sem) {
    && PcOf(s, t).Waiting?
    && exists w ::
         && TakenOut(s.waiting, t, w)
         && if expired then s' == s.(waiting := w, pcs := s'.pcs) && Moves(s, s', t, Idle)
            else if s.count > 0 then TakesAs(s, t, w, s')
            else SleepsAs(s, t, w, PcOf(s, t).timed, s')
  }

  lemma ResumeSays(s: Sem, t: Tid, expired: bool)
    requires Listed(s) && Enabled(s, Resume(t, expired))
    ensures ResumesAs(s, t, expired, DoResume(s, t, expired).0)
  {
    hide TakenOut;
    assert PcOf(s, t).Waiting? && t in s.waiting;
    RemovedTakes(s.waiting, t);
  }

  /** In every run each operation does this and nothing else. */
  lemma RunSteps(ss: seq<Sem>, ops: seq<Op>, i: nat)
    requires Execution(ss, ops) && i < |ops|
    ensures var s, s' := ss[i], ss[i + 1];
            match ops[i]
            case Post => PostsAs(s, s')
            case Wait(t) => TakesAs(s, t, s.waiting, s') || SleepsAs(s, t, s.waiting, false, s')
            case TryWait(t) => if s.count > 0 then TakesAs(s, t, s.waiting, s') else s' == s
            case TimedWait(t, late) =>
              if s.count == 0 && late then s' == s
              else TakesAs(s, t, s.waiting, s') || SleepsAs(s, t, s.waiting, true, s')
            case Resume(t, expired) => ResumesAs(s, t, expired, s')
            case Nudge(t) => s' == s.(blocked := s.blocked - {t})
  {
    hide Initial, Listed, ResumesAs, DoResume;
    RunListed(ss, ops, i);
    RunConserves(ss, ops, i);
    assert Enabled(ss[i], ops[i]) && ss[i + 1] == Do(ss[i], ops[i]);
    if ops[i].Resume? {
      ResumeSays(ss[i], ops[i].t, ops[i].expired);
    }
  }

  ghost function Posts(ops: seq<Op>, n: nat): nat
    requires n <= |ops|
  {
    if n == 0 then 0 else Posts(ops, n - 1) + if ops[n - 1] == Post then 1 else 0
  }

  /** The operation tells its thread that it has one. */
  ghost predicate Succeeds(s: Sem, op: Op) {
    Enabled(s, op) && op != Post && !op.Nudge? && AnswerTo(s, op) == Taken
  }

  ghost function Successes(ss: seq<Sem>, ops: seq<Op>, n: nat): nat
    requires n <= |ops| < |ss|
  {
    if n == 0 then 0 else Successes(ss, ops, n - 1) + if Succeeds(ss[n - 1], ops[n - 1]) then 1 else 0
  }

  /** In every run the history is that of the operations: so many posts, and so many waits told that they have one. */
  lemma {:induction false} RunHistory(ss: seq<Sem>, ops: seq<Op>, i: nat)
    requires Execution(ss, ops) && i <= |ops|
    ensures ss[i].posts == Posts(ops, i) && ss[i].taken == Successes(ss, ops, i) && ss[i].initial == ss[0].count
  {
    hide Do, Enabled, Succeeds;
    if i > 0 {
      RunHistory(ss, ops, i - 1);
      assert Enabled(ss[i - 1], ops[i - 1]) && ss[i] == Do(ss[i - 1], ops[i - 1]);
      StepHistory(ss[i - 1], ops[i - 1]);
    }
  }

  lemma StepHistory(s: Sem, op: Op)
    requires Enabled(s, op)
    ensures Do(s, op).posts == s.posts + if op == Post then 1 else 0
    ensures Do(s, op).taken == s.taken + if Succeeds(s, op) then 1 else 0
    ensures Do(s, op).initial == s.initial
  {}

  // ----- When nobody is stranded -----

  /** If there are waiters and a positive count, then the first waiter can run. */
  ghost predicate FirstCanRun(s: Sem) {
    s.waiting != [] && s.count > 0 ==> s.waiting[0] !in s.blocked
  }

  /** The first waiter leaves the list, and something is left for a second one that still sleeps. */
  ghost predicate Strands(s: Sem, op: Op) {
    && op.Resume? && |s.waiting| > 1 && s.waiting[0] == op.t && s.waiting[1] in s.blocked
    && s.count > if op.expired then 0 else 1
  }

  lemma StepStrands(s: Sem, op: Op)
    requires Listed(s) && FirstCanRun(s) && Enabled(s, op)
    ensures FirstCanRun(Do(s, op)) <==> !Strands(s, op)
  {
    if op.Resume? && s.waiting != [] {
      assert PcOf(s, op.t).Waiting?;
      if s.waiting[0] == op.t {
        assert s.waiting == [s.waiting[0]] + s.waiting[1..];
        RemovedAbsent(s.waiting[1..], op.t);
      } else {
        RemovedFront(s.waiting, op.t);
      }
    }
  }

  /**
   * In every run, with timed waits or without, the first waiter can run whenever the count is
   * positive, exactly as long as no first waiter leaves more behind than it takes while the second sleeps.
   */
  lemma {:induction false} RunStrands(ss: seq<Sem>, ops: seq<Op>, i: nat)
    requires Execution(ss, ops) && i <= |ops|
    ensures (forall k :: 0 <= k <= i ==> FirstCanRun(ss[k])) <==> (forall j :: 0 <= j < i ==> !Strands(ss[j], ops[j]))
  {
    hide Do, Enabled, Listed, Initial, FirstCanRun, Strands;
    if i == 0 {
      InitialFirst(ss[0]);
    } else {
      RunStrands(ss, ops, i - 1);
      RunListed(ss, ops, i - 1);
      assert Enabled(ss[i - 1], ops[i - 1]) && ss[i] == Do(ss[i - 1], ops[i - 1]);
      if FirstCanRun(ss[i - 1]) {
        StepStrands(ss[i - 1], ops[i - 1]);
      }
    }
  }

  lemma InitialFirst(s: Sem)
    requires Initial(s)
    ensures FirstCanRun(s) && FirstRuns(s)
  {}

  /**
   * A post happens only when every waiter that was woken has run, and no timed wait gives up while
   * there is one to take.
   */
  ghost predicate Orderly(s: Sem, op: Op) {
    && (op == Post ==> forall t :: t in s.waiting ==> t in s.blocked)
    && (op.Resume? && op.expired ==> s.count == 0)
  }

  /** With waiters the count is at most one, and when it is one the first waiter can run. */
  ghost predicate FirstRuns(s: Sem) {
    s.waiting != [] && s.count > 0 ==> s.count == 1 && s.waiting[0] !in s.blocked
  }

  lemma StepFirstRuns(s: Sem, op: Op)
    requires Listed(s) && FirstRuns(s) && Enabled(s, op) && Orderly(s, op)
    ensures FirstRuns(Do(s, op))
  {
    if op.Resume? && s.waiting != [] && s.waiting[0] != op.t {
      RemovedFront(s.waiting, op.t);
    }
    if op == Post && s.waiting != [] {
      assert s.waiting[0] in s.waiting;
    }
  }

  /** In an orderly run a positive count with waiters is one, and the first waiter can run. */
  lemma {:induction false} RunStrandsNobody(ss: seq<Sem>, ops: seq<Op>, i: nat)
    requires Execution(ss, ops) && i <= |ops|
    requires forall j :: 0 <= j < i ==> Orderly(ss[j], ops[j])
    ensures FirstRuns(ss[i])
  {
    hide Do, Enabled, Listed, Orderly, Initial;
    if i == 0 {
      InitialFirst(ss[0]);
    } else {
      RunStrandsNobody(ss, ops, i - 1);
      RunListed(ss, ops, i - 1);
      assert Enabled(ss[i - 1], ops[i - 1]) && ss[i] == Do(ss[i - 1], ops[i - 1]);
      StepFirstRuns(ss[i - 1], ops[i - 1]);
    }
  }

  lemma TwoWait()
    ensures var s0 := Sem(0, [], map[], {}, 0, 0, 0, 0);
            Do(Do(s0, Wait(1)), Wait(2)) == Sem(0, [1, 2], map[1 := Waiting(false), 2 := Waiting(false)], {1, 2}, 0, 0, 0, 0)
  {
    var s0 := Sem(0, [], map[], {}, 0, 0, 0, 0);
    assert Do(s0, Wait(1)).waiting == [1];
    assert Do(Do(s0, Wait(1)), Wait(2)).waiting == [1, 2];
  }

  lemma FirstTakes(s: Sem)
    requires s.waiting == [1, 2] && s.count == 2 && PcOf(s, 1) == Waiting(false)
    ensures DoResume(s, 1, false).0.waiting == [2] && DoResume(s, 1, false).0.count == 1 && DoResume(s, 1, false).0.blocked == s.blocked
  {
    assert [1, 2][1..] == [2] && [2][1..] == [];
    assert Removed([2], 1) == [2] && Removed([1, 2], 1) == [2];
  }

  /** Two posts may wake the same thread; when it leaves, the second waiter sleeps on beside a positive count. */
  lemma TwoPostsStrand() returns (ss: seq<Sem>, ops: seq<Op>)
    ensures Execution(ss, ops) && |ops| == 5 && ops[2] == Post && ops[3] == Post
    ensures ss[5].count == 1 && ss[5].waiting == [2] && 2 in ss[5].blocked && Strands(ss[4], ops[4])
  {
    hide DoResume, Removed;
    var s0 := Sem(0, [], map[], {}, 0, 0, 0, 0);
    var s1 := Do(s0, Wait(1));
    var s2 := Do(s1, Wait(2));
    TwoWait();
    var s3 := Do(s2, Post);
    var s4 := Do(s3, Post);
    FirstTakes(s4);
    var s5 := Do(s4, Resume(1, false));
    ss := [s0, s1, s2, s3, s4, s5];
    ops := [Wait(1), Wait(2), Post, Post, Resume(1, false)];
  }

  // ----- The semaphore as it runs -----

  class Semaphore {
    var count: nat
    var waiting: seq<Tid>
    var pcs: map<Tid, Pc>
    var blocked: set<Tid>

    // History.
    const initial: nat
    var posts: nat
    var taken: nat
    var wraps: nat

    function State(): Sem
      reads this
    {
      Sem(count, waiting, pcs, blocked, initial, posts, taken, wraps)
    }

    constructor (value: nat)
      requires value <= MAX
      ensures Initial(State()) && initial == value
    {
      count, waiting, pcs, blocked := value, [], map[], {};
      initial, posts, taken, wraps := value, 0, 0, 0;
    }

    method SemPost()
      modifies this
      ensures State() == DoPost(old(State()))
    {
      if count == MAX {
        wraps := wraps + 1;
      }
      count := (count + 1) % (MAX + 1);
      posts := posts + 1;
      if waiting != [] {
        blocked := blocked - {waiting[0]};
      }
    }

    /** From the head of the loop until the thread sleeps or has one. */
    method AttemptWait(t: Tid, timed: bool) returns (r: Result)
      modifies this
      ensures (State(), r) == Attempt(old(State()), t, timed)
    {
      if count == 0 {
        waiting := waiting + [t];
        pcs := pcs[t := Waiting(timed)];
        blocked := blocked + {t};
        return Blocks;
      }
      count := count - 1;
      taken := taken + 1;
      pcs := pcs[t := Idle];
      return Taken;
    }

    method SemTryWait(t: Tid) returns (r: Result)
      modifies this
      ensures (State(), r) == DoTryWait(old(State()), t)
    {
      if count == 0 {
        return Again;
      }
      r := AttemptWait(t, false);
    }

    method SemTimedWait(t: Tid, late: bool) returns (r: Result)
      modifies this
      ensures (State(), r) == DoTimedWait(old(State()), t, late)
    {
      if count == 0 && late {
        return TimedOut;
      }
      r := AttemptWait(t, true);
    }

    method SemResume(t: Tid, expired: bool) returns (r: Result)
      requires PcOf(State(), t).Waiting?
      modifies this
      ensures (State(), r) == DoResume(old(State()), t, expired)
    {
      var timed := pcs[t].timed;
      var w, i := [], 0;
      while i < |waiting|
        invariant i <= |waiting| && Removed(waiting, t) == w + Removed(waiting[i..], t)
      {
        assert waiting[i..][0] == waiting[i] && waiting[i..][1..] == waiting[i + 1..];
        if waiting[i] != t {
          w := w + [waiting[i]];
        }
        i := i + 1;
      }
      assert w + Removed(waiting[i..], t) == w;
      waiting := w;
      pcs := pcs[t := Idle];
      if timed && expired {
        return TimedOut;
      }
      r := AttemptWait(t, timed);
    }
  }
}
