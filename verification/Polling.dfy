/**
 * poll and select: what one pass over the descriptors finds, with which pass poll ends, what it
 * reports and which uses of files it leaves behind, and how select is built on it.
 */
module Polling {
  import opened Basics

  // The state of the files is the environment: each pass over the descriptors sees which of them
  // are open and what each file answers.  A run is the list of what the successive passes see.

  const POLLIN: bv16 := 1
  const POLLPRI: bv16 := 2
  const POLLOUT: bv16 := 4
  const POLLERR: bv16 := 8
  const POLLHUP: bv16 := 16

  datatype PollFd = PollFd(fd: int, events: bv16, revents: bv16)

  /**
   * What one pass meets: the open descriptors, the file's answer for each entry, and whether,
   * after the pass, the time allowed has run out.
   */
  datatype Pass = Pass(open: set<int>, masks: seq<bv16>, expired: bool)

  /** What poll may report: what was asked for, errors and hangups. */
  ghost function Reportable(events: bv16): bv16 {
    events | POLLERR | POLLHUP
  }

  function Interest(events: bv16): (m: bv16)
    ensures m == Reportable(events)
  {
    events | POLLERR | POLLHUP
  }

  function Use(uses: map<int, int>, fd: int): int {
    if fd in uses then uses[fd] else 0
  }

  // ----- One pass -----

  function Answer(p: PollFd, pass: Pass, i: nat): bv16
    requires i < |pass.masks|
  {
    if p.fd in pass.open then pass.masks[i] & Interest(p.events) else p.revents
  }

  lemma NotAsked(p: PollFd, pass: Pass, i: nat)
    requires i < |pass.masks| && p.fd !in pass.open
    ensures p.(revents := Answer(p, pass, i)) == p
  {}

  ghost predicate Hit(fds: seq<PollFd>, pass: Pass, i: nat)
    requires i < |fds| == |pass.masks|
  {
    fds[i].fd in pass.open && Answer(fds[i], pass, i) != 0
  }

  ghost function Answered(fds: seq<PollFd>, pass: Pass): seq<PollFd>
    requires |fds| == |pass.masks|
  {
    seq(|fds|, i requires 0 <= i < |fds| => fds[i].(revents := Answer(fds[i], pass, i)))
  }

  /** How many of the first `n` entries are ready. */
  ghost function Hits(fds: seq<PollFd>, pass: Pass, n: nat): nat
    requires n <= |fds| == |pass.masks|
  {
    if n == 0 then 0 else Hits(fds, pass, n - 1) + if Hit(fds, pass, n - 1) then 1 else 0
  }

  /** The descriptors of the first `n` entries whose file is held: the open ones up to the first that is ready. */
  ghost function Held(fds: seq<PollFd>, pass: Pass, n: nat): seq<int>
    requires n <= |fds| == |pass.masks|
  {
    if n == 0 then []
    else if fds[n - 1].fd in pass.open && Hits(fds, pass, n - 1) == 0 then Held(fds, pass, n - 1) + [fds[n - 1].fd]
    else Held(fds, pass, n - 1)
  }

  ghost function Ready(fds: seq<PollFd>, n: nat): nat
    requires n <= |fds|
  {
    if n == 0 then 0 else Ready(fds, n - 1) + if fds[n - 1].revents != 0 then 1 else 0
  }

  /** When nothing was ready before the pass, the pass counts the entries that are ready after it. */
  lemma {:induction false} HitsAreReady(fds: seq<PollFd>, pass: Pass, n: nat)
    requires n <= |fds| == |pass.masks| && forall i :: 0 <= i < |fds| ==> fds[i].revents == 0
    ensures Hits(fds, pass, n) == Ready(Answered(fds, pass), n)
  {
    if n > 0 {
      HitsAreReady(fds, pass, n - 1);
    }
  }

  lemma {:induction false} NoHits(fds: seq<PollFd>, pass: Pass, n: nat, i: nat)
    requires i < n <= |fds| == |pass.masks| && Hits(fds, pass, n) == 0
    ensures !Hit(fds, pass, i)
  {
    if i < n - 1 {
      NoHits(fds, pass, n - 1, i);
    }
  }

  /** A pass that counts nothing leaves every entry at zero. */
  lemma QuietPass(fds: seq<PollFd>, pass: Pass)
    requires |fds| == |pass.masks| && (forall i :: 0 <= i < |fds| ==> fds[i].revents == 0)
    requires Hits(fds, pass, |fds|) == 0
    ensures Answered(fds, pass) == fds
  {
    forall i | 0 <= i < |fds| ensures Answered(fds, pass)[i] == fds[i] {
      NoHits(fds, pass, |fds|, i);
    }
  }

  // ----- The whole call -----

  datatype Outcome = Returned(count: nat, fds: seq<PollFd>) | Waiting

  ghost predicate Fitting(fds: seq<PollFd>, passes: seq<Pass>) {
    forall k :: 0 <= k < |passes| ==> |passes[k].masks| == |fds|
  }

  /** Pass after pass until something is ready or the time is over; `Waiting` if the run stops before. */
  ghost function Poll(fds: seq<PollFd>, timeout: int, passes: seq<Pass>): Outcome
    requires Fitting(fds, passes)
    decreases |passes|
  {
    if passes == [] then Waiting
    else
      var n, fds' := Hits(fds, passes[0], |fds|), Answered(fds, passes[0]);
      if n > 0 || timeout == 0 || (timeout > 0 && passes[0].expired) then Returned(n, fds')
      else Poll(fds', timeout, passes[1..])
  }

  /** The files held during the call: taken by the first pass unless it must not wait. */
  ghost function Taken(fds: seq<PollFd>, timeout: int, passes: seq<Pass>): seq<int>
    requires Fitting(fds, passes)
  {
    if timeout == 0 || passes == [] then [] else Held(fds, passes[0], |fds|)
  }

  ghost predicate SameRequests(fds: seq<PollFd>, fds': seq<PollFd>) {
    |fds'| == |fds| && forall i :: 0 <= i < |fds| ==> fds'[i].fd == fds[i].fd && fds'[i].events == fds[i].events
  }

  /**
   * The result is the number of entries with an event, and each event reported was asked for or
   * is an error or a hangup.
   */
  lemma {:induction false} PollCounts(fds: seq<PollFd>, timeout: int, passes: seq<Pass>)
    requires Fitting(fds, passes) && forall i :: 0 <= i < |fds| ==> fds[i].revents == 0
    ensures match Poll(fds, timeout, passes)
            case Waiting => true
            case Returned(count, r) =>
              && SameRequests(fds, r) && count == Ready(r, |r|)
              && (forall i :: 0 <= i < |r| ==> r[i].revents & Reportable(r[i].events) == r[i].revents)
    decreases |passes|
  {
    if passes != [] {
      var n := |fds|;
      HitsAreReady(fds, passes[0], n);
      if Hits(fds, passes[0], n) == 0 {
        QuietPass(fds, passes[0]);
        PollCounts(fds, timeout, passes[1..]);
      }
      forall i | 0 <= i < n ensures Answer(fds[i], passes[0], i) & Interest(fds[i].events) == Answer(fds[i], passes[0], i) {
        MaskTwice(passes[0].masks[i], Interest(fds[i].events));
      }
    }
  }

  lemma MaskTwice(m: bv16, e: bv16)
    ensures (m & e) & e == m & e && 0 & e == 0
  {}

  /** Nothing that was asked for happened on an open descriptor. */
  ghost predicate Silent(fds: seq<PollFd>, pass: Pass)
    requires |fds| == |pass.masks|
  {
    forall i :: 0 <= i < |fds| && fds[i].fd in pass.open ==> pass.masks[i] & Reportable(fds[i].events) == 0
  }

  /** Each open descriptor has exactly what its file answers of what it was asked; the others have nothing. */
  ghost predicate Tells(fds: seq<PollFd>, pass: Pass, r: seq<PollFd>)
    requires |fds| == |pass.masks|
  {
    && |r| == |fds|
    && forall i :: 0 <= i < |fds| ==>
         r[i] == fds[i].(revents := if fds[i].fd in pass.open then pass.masks[i] & Reportable(fds[i].events) else 0)
  }

  /** Pass `k` is the one poll ends with, and `r` is what it reports. */
  ghost predicate EndsWith(fds: seq<PollFd>, timeout: int, passes: seq<Pass>, k: nat, count: nat, r: seq<PollFd>)
    requires Fitting(fds, passes) && k < |passes|
  {
    && (count == 0 <==> Silent(fds, passes[k])) && Tells(fds, passes[k], r)
    && (count > 0 || timeout == 0 || (timeout > 0 && passes[k].expired))
    && (forall j :: 0 <= j < k ==> Silent(fds, passes[j]) && timeout != 0 && (timeout < 0 || !passes[j].expired))
  }

  lemma AnsweredTells(fds: seq<PollFd>, pass: Pass)
    requires |fds| == |pass.masks| && forall i :: 0 <= i < |fds| ==> fds[i].revents == 0
    ensures Tells(fds, pass, Answered(fds, pass))
  {}

  ghost predicate Ends(fds: seq<PollFd>, timeout: int, passes: seq<Pass>, count: nat, r: seq<PollFd>)
    requires Fitting(fds, passes)
  {
    exists k: nat :: k < |passes| && EndsWith(fds, timeout, passes, k, count, r)
  }

  lemma EndsNow(fds: seq<PollFd>, timeout: int, passes: seq<Pass>)
    requires Fitting(fds, passes) && passes != [] && forall i :: 0 <= i < |fds| ==> fds[i].revents == 0
    requires Hits(fds, passes[0], |fds|) > 0 || timeout == 0 || (timeout > 0 && passes[0].expired)
    ensures Ends(fds, timeout, passes, Hits(fds, passes[0], |fds|), Answered(fds, passes[0]))
  {
    hide Interest, Reportable, Hits, Silent, Tells, Answered;
    SilentHits(fds, passes[0], |fds|);
    SilentMeans(fds, passes[0]);
    AnsweredTells(fds, passes[0]);
    assert EndsWith(fds, timeout, passes, 0, Hits(fds, passes[0], |fds|), Answered(fds, passes[0]));
  }

  lemma EndsLater(fds: seq<PollFd>, timeout: int, passes: seq<Pass>, count: nat, r: seq<PollFd>)
    requires Fitting(fds, passes) && passes != [] && Fitting(fds, passes[1..]) && Ends(fds, timeout, passes[1..], count, r)
    requires Silent(fds, passes[0]) && timeout != 0 && (timeout < 0 || !passes[0].expired)
    ensures Ends(fds, timeout, passes, count, r)
  {
    hide Interest, Reportable, Silent, Tells;
    var k: nat :| k < |passes[1..]| && EndsWith(fds, timeout, passes[1..], k, count, r);
    assert passes[1..][k] == passes[k + 1];
    forall j | 0 <= j < k + 1 ensures Silent(fds, passes[j]) && (timeout < 0 || !passes[j].expired) {
      if j > 0 {
        assert passes[j] == passes[1..][j - 1];
      }
    }
    assert EndsWith(fds, timeout, passes, k + 1, count, r);
  }

  /**
   * poll ends with the first pass that finds something, or after which the time is over, and
   * reports for each open descriptor exactly what its file answers then of what it was asked.
   */
  lemma {:induction false} PollEnds(fds: seq<PollFd>, timeout: int, passes: seq<Pass>)
    requires Fitting(fds, passes) && forall i :: 0 <= i < |fds| ==> fds[i].revents == 0
    ensures match Poll(fds, timeout, passes)
            case Waiting => forall j :: 0 <= j < |passes| ==> Silent(fds, passes[j])
            case Returned(count, r) => Ends(fds, timeout, passes, count, r)
    decreases |passes|
  {
    hide Interest, Reportable, Hits, Silent, Ends, Answered;
    if passes != [] {
      SilentHits(fds, passes[0], |fds|);
      var n := Hits(fds, passes[0], |fds|);
      if n > 0 || timeout == 0 || (timeout > 0 && passes[0].expired) {
        EndsNow(fds, timeout, passes);
      } else {
        SilentMeans(fds, passes[0]);
        QuietPass(fds, passes[0]);
        PollEnds(fds, timeout, passes[1..]);
        var p := Poll(fds, timeout, passes[1..]);
        if p.Returned? {
          EndsLater(fds, timeout, passes, p.count, p.fds);
        } else {
          assert forall j :: 0 < j < |passes| ==> passes[j] == passes[1..][j - 1];
        }
      }
    }
  }

  lemma SilentMeans(fds: seq<PollFd>, pass: Pass)
    requires |fds| == |pass.masks|
    ensures Silent(fds, pass) <==>
              forall i :: 0 <= i < |fds| && fds[i].fd in pass.open ==> pass.masks[i] & Reportable(fds[i].events) == 0
  {}

  lemma {:induction false} SilentHits(fds: seq<PollFd>, pass: Pass, n: nat)
    requires n <= |fds| == |pass.masks|
    ensures Hits(fds, pass, n) == 0 <==>
              forall i :: 0 <= i < n && fds[i].fd in pass.open ==> pass.masks[i] & Reportable(fds[i].events) == 0
  {
    hide Interest, Reportable;
    if n > 0 {
      SilentHits(fds, pass, n - 1);
    }
  }

  // ----- The uses of the files -----

  ghost function Occ(s: seq<int>, x: int): nat {
    if s == [] then 0 else Occ(s[..|s| - 1], x) + if s[|s| - 1] == x then 1 else 0
  }

  lemma {:induction false} OccIn(s: seq<int>, x: int)
    ensures Occ(s, x) > 0 <==> x in s
  {
    if s != [] {
      OccIn(s[..|s| - 1], x);
      assert s == s[..|s| - 1] + [s[|s| - 1]];
    }
  }

  lemma {:induction false} OccOnce(s: seq<int>, x: int)
    requires NoDup(s)
    ensures Occ(s, x) <= 1
  {
    if s != [] {
      OccOnce(s[..|s| - 1], x);
      OccIn(s[..|s| - 1], x);
    }
  }

  lemma {:induction false} OccTwice(s: seq<int>, i: nat, j: nat)
    requires i < j < |s| && s[i] == s[j]
    ensures Occ(s, s[i]) >= 2
  {
    var t := s[..|s| - 1];
    if j < |s| - 1 {
      OccTwice(t, i, j);
    } else {
      assert t[i] == s[i] && t[i] in t;
      OccIn(t, s[i]);
    }
  }

  /** What a call leaves behind: each file held is released once, however often it was taken. */
  ghost function Left(taken: seq<int>, fd: int): int {
    Occ(taken, fd) - if fd in taken then 1 else 0
  }

  ghost predicate Balanced(taken: seq<int>) {
    forall fd: int :: Left(taken, fd) == 0
  }

  lemma UsesBalance(taken: seq<int>)
    ensures Balanced(taken) <==> NoDup(taken)
  {
    if NoDup(taken) {
      forall fd: int ensures Left(taken, fd) == 0 {
        OccOnce(taken, fd);
        OccIn(taken, fd);
      }
    } else {
      var i, j :| 0 <= i < j < |taken| && taken[i] == taken[j];
      OccTwice(taken, i, j);
      assert Left(taken, taken[i]) > 0;
    }
  }

  /** Entry `i` is held by the pass: its descriptor is open and no entry before it was ready. */
  ghost predicate Takes(fds: seq<PollFd>, pass: Pass, i: nat)
    requires i < |fds| == |pass.masks|
  {
    fds[i].fd in pass.open && Hits(fds, pass, i) == 0
  }

  ghost predicate TakesAmong(fds: seq<PollFd>, pass: Pass, n: nat, fd: int)
    requires n <= |fds| == |pass.masks|
  {
    exists i :: 0 <= i < n && fds[i].fd == fd && Takes(fds, pass, i)
  }

  lemma {:induction false} HeldMembers(fds: seq<PollFd>, pass: Pass, n: nat, fd: int)
    requires n <= |fds| == |pass.masks|
    ensures fd in Held(fds, pass, n) <==> TakesAmong(fds, pass, n, fd)
  {
    hide Hits;
    if n > 0 {
      HeldMembers(fds, pass, n - 1, fd);
      if Takes(fds, pass, n - 1) && fds[n - 1].fd == fd {
        assert fd == Held(fds, pass, n)[|Held(fds, pass, n)| - 1];
      }
    }
  }

  /** A descriptor was given twice, was open, and nothing before its second entry was ready. */
  ghost predicate TwoEntries(fds: seq<PollFd>, pass: Pass, n: nat)
    requires n <= |fds| == |pass.masks|
  {
    exists i, j :: 0 <= i < j < n && fds[i].fd == fds[j].fd && fds[j].fd in pass.open && Hits(fds, pass, j) == 0
  }

  lemma {:induction false} NoneEarlier(fds: seq<PollFd>, pass: Pass, i: nat, j: nat)
    requires i <= j <= |fds| == |pass.masks| && Hits(fds, pass, j) == 0
    ensures Hits(fds, pass, i) == 0
  {
    if i < j {
      NoneEarlier(fds, pass, i, j - 1);
    }
  }

  lemma TwoEntriesStep(fds: seq<PollFd>, pass: Pass, n: nat)
    requires 0 < n <= |fds| == |pass.masks|
    ensures TwoEntries(fds, pass, n) <==>
              TwoEntries(fds, pass, n - 1) || (Takes(fds, pass, n - 1) && TakesAmong(fds, pass, n - 1, fds[n - 1].fd))
  {
    hide Hits;
    if i, j :| 0 <= i < j < n && fds[i].fd == fds[j].fd && fds[j].fd in pass.open && Hits(fds, pass, j) == 0 {
      NoneEarlier(fds, pass, i, j);
      assert Takes(fds, pass, i);
    }
  }

  lemma {:induction false} HeldTwice(fds: seq<PollFd>, pass: Pass, n: nat)
    requires n <= |fds| == |pass.masks|
    ensures NoDup(Held(fds, pass, n)) <==> !TwoEntries(fds, pass, n)
  {
    hide Takes, TakesAmong, TwoEntries, NoDup, Hits;
    if n == 0 {
      NothingTwice(fds, pass);
    } else {
      HeldTwice(fds, pass, n - 1);
      TwoEntriesStep(fds, pass, n);
      HeldMembers(fds, pass, n - 1, fds[n - 1].fd);
      TakesHolds(fds, pass, n);
      NoDupAppend(Held(fds, pass, n - 1), fds[n - 1].fd);
    }
  }

  lemma NothingTwice(fds: seq<PollFd>, pass: Pass)
    requires |fds| == |pass.masks|
    ensures NoDup<int>([]) && !TwoEntries(fds, pass, 0)
  {}

  lemma TakesHolds(fds: seq<PollFd>, pass: Pass, n: nat)
    requires 0 < n <= |fds| == |pass.masks|
    ensures Held(fds, pass, n) == Held(fds, pass, n - 1) + if Takes(fds, pass, n - 1) then [fds[n - 1].fd] else []
  {}

  /**
   * What poll registered it releases in full, except exactly when it may wait and the first pass
   * met an open descriptor with two entries and nothing ready before the second of them.
   */
  lemma PollLeaves(fds: seq<PollFd>, timeout: int, passes: seq<Pass>)
    requires Fitting(fds, passes)
    ensures !Balanced(Taken(fds, timeout, passes)) <==>
              timeout != 0 && passes != [] && TwiceOpen(fds, passes[0])
  {
    hide Balanced, TwoEntries, TwiceOpen, Held;
    UsesBalance(Taken(fds, timeout, passes));
    if timeout != 0 && passes != [] {
      HeldTwice(fds, passes[0], |fds|);
      TwiceOpenMeans(fds, passes[0]);
    }
  }

  /**
   * A descriptor was given twice and was open, and no open descriptor before its second entry had
   * anything to report.
   */
  ghost predicate TwiceOpen(fds: seq<PollFd>, pass: Pass)
    requires |fds| == |pass.masks|
  {
    exists i, j :: 0 <= i < j < |fds| && fds[i].fd == fds[j].fd && fds[j].fd in pass.open && QuietBefore(fds, pass, j)
  }

  ghost predicate QuietBefore(fds: seq<PollFd>, pass: Pass, j: nat)
    requires j <= |fds| == |pass.masks|
  {
    forall k :: 0 <= k < j && fds[k].fd in pass.open ==> pass.masks[k] & Reportable(fds[k].events) == 0
  }

  lemma TwiceOpenMeans(fds: seq<PollFd>, pass: Pass)
    requires |fds| == |pass.masks|
    ensures TwiceOpen(fds, pass) <==> TwoEntries(fds, pass, |fds|)
  {
    hide Hits, QuietBefore;
    forall j: nat {:trigger QuietBefore(fds, pass, j)} | j < |fds| ensures QuietBefore(fds, pass, j) <==> Hits(fds, pass, j) == 0 {
      QuietHits(fds, pass, j);
    }
    if i, j :| 0 <= i < j < |fds| && fds[i].fd == fds[j].fd && fds[j].fd in pass.open && Hits(fds, pass, j) == 0 {
      assert QuietBefore(fds, pass, j);
    }
  }

  lemma QuietHits(fds: seq<PollFd>, pass: Pass, j: nat)
    requires j <= |fds| == |pass.masks|
    ensures QuietBefore(fds, pass, j) <==> Hits(fds, pass, j) == 0
  {
    hide Hits, Reportable;
    SilentHits(fds, pass, j);
  }

  ghost predicate DistinctEntries(fds: seq<PollFd>) {
    forall i, j :: 0 <= i < j < |fds| ==> fds[i].fd != fds[j].fd
  }

  /** A pass in which `fd` is open, nothing happened, and then the time is over. */
  ghost function Calm(fds: seq<PollFd>, fd: int): Pass {
    Pass({fd}, seq(|fds|, i => 0), true)
  }

  /** A pass in which `fd` is open and its file answers with an error. */
  ghost function Broken(fds: seq<PollFd>, fd: int): Pass {
    Pass({fd}, seq(|fds|, i => POLLERR), true)
  }

  lemma {:induction false} CalmHits(fds: seq<PollFd>, fd: int, n: nat)
    requires n <= |fds|
    ensures Hits(fds, Calm(fds, fd), n) == 0
  {
    if n > 0 {
      CalmHits(fds, fd, n - 1);
      MaskTwice(0, Interest(fds[n - 1].events));
    }
  }

  lemma ErrorsCount(events: bv16)
    ensures POLLERR & Interest(events) != 0
  {}

  /** With time to wait, a calm pass and a broken one end the call. */
  lemma Returns(fds: seq<PollFd>, timeout: int, i: nat)
    requires i < |fds| && timeout != 0
    ensures var passes := [Calm(fds, fds[i].fd), Broken(fds, fds[i].fd)];
            Fitting(fds, passes) && Poll(fds, timeout, passes).Returned?
  {
    hide Interest, Reportable, Hits;
    var fd := fds[i].fd;
    var passes := [Calm(fds, fd), Broken(fds, fd)];
    var fds' := Answered(fds, passes[0]);
    CalmHits(fds, fd, |fds|);
    ErrorsCount(fds[i].events);
    assert Hit(fds', passes[1], i);
    if Hits(fds', passes[1], |fds|) == 0 {
      NoHits(fds', passes[1], |fds|, i);
    }
    assert passes[1..] == [passes[1]];
    assert Poll(fds', timeout, [passes[1]]).Returned?;
  }

  /**
   * Whatever the files do, poll has released all it took when it returns, precisely if the caller
   * gave it no time to wait or no descriptor twice.
   */
  lemma AlwaysBalanced(fds: seq<PollFd>, timeout: int)
    ensures (forall passes: seq<Pass> :: Fitting(fds, passes) && Poll(fds, timeout, passes).Returned? ==>
                                           Balanced(Taken(fds, timeout, passes)))
            <==> timeout == 0 || DistinctEntries(fds)
  {
    hide Balanced, Taken, Poll;
    if timeout == 0 || DistinctEntries(fds) {
      forall passes: seq<Pass> | Fitting(fds, passes) ensures Balanced(Taken(fds, timeout, passes)) {
        PollLeaves(fds, timeout, passes);
      }
    } else {
      var i, j :| 0 <= i < j < |fds| && fds[i].fd == fds[j].fd;
      var passes := [Calm(fds, fds[i].fd), Broken(fds, fds[i].fd)];
      CalmHits(fds, fds[i].fd, j);
      Returns(fds, timeout, i);
      assert TwoEntries(fds, passes[0], |fds|);
      TwiceOpenMeans(fds, passes[0]);
      PollLeaves(fds, timeout, passes);
      assert Fitting(fds, passes) && Poll(fds, timeout, passes).Returned? && !Balanced(Taken(fds, timeout, passes));
    }
  }

  /** The call has returned, and this is what it did to the counts. */
  ghost predicate Settled(before: map<int, int>, uses: map<int, int>, fds: seq<PollFd>, timeout: int, passes: seq<Pass>)
    requires Fitting(fds, passes)
  {
    && Poll(fds, timeout, passes).Returned?
    && forall fd: int :: Use(uses, fd) == Use(before, fd) + Left(Taken(fds, timeout, passes), fd)
  }

  // ----- select -----

  /** The three sets; an absent one is None. */
  datatype Sets = Sets(read: Option<set<nat>>, write: Option<set<nat>>, except: Option<set<nat>>)

  predicate In(s: Option<set<nat>>, fd: nat) {
    s.Some? && fd in s.value
  }

  function Events(s: Sets, fd: nat): bv16 {
    (if In(s.read, fd) then POLLIN else 0) | (if In(s.write, fd) then POLLOUT else 0) | (if In(s.except, fd) then POLLPRI else 0)
  }

  lemma EventBits(r: bool, w: bool, e: bool)
    ensures var b: bv16 := (if r then POLLIN else 0) | (if w then POLLOUT else 0) | (if e then POLLPRI else 0);
            && (b & POLLIN != 0 <==> r) && (b & POLLOUT != 0 <==> w) && (b & POLLPRI != 0 <==> e) && (b != 0 <==> r || w || e)
  {}

  /** One entry for each descriptor below the limit that some set asks about, in increasing order. */
  ghost function Requests(s: Sets, nfds: nat): (fds: seq<PollFd>)
    ensures forall i :: 0 <= i < |fds| ==> 0 <= fds[i].fd < nfds && fds[i].revents == 0 && fds[i].events == Events(s, fds[i].fd) != 0
    ensures forall i, j :: 0 <= i < j < |fds| ==> fds[i].fd < fds[j].fd
  {
    if nfds == 0 then []
    else if Events(s, nfds - 1) != 0 then Requests(s, nfds - 1) + [PollFd(nfds - 1, Events(s, nfds - 1), 0)]
    else Requests(s, nfds - 1)
  }

  ghost predicate Asks(fds: seq<PollFd>, fd: nat) {
    exists i :: 0 <= i < |fds| && fds[i].fd == fd
  }

  /** Nothing asked for is left out. */
  lemma {:induction false} RequestsCover(s: Sets, nfds: nat, fd: nat)
    ensures Asks(Requests(s, nfds), fd) <==> fd < nfds && Events(s, fd) != 0
  {
    hide Events;
    if nfds > 0 {
      RequestsCover(s, nfds - 1, fd);
      var r1 := Requests(s, nfds - 1);
      if Events(s, nfds - 1) != 0 {
        AsksMore(r1, PollFd(nfds - 1, Events(s, nfds - 1), 0), fd);
      }
    }
  }

  lemma AsksMore(fds: seq<PollFd>, p: PollFd, fd: nat)
    ensures Asks(fds + [p], fd) <==> Asks(fds, fd) || p.fd == fd
  {
    if Asks(fds, fd) {
      var i :| 0 <= i < |fds| && fds[i].fd == fd;
      assert (fds + [p])[i].fd == fd;
    }
    if p.fd == fd {
      assert (fds + [p])[|fds|].fd == fd;
    }
  }

  predicate Readable(p: PollFd) {
    POLLIN & p.revents != 0 || POLLHUP & p.revents != 0 || POLLERR & p.revents != 0
  }

  datatype Kind = Read | Write | Except

  /** The events that a result set is about. */
  ghost function About(k: Kind): bv16 {
    match k
    case Read => POLLIN | POLLERR | POLLHUP
    case Write => POLLOUT
    case Except => POLLPRI
  }

  /** Some entry of `fd` came back with an event that the set is about. */
  ghost predicate Shows(k: Kind, r: seq<PollFd>, fd: nat) {
    exists i :: 0 <= i < |r| && r[i].fd == fd && r[i].revents & About(k) != 0
  }

  lemma FlaggedMeans(k: Kind, p: PollFd)
    ensures Flagged(k, p) <==> p.revents & About(k) != 0
  {}

  lemma AmongShows(k: Kind, r: seq<PollFd>, fd: nat)
    ensures Among(k, r, |r|, fd) <==> Shows(k, r, fd)
  {
    hide Flagged, About;
    forall i | 0 <= i < |r| ensures Flagged(k, r[i]) <==> r[i].revents & About(k) != 0 {
      FlaggedMeans(k, r[i]);
    }
  }

  /** The events that put an entry into a result set. */
  predicate Flagged(k: Kind, p: PollFd) {
    match k
    case Read => Readable(p)
    case Write => POLLOUT & p.revents != 0
    case Except => POLLPRI & p.revents != 0
  }

  function SetOf(s: Sets, k: Kind): Option<set<nat>> {
    match k
    case Read => s.read
    case Write => s.write
    case Except => s.except
  }

  ghost predicate Numbered(fds: seq<PollFd>) {
    && (forall i :: 0 <= i < |fds| ==> fds[i].fd >= 0)
    && (forall i, j :: 0 <= i < j < |fds| ==> fds[i].fd < fds[j].fd)
  }

  /** What the loop over the entries puts into one set that is present, and how often it counts. */
  ghost function Collect(k: Kind, fds: seq<PollFd>, n: nat): (set<nat>, nat)
    requires n <= |fds| && Numbered(fds)
  {
    if n == 0 then ({}, 0)
    else
      var r := Collect(k, fds, n - 1);
      if Flagged(k, fds[n - 1]) then (r.0 + {fds[n - 1].fd}, r.1 + 1) else r
  }

  ghost predicate Among(k: Kind, fds: seq<PollFd>, n: nat, fd: nat)
    requires n <= |fds|
  {
    exists i :: 0 <= i < n && fds[i].fd == fd && Flagged(k, fds[i])
  }

  lemma AmongStep(k: Kind, fds: seq<PollFd>, n: nat, fd: nat)
    requires 0 < n <= |fds|
    ensures Among(k, fds, n, fd) <==> Among(k, fds, n - 1, fd) || (fds[n - 1].fd == fd && Flagged(k, fds[n - 1]))
  {
    hide Flagged;
    if fds[n - 1].fd == fd && Flagged(k, fds[n - 1]) {
      assert 0 <= n - 1 < n && fds[n - 1].fd == fd;
    }
  }

  lemma NotYetAmong(k: Kind, fds: seq<PollFd>, n: nat)
    requires 0 < n <= |fds| && Numbered(fds)
    ensures !Among(k, fds, n - 1, fds[n - 1].fd)
  {
    hide Flagged;
  }

  /** The set holds exactly the flagged entries, and the count is its size. */
  ghost predicate CollectRight(k: Kind, fds: seq<PollFd>, n: nat)
    requires n <= |fds| && Numbered(fds)
  {
    var (c, m) := Collect(k, fds, n);
    m == |c| && forall fd: nat :: fd in c <==> Among(k, fds, n, fd)
  }

  lemma {:induction false} CollectMeans(k: Kind, fds: seq<PollFd>, n: nat)
    requires n <= |fds| && Numbered(fds)
    ensures CollectRight(k, fds, n)
  {
    if n > 0 {
      CollectMeans(k, fds, n - 1);
      NotYetAmong(k, fds, n);
      CollectStep(k, fds, n);
    }
  }

  lemma CollectStep(k: Kind, fds: seq<PollFd>, n: nat)
    requires 0 < n <= |fds| && Numbered(fds) && !Among(k, fds, n - 1, fds[n - 1].fd) && CollectRight(k, fds, n - 1)
    ensures CollectRight(k, fds, n)
  {
    hide Flagged, Among;
    forall fd: nat ensures fd in Collect(k, fds, n).0 <==> Among(k, fds, n, fd) {
      AmongStep(k, fds, n, fd);
    }
  }

  function Size(s: Option<set<nat>>): nat {
    if s.Some? then |s.value| else 0
  }

  ghost function ChosenSet(s: Sets, k: Kind, fds: seq<PollFd>): (Option<set<nat>>, nat)
    requires Numbered(fds)
  {
    if SetOf(s, k) == None then (None, 0)
    else (Some(Collect(k, fds, |fds|).0), Collect(k, fds, |fds|).1)
  }

  datatype Errno = EINVAL | EBADF

  datatype Selected = Failed(err: Errno) | Chosen(count: nat, sets: Sets) | StillWaiting

  /** A missing timeout is None; the others are in milliseconds, negative if the caller gave a negative time. */
  ghost predicate BadCall(s: Sets, nfds: int, timeout: Option<int>) {
    nfds == -1 || (s.read == None && s.write == None && s.except == None) || (timeout.Some? && timeout.value < 0)
  }

  ghost predicate AllOpen(s: Sets, nfds: int, open: set<int>) {
    forall fd: nat :: fd < nfds && Events(s, fd) != 0 ==> fd in open
  }

  ghost function Limit(nfds: int): nat {
    if nfds < 0 then 0 else nfds
  }

  ghost function Select(s: Sets, nfds: int, timeout: Option<int>, open: set<int>, passes: seq<Pass>): Selected
    requires Fitting(Requests(s, Limit(nfds)), passes)
  {
    if BadCall(s, nfds, timeout) then Failed(EINVAL)
    else if !AllOpen(s, nfds, open) then Failed(EBADF)
    else
      var fds := Requests(s, Limit(nfds));
      match Poll(fds, if timeout.Some? then timeout.value else -1, passes)
      case Waiting => StillWaiting
      case Returned(count, r) =>
        if count == 0 || !Numbered(r) then Chosen(0, Sets(Cleared(s.read), Cleared(s.write), Cleared(s.except)))
        else
          var x, y, z := ChosenSet(s, Read, r), ChosenSet(s, Write, r), ChosenSet(s, Except, r);
          Chosen(x.1 + y.1 + z.1, Sets(x.0, y.0, z.0))
  }

  function Cleared(s: Option<set<nat>>): Option<set<nat>> {
    if s.Some? then Some({}) else None
  }

  /** The entry poll gives back for the descriptor has an error or a hangup. */
  ghost predicate Failing(r: seq<PollFd>, fd: nat) {
    exists i :: 0 <= i < |r| && r[i].fd == fd && r[i].revents & (POLLERR | POLLHUP) != 0
  }

  /**
   * A successful select returns the total size of the three sets; what it reports as writable or
   * exceptional was asked for, and what it reports as readable was asked for as such or is in one
   * of the sets and has an error or a hangup; nothing outside the limit is reported.
   */
  lemma SelectCounts(s: Sets, nfds: int, timeout: Option<int>, open: set<int>, passes: seq<Pass>)
    requires Fitting(Requests(s, Limit(nfds)), passes)
    ensures match Select(s, nfds, timeout, open, passes)
            case Chosen(count, c) =>
              var p := Poll(Requests(s, Limit(nfds)), if timeout.Some? then timeout.value else -1, passes);
              p.Returned? && CountsRight(s, nfds, p.fds, count, c)
            case _ => true
  {
    hide Poll, Requests, Fitting, BadCall, AllOpen, Polled, Numbered, ChosenSet, Cleared, CountsRight;
    if Select(s, nfds, timeout, open, passes).Chosen? {
      var t := if timeout.Some? then timeout.value else -1;
      var p := Poll(Requests(s, Limit(nfds)), t, passes);
      if p.count != 0 {
        PollPolled(s, nfds, t, passes);
        ChosenCounts(s, nfds, p.fds);
      } else {
        ClearedCounts(s, nfds, p.fds);
      }
    }
  }

  /** `count` and the sets `c` are right for the entries `r` that poll gave back. */
  ghost predicate CountsRight(s: Sets, nfds: int, r: seq<PollFd>, count: nat, c: Sets) {
    && count == Size(c.read) + Size(c.write) + Size(c.except)
    && (forall fd: nat :: In(c.write, fd) ==> In(s.write, fd) && fd < nfds)
    && (forall fd: nat :: In(c.except, fd) ==> In(s.except, fd) && fd < nfds)
    && (forall fd: nat :: In(c.read, fd) ==> fd < nfds && (In(s.read, fd) || Failing(r, fd)))
    && (forall fd: nat :: In(c.read, fd) ==> In(s.read, fd) || In(s.write, fd) || In(s.except, fd))
  }

  lemma ClearedCounts(s: Sets, nfds: int, r: seq<PollFd>)
    ensures CountsRight(s, nfds, r, 0, Sets(Cleared(s.read), Cleared(s.write), Cleared(s.except)))
  {}

  lemma ChosenCounts(s: Sets, nfds: int, r: seq<PollFd>)
    requires Polled(s, Limit(nfds), r) && Numbered(r)
    ensures var x, y, z := ChosenSet(s, Read, r), ChosenSet(s, Write, r), ChosenSet(s, Except, r);
            CountsRight(s, nfds, r, x.1 + y.1 + z.1, Sets(x.0, y.0, z.0))
  {
    hide Polled, ChosenSet, Failing, Size, In;
    ChosenAsked(s, Read, Limit(nfds), r);
    ChosenAsked(s, Write, Limit(nfds), r);
    ChosenAsked(s, Except, Limit(nfds), r);
  }

  /** The entries as poll gives them back. */
  ghost predicate Polled(s: Sets, nfds: nat, r: seq<PollFd>) {
    && Numbered(r)
    && forall i :: 0 <= i < |r| ==>
         && 0 <= r[i].fd < nfds && r[i].events == Events(s, r[i].fd) != 0
         && r[i].revents & Reportable(r[i].events) == r[i].revents
  }

  lemma RequestsNumbered(s: Sets, nfds: nat, r: seq<PollFd>)
    requires SameRequests(Requests(s, nfds), r)
    requires forall i :: 0 <= i < |r| ==> r[i].revents & Reportable(r[i].events) == r[i].revents
    ensures Polled(s, nfds, r)
  {
    hide Interest, Reportable, Events;
  }

  ghost predicate Justified(s: Sets, k: Kind, nfds: nat, r: seq<PollFd>, fd: nat) {
    && fd < nfds && (In(s.read, fd) || In(s.write, fd) || In(s.except, fd))
    && (In(SetOf(s, k), fd) || (k == Read && Failing(r, fd)))
  }

  lemma ReadableBits(p: PollFd)
    requires Readable(p) && POLLIN & p.revents == 0
    ensures p.revents & (POLLERR | POLLHUP) != 0
  {}

  lemma ChosenAsked(s: Sets, k: Kind, nfds: nat, r: seq<PollFd>)
    requires Polled(s, nfds, r)
    ensures var (c, n) := ChosenSet(s, k, r);
            && n == Size(c)
            && forall fd: nat :: In(c, fd) ==> Justified(s, k, nfds, r, fd)
  {
    hide Events, Readable, Interest, Reportable;
    CollectMeans(k, r, |r|);
    forall fd: nat | In(ChosenSet(s, k, r).0, fd)
      ensures Justified(s, k, nfds, r, fd)
    {
      assert Among(k, r, |r|, fd);
      var i :| 0 <= i < |r| && r[i].fd == fd && Flagged(k, r[i]);
      Asked(s, fd);
      Reported(s, fd, r[i].revents);
      if k == Read && POLLIN & r[i].revents == 0 {
        ReadableBits(r[i]);
      }
    }
  }

  lemma Asked(s: Sets, fd: nat)
    requires Events(s, fd) != 0
    ensures In(s.read, fd) || In(s.write, fd) || In(s.except, fd)
  {
    EventBits(In(s.read, fd), In(s.write, fd), In(s.except, fd));
  }

  lemma Reported(s: Sets, fd: nat, revents: bv16)
    requires revents & Reportable(Events(s, fd)) == revents
    ensures POLLOUT & revents != 0 ==> In(s.write, fd)
    ensures POLLPRI & revents != 0 ==> In(s.except, fd)
    ensures POLLIN & revents != 0 ==> In(s.read, fd)
  {
    ReportedBits(In(s.read, fd), In(s.write, fd), In(s.except, fd), revents);
  }

  lemma ReportedBits(r: bool, w: bool, e: bool, revents: bv16)
    requires var b: bv16 := (if r then POLLIN else 0) | (if w then POLLOUT else 0) | (if e then POLLPRI else 0);
             revents & (b | POLLERR | POLLHUP) == revents
    ensures POLLOUT & revents != 0 ==> w
    ensures POLLPRI & revents != 0 ==> e
    ensures POLLIN & revents != 0 ==> r
  {}

  lemma {:induction false} NoneReady(k: Kind, fds: seq<PollFd>, n: nat, fd: nat)
    requires n <= |fds| && Ready(fds, n) == 0
    ensures !Among(k, fds, n, fd)
  {
    if n > 0 {
      NoneReady(k, fds, n - 1, fd);
      NoEvent(k, fds[n - 1]);
      AmongStep(k, fds, n, fd);
    }
  }

  lemma NoEvent(k: Kind, p: PollFd)
    requires p.revents == 0
    ensures !Flagged(k, p)
  {}

  /**
   * Each set that was given holds, after a successful select, exactly the descriptors whose entry
   * came back from poll with an event of that set.
   */
  lemma SelectReports(s: Sets, nfds: int, timeout: Option<int>, open: set<int>, passes: seq<Pass>, k: Kind, fd: nat)
    requires Fitting(Requests(s, Limit(nfds)), passes)
    ensures match Select(s, nfds, timeout, open, passes)
            case Chosen(_, c) =>
              var p := Poll(Requests(s, Limit(nfds)), if timeout.Some? then timeout.value else -1, passes);
              p.Returned? && (SetOf(c, k) == None <==> SetOf(s, k) == None)
              && (In(SetOf(c, k), fd) <==> SetOf(s, k).Some? && Shows(k, p.fds, fd))
            case _ => true
  {
    hide Poll, Readable, Events, Collect, Requests, Flagged, Interest, Reportable, Ready, BadCall, AllOpen, Polled, Among, Shows;
    var fds, t := Requests(s, Limit(nfds)), if timeout.Some? then timeout.value else -1;
    if Select(s, nfds, timeout, open, passes).Chosen? {
      PollCounts(fds, t, passes);
      var p := Poll(fds, t, passes);
      AmongShows(k, p.fds, fd);
      if p.count == 0 {
        NoneReady(k, p.fds, |p.fds|, fd);
      } else {
        RequestsNumbered(s, Limit(nfds), p.fds);
        CollectMeans(k, p.fds, |p.fds|);
        PolledNumbered(s, Limit(nfds), p.fds);
      }
    }
  }

  lemma PolledNumbered(s: Sets, nfds: nat, r: seq<PollFd>)
    requires Polled(s, nfds, r)
    ensures Numbered(r)
  {}

  /**
   * What select answers: EINVAL exactly for a limit of -1, for no set at all or for a negative time;
   * otherwise EBADF exactly if some set asks about a descriptor below the limit that is not open; and
   * otherwise it waits as long as poll does.
   */
  lemma SelectAnswers(s: Sets, nfds: int, timeout: Option<int>, open: set<int>, passes: seq<Pass>)
    requires Fitting(Requests(s, Limit(nfds)), passes)
    ensures var r := Select(s, nfds, timeout, open, passes);
            var invalid := nfds == -1 || (s.read == None && s.write == None && s.except == None) || (timeout.Some? && timeout.value < 0);
            && (r == Failed(EINVAL) <==> invalid)
            && (r == Failed(EBADF) <==> !invalid && exists fd: nat :: fd < nfds && fd !in open && AskedFor(s, fd))
            && (r == StillWaiting ==>
                  Poll(Requests(s, Limit(nfds)), match timeout case None => -1 case Some(t) => t, passes).Waiting?)
            && (r.Chosen? ==>
                  Poll(Requests(s, Limit(nfds)), match timeout case None => -1 case Some(t) => t, passes).Returned?)
  {
    hide Poll, Requests, Events, Collect, Numbered, Fitting;
    forall fd: nat ensures AskedFor(s, fd) <==> Events(s, fd) != 0 {
      AskedBits(s, fd);
    }
  }

  /** Some set asks about the descriptor. */
  ghost predicate AskedFor(s: Sets, fd: nat) {
    In(s.read, fd) || In(s.write, fd) || In(s.except, fd)
  }

  lemma AskedBits(s: Sets, fd: nat)
    ensures AskedFor(s, fd) <==> Events(s, fd) != 0
    ensures (Events(s, fd) & POLLIN != 0 <==> In(s.read, fd)) && (Events(s, fd) & POLLOUT != 0 <==> In(s.write, fd))
    ensures (Events(s, fd) & POLLPRI != 0 <==> In(s.except, fd)) && Events(s, fd) | POLLIN | POLLOUT | POLLPRI == POLLIN | POLLOUT | POLLPRI
  {
    EventBits(In(s.read, fd), In(s.write, fd), In(s.except, fd));
    NoOtherBits(In(s.read, fd), In(s.write, fd), In(s.except, fd));
  }

  lemma NoOtherBits(r: bool, w: bool, e: bool)
    ensures var b: bv16 := (if r then POLLIN else 0) | (if w then POLLOUT else 0) | (if e then POLLPRI else 0);
            b | POLLIN | POLLOUT | POLLPRI == POLLIN | POLLOUT | POLLPRI
  {}

  /**
   * The entries select hands to poll: one for each descriptor below the limit that some set asks
   * about, in increasing order, asking to read, to write and for exceptions exactly as the sets do.
   */
  lemma RequestsExactly(s: Sets, nfds: int, fd: nat)
    ensures Asks(Requests(s, Limit(nfds)), fd) <==> fd < nfds && AskedFor(s, fd)
    ensures forall i, j :: 0 <= i < j < |Requests(s, Limit(nfds))| ==> Requests(s, Limit(nfds))[i].fd < Requests(s, Limit(nfds))[j].fd
    ensures forall i :: 0 <= i < |Requests(s, Limit(nfds))| && Requests(s, Limit(nfds))[i].fd == fd ==>
              var e := Requests(s, Limit(nfds))[i].events;
              && (e & POLLIN != 0 <==> In(s.read, fd)) && (e & POLLOUT != 0 <==> In(s.write, fd)) && (e & POLLPRI != 0 <==> In(s.except, fd))
              && e | POLLIN | POLLOUT | POLLPRI == POLLIN | POLLOUT | POLLPRI
  {
    hide Events, Requests, Asks;
    RequestsCover(s, Limit(nfds), fd);
    AskedBits(s, fd);
  }

  /** The descriptors select passes on are distinct, so it releases every file it held. */
  lemma SelectBalances(s: Sets, nfds: int, timeout: int, passes: seq<Pass>)
    requires Fitting(Requests(s, Limit(nfds)), passes)
    ensures Balanced(Taken(Requests(s, Limit(nfds)), timeout, passes))
  {
    hide Balanced;
    PollLeaves(Requests(s, Limit(nfds)), timeout, passes);
  }

  lemma TakenTwice()
    ensures var fds := [PollFd(3, POLLIN, 0), PollFd(3, POLLIN, 0)];
            var pass := Pass({3}, [0, 0], true);
            Hits(fds, pass, 2) == 0 && Answered(fds, pass) == fds && Left(Held(fds, pass, 2), 3) == 1
  {
    var fds := [PollFd(3, POLLIN, 0), PollFd(3, POLLIN, 0)];
    var pass := Pass({3}, [0, 0], true);
    MaskTwice(0, Interest(POLLIN));
    assert Answer(fds[0], pass, 0) == 0 && Answer(fds[1], pass, 1) == 0;
    assert Held(fds, pass, 0) == [] && Held(fds, pass, 1) == [3];
    assert Hits(fds, pass, 1) == 0;
    assert Held(fds, pass, 2) == [3] + [3] == [3, 3];
    assert [3, 3][..1] == [3] && [3][..0] == [];
    assert Occ([3], 3) == 1 && Occ([3, 3], 3) == 2;
  }

  /** Given a descriptor twice and a time that runs out, poll returns 0 with one use never released. */
  lemma TwiceHeld(before: map<int, int>, uses: map<int, int>)
    ensures var fds := [PollFd(3, POLLIN, 0), PollFd(3, POLLIN, 0)];
            var passes := [Pass({3}, [0, 0], true)];
            && Poll(fds, 1, passes) == Returned(0, fds)
            && (Settled(before, uses, fds, 1, passes) ==> Use(uses, 3) == Use(before, 3) + 1)
  {
    hide Hits, Answered, Held, Left;
    TakenTwice();
  }

  lemma PollPolled(s: Sets, nfds: int, timeout: int, passes: seq<Pass>)
    requires Fitting(Requests(s, Limit(nfds)), passes) && Poll(Requests(s, Limit(nfds)), timeout, passes).Returned?
    ensures var r := Poll(Requests(s, Limit(nfds)), timeout, passes).fds; Polled(s, Limit(nfds), r) && Numbered(r)
  {
    hide Poll, Requests, Interest, Reportable, Events;
    PollCounts(Requests(s, Limit(nfds)), timeout, passes);
    RequestsNumbered(s, Limit(nfds), Poll(Requests(s, Limit(nfds)), timeout, passes).fds);
  }

  // ----- The calls as they run -----

  ghost function Blank(fds: seq<PollFd>): (r: seq<PollFd>)
    ensures |r| == |fds| && forall i :: 0 <= i < |fds| ==> r[i] == fds[i].(revents := 0)
  {
    seq(|fds|, i requires 0 <= i < |fds| => fds[i].(revents := 0))
  }

  /** The keys of the map from descriptors to held files. */
  ghost predicate Keys(keys: seq<int>, held: seq<int>) {
    NoDup(keys) && forall fd: int :: fd in keys <==> fd in held
  }

  /** The counts went up by one for each use in `held`. */
  ghost predicate Increased(before: map<int, int>, uses: map<int, int>, held: seq<int>) {
    forall fd: int :: Use(uses, fd) == Use(before, fd) + Occ(held, fd)
  }

  lemma NothingHeld(uses: map<int, int>)
    ensures Increased(uses, uses, []) && Keys([], [])
  {}

  lemma HeldMore(before: map<int, int>, uses: map<int, int>, uses': map<int, int>, held: seq<int>, fd: int)
    requires Increased(before, uses, held)
    requires forall f: int :: Use(uses', f) == Use(uses, f) + if f == fd then 1 else 0
    ensures Increased(before, uses', held + [fd])
  {
    assert (held + [fd])[..|held|] == held;
  }

  lemma ReleasedSettles(before: map<int, int>, full: map<int, int>, uses: map<int, int>,
                        fds: seq<PollFd>, timeout: int, passes: seq<Pass>)
    requires Fitting(fds, passes) && Poll(fds, timeout, passes).Returned?
    requires Increased(before, full, Taken(fds, timeout, passes))
    requires forall fd: int :: Use(uses, fd) == Use(full, fd) - if fd in Taken(fds, timeout, passes) then 1 else 0
    ensures Settled(before, uses, fds, timeout, passes)
  {
    hide Poll, Taken, Use;
  }

  class Process {
    /** The use count of the file behind each descriptor. */
    var uses: map<int, int>

    constructor ()
      ensures uses == map[]
    {
      uses := map[];
    }

    /** Take one use of the file of `fd`. */
    method Hold(fd: int, toUnRef: seq<int>, ghost held: seq<int>) returns (keys: seq<int>)
      requires Keys(toUnRef, held)
      modifies this
      ensures Keys(keys, held + [fd])
      ensures forall f: int :: Use(uses, f) == Use(old(uses), f) + if f == fd then 1 else 0
    {
      uses := uses[fd := Use(uses, fd) + 1];
      keys := if fd in toUnRef then toUnRef else toUnRef + [fd];
    }

    /** Ask one file. */
    static method PollOne(p: PollFd, pass: Pass, i: nat) returns (q: PollFd, hit: bool)
      requires i < |pass.masks| && p.fd in pass.open
      ensures q == p.(revents := Answer(p, pass, i)) && (hit <==> Answer(p, pass, i) != 0)
    {
      var mask := pass.masks[i] & Interest(p.events);
      q, hit := p.(revents := mask), mask != 0;
    }

    /** One pass; while `registering` it holds the files it polls and remembers their descriptors. */
    method PassOver(fds: array<PollFd>, pass: Pass, registering: bool) returns (count: nat, toUnRef: seq<int>)
      requires fds.Length == |pass.masks|
      modifies this, fds
      ensures fds[..] == Answered(old(fds[..]), pass) && count == Hits(old(fds[..]), pass, fds.Length)
      ensures var held := if registering then Held(old(fds[..]), pass, fds.Length) else [];
              Increased(old(uses), uses, held) && Keys(toUnRef, held)
    {
      hide Answer, Interest, Reportable, Keys, Increased;
      ghost var before, held := fds[..], [];
      var table := registering;
      count, toUnRef := 0, [];
      NothingHeld(uses);
      var i := 0;
      while i < fds.Length
        invariant i <= fds.Length && |before| == fds.Length && count == Hits(before, pass, i)
        invariant forall k :: 0 <= k < i ==> fds[k] == before[k].(revents := Answer(before[k], pass, k))
        invariant forall k :: i <= k < fds.Length ==> fds[k] == before[k]
        invariant table == (registering && count == 0)
        invariant held == if registering then Held(before, pass, i) else []
        invariant Increased(old(uses), uses, held) && Keys(toUnRef, held)
      {
        var p := fds[i];
        if p.fd in pass.open {
          if table {
            ghost var u := uses;
            toUnRef := Hold(p.fd, toUnRef, held);
            HeldMore(old(uses), u, uses, held, p.fd);
            held := held + [p.fd];
          }
          var q, hit := PollOne(p, pass, i);
          fds[i] := q;
          if hit {
            count := count + 1;
            table := false;
          }
        } else {
          NotAsked(p, pass, i);
        }
        i := i + 1;
      }
      assert fds[..] == Answered(before, pass);
    }

    method Release(toUnRef: seq<int>, ghost taken: seq<int>)
      requires Keys(toUnRef, taken)
      modifies this
      ensures forall fd: int :: Use(uses, fd) == Use(old(uses), fd) - if fd in taken then 1 else 0
    {
      var i := 0;
      while i < |toUnRef|
        invariant i <= |toUnRef|
        invariant forall fd: int :: Use(uses, fd) == Use(old(uses), fd) - if fd in toUnRef[..i] then 1 else 0
      {
        var fd := toUnRef[i];
        assert fd !in toUnRef[..i] && toUnRef[..i + 1] == toUnRef[..i] + [fd];
        uses := uses[fd := Use(uses, fd) - 1];
        i := i + 1;
      }
      assert toUnRef[..i] == toUnRef;
    }

    /** `passes` is what the passes meet; the call is still waiting if there are too few of them. */
    method DcePoll(fds: array<PollFd>, timeout: int, passes: seq<Pass>) returns (r: int, waiting: bool)
      requires Fitting(fds[..], passes)
      modifies this, fds
      ensures var z := Blank(old(fds[..]));
              && Fitting(z, passes)
              && (match Poll(z, timeout, passes)
                  case Waiting => waiting && Increased(old(uses), uses, Taken(z, timeout, passes))
                  case Returned(count, f) =>
                    && !waiting && r == count && fds[..] == f && Settled(old(uses), uses, z, timeout, passes))
    {
      var i := 0;
      while i < fds.Length
        invariant i <= fds.Length && uses == old(uses)
        invariant forall k :: 0 <= k < i ==> fds[k] == old(fds[k]).(revents := 0)
        invariant forall k :: i <= k < fds.Length ==> fds[k] == old(fds[k])
      {
        fds[i] := fds[i].(revents := 0);
        i := i + 1;
      }
      hide Answered, Hits, Held, Keys, Increased, Settled, Left;
      ghost var z := Blank(old(fds[..]));
      assert fds[..] == z;
      assert passes[0..] == passes;
      var k, toUnRef := 0, [];
      ghost var taken := Taken(z, timeout, passes);
      if passes == [] {
        NothingHeld(uses);
      }
      while k < |passes|
        invariant k <= |passes| && Fitting(fds[..], passes[k..])
        invariant Poll(z, timeout, passes) == Poll(fds[..], timeout, passes[k..])
        invariant k == 0 ==> fds[..] == z && uses == old(uses)
        invariant k > 0 || passes == [] ==> Increased(old(uses), uses, taken)
        invariant k > 0 ==> Keys(toUnRef, taken)
      {
        assert passes[k..][0] == passes[k] && passes[k..][1..] == passes[k + 1..];
        ghost var u := uses;
        var count, keys := PassOver(fds, passes[k], k == 0 && timeout != 0);
        if k == 0 {
          toUnRef := keys;
        } else {
          NothingHeld(uses);
        }
        if count > 0 || timeout == 0 || (timeout > 0 && passes[k].expired) {
          ghost var full := uses;
          Release(toUnRef, taken);
          ReleasedSettles(old(uses), full, uses, z, timeout, passes);
          return count, false;
        }
        k := k + 1;
      }
      return -1, true;
    }

    /** The entries for poll, one descriptor after the other. */
    method Gather(s: Sets, nfds: int, open: set<int>) returns (fds: seq<PollFd>, bad: bool)
      ensures bad <==> !AllOpen(s, nfds, open)
      ensures !bad ==> fds == Requests(s, Limit(nfds))
    {
      fds := [];
      var fd := 0;
      while fd < nfds
        invariant 0 <= fd <= Limit(nfds) && fds == Requests(s, fd)
        invariant forall f: nat :: f < fd && Events(s, f) != 0 ==> f in open
      {
        var event: bv16 := 0;
        if s.read.Some? && fd in s.read.value {
          event := event | POLLIN;
        }
        if s.write.Some? && fd in s.write.value {
          event := event | POLLOUT;
        }
        if s.except.Some? && fd in s.except.value {
          event := event | POLLPRI;
        }
        ZeroBits(if In(s.read, fd) then POLLIN else 0, if In(s.write, fd) then POLLOUT else 0);
        if event != 0 {
          if fd !in open {
            return fds, true;
          }
          fds := fds + [PollFd(fd, event, 0)];
        }
        fd := fd + 1;
      }
      return fds, false;
    }

    method DceSelect(s: Sets, nfds: int, timeout: Option<int>, open: set<int>, passes: seq<Pass>) returns (r: Selected)
      requires Fitting(Requests(s, Limit(nfds)), passes)
      modifies this
      ensures r == Select(s, nfds, timeout, open, passes)
      ensures !r.StillWaiting? ==> forall fd: int :: Use(uses, fd) == Use(old(uses), fd)
    {
      hide Poll, Requests, AllOpen, ChosenSet, Events, Taken, Left, Numbered;
      if nfds == -1 || (s.read == None && s.write == None && s.except == None) || (timeout.Some? && timeout.value < 0) {
        return Failed(EINVAL);
      }
      var requests, bad := Gather(s, nfds, open);
      if bad {
        return Failed(EBADF);
      }
      var fds := new PollFd[|requests|](i requires 0 <= i < |requests| => requests[i]);
      var pollTo := if timeout.Some? then timeout.value else -1;
      assert fds[..] == requests && Blank(requests) == requests;
      var count, waiting := DcePoll(fds, pollTo, passes);
      SelectBalances(s, nfds, pollTo, passes);
      if waiting {
        return StillWaiting;
      }
      assert forall fd: int :: Use(uses, fd) == Use(old(uses), fd) by {
        assert forall fd: int :: Left(Taken(requests, pollTo, passes), fd) == 0;
      }
      PollPolled(s, nfds, pollTo, passes);
      if count == 0 {
        return Chosen(0, Sets(Cleared(s.read), Cleared(s.write), Cleared(s.except)));
      }
      r := FillSets(s, fds);
    }

    static lemma ZeroBits(a: bv16, b: bv16)
      ensures 0 | a == a && (0 as bv16) | 0 == 0 && a | 0 == a && (a | b) | 0 == a | b
    {}

    /** Go through the entries once and put each descriptor into the sets it belongs to. */
    static method FillSets(s: Sets, fds: array<PollFd>) returns (r: Selected)
      requires Numbered(fds[..])
      ensures var x, y, z := ChosenSet(s, Read, fds[..]), ChosenSet(s, Write, fds[..]), ChosenSet(s, Except, fds[..]);
              r == Chosen(x.1 + y.1 + z.1, Sets(x.0, y.0, z.0))
    {
      hide Flagged;
      var read, write, except, pollRet := {}, {}, {}, 0;
      ghost var a, b, c := 0, 0, 0;
      var j := 0;
      while j < fds.Length
        invariant j <= fds.Length && pollRet == a + b + c
        invariant if s.read.Some? then (read, a) == Collect(Read, fds[..], j) else a == 0
        invariant if s.write.Some? then (write, b) == Collect(Write, fds[..], j) else b == 0
        invariant if s.except.Some? then (except, c) == Collect(Except, fds[..], j) else c == 0
      {
        if s.read.Some? && Flagged(Read, fds[j]) {
          read, pollRet, a := read + {fds[j].fd}, pollRet + 1, a + 1;
        }
        if s.write.Some? && Flagged(Write, fds[j]) {
          write, pollRet, b := write + {fds[j].fd}, pollRet + 1, b + 1;
        }
        if s.except.Some? && Flagged(Except, fds[j]) {
          except, pollRet, c := except + {fds[j].fd}, pollRet + 1, c + 1;
        }
        j := j + 1;
      }
      return Chosen(pollRet, Sets(if s.read.Some? then Some(read) else None,
                                  if s.write.Some? then Some(write) else None,
                                  if s.except.Some? then Some(except) else None));
    }
  }
}
