/** Optional values, and lists in which nothing occurs twice. */
module Basics {
  datatype Option<+T> = None | Some(value: T)

  ghost predicate NoDup<T>(s: seq<T>) {
    forall i, j :: 0 <= i < j < |s| ==> s[i] != s[j]
  }

  lemma NoDupAppend<T>(s: seq<T>, x: T)
    ensures NoDup(s + [x]) <==> NoDup(s) && x !in s
  {
    var t := s + [x];
    if x in s {
      var i :| 0 <= i < |s| && s[i] == x;
      assert t[i] == t[|s|];
    } else if NoDup(t) {
      forall i, j | 0 <= i < j < |s| ensures s[i] != s[j] {
        assert t[i] != t[j];
      }
    }
  }

  /** `std::list::remove`: every occurrence goes. */
  ghost function Removed<T>(s: seq<T>, x: T): seq<T> {
    if s == [] then [] else if s[0] == x then Removed(s[1..], x) else [s[0]] + Removed(s[1..], x)
  }

  lemma {:induction false} RemovedMembers<T>(s: seq<T>, x: T)
    ensures forall y :: y in Removed(s, x) <==> y in s && y != x
  {
    if s != [] {
      RemovedMembers(s[1..], x);
      assert s == [s[0]] + s[1..];
    }
  }

  lemma {:induction false} RemovedNoDup<T>(s: seq<T>, x: T)
    requires NoDup(s)
    ensures NoDup(Removed(s, x))
  {
    if s != [] {
      RemovedNoDup(s[1..], x);
      RemovedMembers(s[1..], x);
      assert s[0] !in s[1..];
    }
  }

  lemma {:induction false} RemovedAbsent<T>(s: seq<T>, x: T)
    requires x !in s
    ensures Removed(s, x) == s
  {
    if s != [] {
      RemovedAbsent(s[1..], x);
    }
  }

  /** `w` is the list `v` with one `x` taken out. */
  ghost predicate TakenOut<T>(v: seq<T>, x: T, w: seq<T>) {
    exists k: nat :: TakenAt(v, x, k, w)
  }

  ghost predicate TakenAt<T>(v: seq<T>, x: T, k: nat, w: seq<T>) {
    k < |v| && v[k] == x && w == v[..k] + v[k + 1..]
  }

  lemma {:induction false} RemovedTakes<T>(v: seq<T>, x: T)
    requires x in v && NoDup(v)
    ensures TakenOut(v, x, Removed(v, x)) && |Removed(v, x)| == |v| - 1
  {
    hide TakenAt;
    if v[0] == x {
      RemovedAbsent(v[1..], x);
      TakenFirst(v);
    } else {
      RemovedTakes(v[1..], x);
      var k: nat :| TakenAt(v[1..], x, k, Removed(v[1..], x));
      TakenLater(v, x, k, Removed(v[1..], x));
    }
  }

  lemma TakenFirst<T>(v: seq<T>)
    requires v != []
    ensures TakenAt(v, v[0], 0, v[1..])
  {}

  lemma TakenLater<T>(v: seq<T>, x: T, k: nat, w: seq<T>)
    requires v != [] && TakenAt(v[1..], x, k, w)
    ensures TakenAt(v, x, k + 1, [v[0]] + w)
  {}
}
