/** Reference-counted nodes over a dependency graph. */
module RefGraph {
  // The loader keeps two families of reference-counted records that point at one another:
  // the shared libraries, common to all processes, and the modules of one process.  Both are
  // tables of `Node`s indexed by library id; the counting facts are proved here once.

  type Id = nat

  /** `serial` is the moment the record was appended to its list. */
  datatype Node<T> = Node(deps: seq<Id>, refcount: nat, serial: nat, body: T)

  type Graph<T> = map<Id, Node<T>>

  // ----- Counting edges -----

  type Edges = map<Id, seq<Id>>

  /** How often `y` occurs in a dependency list. */
  ghost function Occ(ds: seq<Id>, y: Id): nat {
    if ds == [] then 0 else (if ds[0] == y then 1 else 0) + Occ(ds[1..], y)
  }

  lemma {:induction false} OccIn(ds: seq<Id>, y: Id)
    ensures y in ds <==> Occ(ds, y) > 0
  {
    if ds != [] {
      OccIn(ds[1..], y);
      assert ds == [ds[0]] + ds[1..];
    }
  }

  /** How often `y` occurs in all the dependency lists of `e`. */
  ghost function Count(e: Edges, y: Id): nat
    decreases |e|
  {
    if e == map[] then 0 else
      var x :| x in e;
      Count(e - {x}, y) + Occ(e[x], y)
  }

  lemma {:induction false} CountRemove(e: Edges, x: Id, y: Id)
    requires x in e
    ensures Count(e, y) == Count(e - {x}, y) + Occ(e[x], y)
    decreases |e|
  {
    var z :| z in e && Count(e, y) == Count(e - {z}, y) + Occ(e[z], y);
    if z != x {
      CountRemove(e - {z}, x, y);
      CountRemove(e - {x}, z, y);
      assert e - {z} - {x} == e - {x} - {z};
    }
  }

  lemma CountAdd(e: Edges, x: Id, ds: seq<Id>, y: Id)
    requires x !in e
    ensures Count(e[x := ds], y) == Count(e, y) + Occ(ds, y)
  {
    CountRemove(e[x := ds], x, y);
    assert e[x := ds] - {x} == e;
  }

  lemma {:induction false} CountHolder(e: Edges, y: Id) returns (x: Id)
    requires Count(e, y) > 0
    ensures x in e && y in e[x]
    decreases |e|
  {
    x :| x in e;
    CountRemove(e, x, y);
    OccIn(e[x], y);
    if y !in e[x] {
      x := CountHolder(e - {x}, y);
    }
  }

  lemma CountHeld(e: Edges, x: Id, y: Id)
    requires x in e && y in e[x]
    ensures Count(e, y) > 0
  {
    CountRemove(e, x, y);
    OccIn(e[x], y);
  }

  /** The dependency lists of all nodes, and of the nodes that are not being deleted. */
  ghost function AllEdges<T>(g: Graph<T>): Edges {
    map x | x in g :: g[x].deps
  }

  ghost function LiveEdges<T>(g: Graph<T>): Edges {
    map x | x in g && g[x].refcount > 0 :: g[x].deps
  }

  // ----- The counting invariant -----

  /** Outside references: how many each id has; ids not mentioned have none. */
  type Roots = map<Id, nat>

  function At(m: Roots, x: Id): nat {
    if x in m then m[x] else 0
  }

  /**
   * Each count is exactly the outside references, plus those still to be dropped, plus the
   * references from other nodes.
   */
  ghost predicate Exact<T>(g: Graph<T>, roots: Roots, pending: seq<Id>, e: Edges) {
    forall x :: x in g ==> g[x].refcount == At(roots, x) + Occ(pending, x) + Count(e, x)
  }

  /** References lead to older nodes of the table. */
  ghost predicate Downward<T>(g: Graph<T>, e: Edges) {
    forall x, d {:trigger d in e[x]} :: x in e && d in e[x] ==> x in g && d in g && g[d].serial < g[x].serial
  }

  ghost predicate Closed<T>(g: Graph<T>, roots: Roots, pending: seq<Id>) {
    forall x {:trigger x in g} :: At(roots, x) + Occ(pending, x) > 0 ==> x in g
  }

  ghost predicate Sound<T>(g: Graph<T>, roots: Roots, pending: seq<Id>) {
    Exact(g, roots, pending, LiveEdges(g)) && Downward(g, LiveEdges(g)) && Closed(g, roots, pending)
  }

  ghost function Zeros<T>(g: Graph<T>): set<Id> {
    set x | x in g && g[x].refcount == 0
  }

  // ----- Dropping one reference, and whatever that frees -----

  ghost function Live<T>(g: Graph<T>): set<Id> {
    set x | x in g && g[x].refcount > 0
  }

  ghost function Decremented<T>(g: Graph<T>, id: Id): Graph<T>
    requires id in g && g[id].refcount > 0
  {
    g[id := g[id].(refcount := g[id].refcount - 1)]
  }

  /**
   * Drop one reference to `id`.  At zero the references the node held are dropped one by one
   * and only then is the node itself erased.  The flag is false when a count would pass below zero.
   */
  ghost function Unref<T>(g: Graph<T>, id: Id): (r: (Graph<T>, bool))
    ensures Live(r.0) <= Live(g)
    decreases Live(g), 0, 0
  {
    if id !in g then (g, true)
    else if g[id].refcount == 0 then (g, false)
    else
      var g1 := Decremented(g, id);
      if g1[id].refcount != 0 then (g1, true)
      else
        assert id in Live(g) && id !in Live(g1);
        var r := UnrefEach(g1, g1[id].deps);
        (r.0 - {id}, r.1)
  }

  ghost function UnrefEach<T>(g: Graph<T>, ds: seq<Id>): (r: (Graph<T>, bool))
    ensures Live(r.0) <= Live(g)
    decreases Live(g), 1, |ds|
  {
    if ds == [] then (g, true)
    else
      var r := Unref(g, ds[0]);
      var r' := UnrefEach(r.0, ds[1..]);
      (r'.0, r.1 && r'.1)
  }

  /** A node that survives keeps everything but its count. */
  ghost predicate Survivors<T>(g: Graph<T>, g': Graph<T>) {
    forall x :: x in g' ==> x in g && g'[x] == g[x].(refcount := g'[x].refcount)
  }

  lemma Referenced<T>(g: Graph<T>, roots: Roots, pending: seq<Id>)
    requires pending != [] && Sound(g, roots, pending)
    ensures pending[0] in g && g[pending[0]].refcount > 0
  {
    assert Occ(pending, pending[0]) > 0;
  }

  lemma DecrementSound<T>(g: Graph<T>, roots: Roots, pending: seq<Id>)
    requires pending != [] && Sound(g, roots, pending) && pending[0] in g && g[pending[0]].refcount > 1
    ensures Sound(Decremented(g, pending[0]), roots, pending[1..])
  {
    hide Downward, Count;
    var g' := Decremented(g, pending[0]);
    assert LiveEdges(g') == LiveEdges(g);
    DownwardSame(g, g', LiveEdges(g));
  }

  lemma DownwardSame<T>(g: Graph<T>, g': Graph<T>, e: Edges)
    requires Downward(g, e) && g'.Keys == g.Keys && forall x :: x in g ==> g'[x].serial == g[x].serial
    ensures Downward(g', e)
  {}

  lemma {:induction false} OccAppend(a: seq<Id>, b: seq<Id>, y: Id)
    ensures Occ(a + b, y) == Occ(a, y) + Occ(b, y)
  {
    if a == [] {
      assert a + b == b;
    } else {
      assert (a + b)[1..] == a[1..] + b;
      OccAppend(a[1..], b, y);
    }
  }

  /** A node whose count reaches zero stops holding references; they become pending drops. */
  lemma MarkSound<T>(g: Graph<T>, roots: Roots, pending: seq<Id>)
    requires pending != [] && Sound(g, roots, pending) && pending[0] in g && g[pending[0]].refcount == 1
    ensures Sound(Decremented(g, pending[0]), roots, g[pending[0]].deps + pending[1..])
  {
    var id := pending[0];
    var g1, ds := Decremented(g, id), g[id].deps;
    var e: Edges := LiveEdges(g);
    var e1: Edges := LiveEdges(g1);
    assert e1 == e - {id} && e[id] == ds;
    forall x | x in g1 ensures g1[x].refcount == At(roots, x) + Occ(ds + pending[1..], x) + Count(e1, x) {
      CountRemove(e, id, x);
      OccAppend(ds, pending[1..], x);
    }
    forall x, d {:trigger d in e1[x]} | x in e1 && d in e1[x] ensures x in g1 && d in g1 && g1[d].serial < g1[x].serial {
      assert d in e[x];
    }
    forall x {:trigger x in g1} | At(roots, x) + Occ(ds + pending[1..], x) > 0 ensures x in g1 {
      OccAppend(ds, pending[1..], x);
      OccIn(ds, x);
      if x in ds {
        assert x in e[id];
      } else {
        assert x in g;
      }
    }
  }

  /** Once its references are dropped, a node with a zero count can be erased. */
  lemma EraseSound<T>(g: Graph<T>, id: Id, roots: Roots, pending: seq<Id>)
    requires Sound(g, roots, pending) && id in Zeros(g)
    ensures Sound(g - {id}, roots, pending)
    ensures Zeros(g - {id}) == Zeros(g) - {id}
  {
    var e: Edges := LiveEdges(g);
    assert LiveEdges(g - {id}) == e;
    forall x, d {:trigger d in e[x]} | x in e && d in e[x] ensures d != id {
      CountHeld(e, x, d);
    }
  }

  lemma {:induction false} UnrefSound<T>(g: Graph<T>, roots: Roots, pending: seq<Id>)
    requires pending != [] && Sound(g, roots, pending)
    ensures Unref(g, pending[0]).1
    ensures Sound(Unref(g, pending[0]).0, roots, pending[1..])
    ensures Zeros(Unref(g, pending[0]).0) == Zeros(g)
    ensures Survivors(g, Unref(g, pending[0]).0)
    decreases Live(g), 0, 0
  {
    var id, rest := pending[0], pending[1..];
    Referenced(g, roots, pending);
    var g1 := Decremented(g, id);
    if g1[id].refcount != 0 {
      DecrementSound(g, roots, pending);
      assert Unref(g, id) == (g1, true);
    } else {
      MarkSound(g, roots, pending);
      var ds := g1[id].deps;
      assert id in Live(g) && id !in Live(g1);
      UnrefEachSound(g1, ds, roots, rest);
      var r := UnrefEach(g1, ds);
      assert Unref(g, id) == (r.0 - {id}, r.1);
      EraseLast(g, r.0, id, roots, rest);
    }
  }

  /** The end of a drop that reached zero: the node goes, after everything it alone kept. */
  lemma EraseLast<T>(g: Graph<T>, r: Graph<T>, id: Id, roots: Roots, pending: seq<Id>)
    requires id in g && g[id].refcount == 1
    requires Sound(r, roots, pending)
    requires Zeros(r) == Zeros(Decremented(g, id)) && Survivors(Decremented(g, id), r)
    ensures Sound(r - {id}, roots, pending)
    ensures Zeros(r - {id}) == Zeros(g)
    ensures Survivors(g, r - {id})
  {
    assert Zeros(Decremented(g, id)) == Zeros(g) + {id};
    EraseSound(r, id, roots, pending);
  }

  lemma {:induction false} UnrefEachSound<T>(g: Graph<T>, ds: seq<Id>, roots: Roots, rest: seq<Id>)
    requires Sound(g, roots, ds + rest)
    ensures UnrefEach(g, ds).1
    ensures Sound(UnrefEach(g, ds).0, roots, rest)
    ensures Zeros(UnrefEach(g, ds).0) == Zeros(g)
    ensures Survivors(g, UnrefEach(g, ds).0)
    decreases Live(g), 1, |ds|
  {
    if ds == [] {
      assert ds + rest == rest;
    } else {
      assert (ds + rest)[1..] == ds[1..] + rest;
      UnrefSound(g, roots, ds + rest);
      UnrefEachSound(Unref(g, ds[0]).0, ds[1..], roots, rest);
    }
  }

  // ----- What is kept is exactly what is reachable -----

  /** `p` follows references from a root to its last node. */
  ghost predicate Path<T>(g: Graph<T>, roots: Roots, p: seq<Id>) {
    && p != []
    && At(roots, p[0]) > 0
    && (forall k :: 0 <= k < |p| ==> p[k] in g)
    && (forall k :: 0 < k < |p| ==> p[k] in g[p[k - 1]].deps)
  }

  ghost predicate Reachable<T>(g: Graph<T>, roots: Roots, x: Id) {
    exists p :: Path(g, roots, p) && p[|p| - 1] == x
  }

  lemma PathExtend<T>(g: Graph<T>, roots: Roots, p: seq<Id>, x: Id)
    requires Path(g, roots, p) && x in g && x in g[p[|p| - 1]].deps
    ensures Reachable(g, roots, x)
  {
    var q := p + [x];
    assert Path(g, roots, q) && q[|q| - 1] == x;
  }

  ghost function Newest<T>(g: Graph<T>): (n: nat)
    ensures forall x :: x in g ==> g[x].serial <= n
  {
    if g == map[] then 0 else
      var x :| x in g;
      var n := Newest(g - {x});
      assert forall y :: y in g ==> y == x || y in g - {x};
      if n < g[x].serial then g[x].serial else n
  }

  lemma {:induction false} KeptIsReachable<T>(g: Graph<T>, roots: Roots, x: Id)
    requires Sound(g, roots, []) && Zeros(g) == {} && x in g
    ensures Reachable(g, roots, x)
    decreases Newest(g) - g[x].serial
  {
    assert x !in Zeros(g);
    if At(roots, x) > 0 {
      assert Path(g, roots, [x]) && [x][|[x]| - 1] == x;
    } else {
      var y := CountHolder(LiveEdges(g), x);
      KeptIsReachable(g, roots, y);
      var p :| Path(g, roots, p) && p[|p| - 1] == y;
      PathExtend(g, roots, p, x);
    }
  }

  lemma {:induction false} PathInside<T>(g: Graph<T>, r: Graph<T>, roots: Roots, p: seq<Id>, k: nat)
    requires Sound(r, roots, []) && Zeros(r) == {} && Survivors(g, r)
    requires Path(g, roots, p) && k < |p|
    ensures p[k] in r
  {
    if k > 0 {
      PathInside(g, r, roots, p, k - 1);
      assert p[k - 1] !in Zeros(r);
      assert p[k] in LiveEdges(r)[p[k - 1]];
    }
  }

  /**
   * Dropping one outside reference frees exactly the nodes that can no longer be reached
   * from the remaining ones, along the references as they stood before the call.
   */
  lemma UnrefFreesExactly<T>(g: Graph<T>, id: Id, roots: Roots, x: Id)
    requires Sound(g, roots, [id]) && Zeros(g) == {}
    ensures x in Unref(g, id).0 <==> Reachable(g, roots, x)
  {
    UnrefSound(g, roots, [id]);
    var r := Unref(g, id).0;
    if x in r {
      KeptIsReachable(r, roots, x);
      var p :| Path(r, roots, p) && p[|p| - 1] == x;
      assert Path(g, roots, p);
    }
    if Reachable(g, roots, x) {
      var p :| Path(g, roots, p) && p[|p| - 1] == x;
      PathInside(g, r, roots, p, |p| - 1);
    }
  }
}
