/**
 * Switching in and unloading keep the tables sound and everybody else's bytes.
 *
 * In the middle of an unload some references are still to be dropped and some buffers belong to
 * modules that are in no list any more; each half of a step is shown to keep what `CoojaInvariant`
 * says with these pending, and `UnloadSafe` puts the halves together along the recursion.
 */
module CoojaUnload {
  import opened Basics
  import opened RefGraph
  import opened CoojaLoader
  import opened CoojaInvariant

  // ----- Switching in -----

  lemma {:induction false} SwapEachSafe(w: World, l: nat, ids: seq<Id>)
    requires Memory(w, {}) && l < |w.loaders| && Present(ids, w.loaders[l].mods)
    ensures var w' := SwapEach(w, w.loaders[l].mods, ids);
            && SameTables(w, w') && Memory(w', {}) && SamePriv(w, w')
            && (forall i :: 0 <= i < |ids| ==> ids[i] in w.shared && w'.shared[ids[i]].body.current == Some(w.loaders[l].mods[ids[i]].body))
            && (forall x :: x in w.shared && x !in ids ==> w'.shared[x] == w.shared[x])
    decreases |ids|
  {
    hide Memory, SamePriv, SwapIn;
    if ids == [] {
      SamePrivRefl(w);
    } else {
      var mods := w.loaders[l].mods;
      assert HasMod(w, l, ids[0]);
      SwapInSafe(w, l, ids[0], {});
      var w1 := SwapIn(w, ids[0], mods[ids[0]].body);
      SwapEachSafe(w1, l, ids[1..]);
      forall i | 0 <= i < |ids| ensures ids[i] in w.shared {
        assert HasMod(w, l, ids[i]);
        ModuleShared(w, l, ids[i], {});
      }
      SwapEachCurrent(w, w1, SwapEach(w1, mods, ids[1..]), mods, ids);
      SamePrivTrans(w, w1, SwapEach(w1, mods, ids[1..]));
    }
  }

  lemma ModuleShared(w: World, k: nat, x: Id, dying: set<Buf>)
    requires Memory(w, dying) && HasMod(w, k, x)
    ensures x in w.shared && w.shared[x].deps == Mod(w, k, x).deps
  {}

  lemma SamePrivRefl(a: World)
    ensures SamePriv(a, a)
  {}

  lemma SamePrivTrans(a: World, b: World, c: World)
    requires SamePriv(a, b) && SamePriv(b, c)
    ensures SamePriv(a, c)
  {
    hide Priv;
  }

  lemma SwapEachCurrent(w: World, w1: World, w': World, mods: Graph<Buf>, ids: seq<Id>)
    requires ids != [] && forall i :: 0 <= i < |ids| ==> ids[i] in mods && ids[i] in w.shared
    requires SameTables(w, w1) && SameTables(w1, w')
    requires w1.shared[ids[0]].body.current == Some(mods[ids[0]].body)
    requires forall x :: x in w.shared && x != ids[0] ==> w1.shared[x] == w.shared[x]
    requires forall i :: 0 <= i < |ids[1..]| ==> ids[1..][i] in w.shared && w'.shared[ids[1..][i]].body.current == Some(mods[ids[1..][i]].body)
    requires forall x :: x in w.shared && x !in ids[1..] ==> w'.shared[x] == w1.shared[x]
    ensures forall i :: 0 <= i < |ids| ==> w'.shared[ids[i]].body.current == Some(mods[ids[i]].body)
    ensures forall x :: x in w.shared && x !in ids ==> w'.shared[x] == w.shared[x]
  {
    forall i | 0 <= i < |ids| ensures w'.shared[ids[i]].body.current == Some(mods[ids[i]].body) {
      if i > 0 {
        assert ids[1..][i - 1] == ids[i];
      } else if ids[0] in ids[1..] {
        var j :| 0 <= j < |ids[1..]| && ids[1..][j] == ids[0];
      }
    }
    forall x | x in w.shared && x !in ids ensures w'.shared[x] == w.shared[x] {
      assert x != ids[0] && x !in ids[1..];
    }
  }

  /**
   * Switching a process in changes nobody's bytes, its own included, and leaves every one of
   * its libraries' data sections holding them.
   */
  lemma StartExecuteSafe(w: World, l: nat)
    requires Inv(w) && l < |w.loaders|
    ensures Inv(StartExecute(w, l))
    ensures SamePriv(w, StartExecute(w, l)) && SwitchedIn(StartExecute(w, l), l)
    ensures StartExecute(w, l).loaders == w.loaders
  {
    hide Counted, SharedCounted, Memory, SamePriv, Sorted;
    var w' := StartExecute(w, l);
    var order := w.loaders[l].order;
    assert LoaderOk(w.loaders[l]);
    SwapEachSafe(w, l, order);
    SameTablesCounted(w, w');
    forall x {:trigger HasMod(w', l, x)} | HasMod(w', l, x)
      ensures x in w'.shared && w'.shared[x].body.current == Some(Mod(w', l, x).body)
    {
      var i :| 0 <= i < |order| && order[i] == x;
    }
  }

  /** A store by the process that is switched in changes one byte of its own view only. */
  lemma StoreSafe(w: World, l: nat, x: Id, off: nat, v: Byte)
    requires Inv(w) && SwitchedIn(w, l) && HasMod(w, l, x)
    requires x in w.shared && off < |w.shared[x].body.data|
    ensures var w' := Store(w, x, off, v);
            && Inv(w') && SwitchedIn(w', l) && w'.loaders == w.loaders
            && Priv(w, l, x).Some? && off < |Priv(w, l, x).value|
            && Priv(w', l, x) == Some(Priv(w, l, x).value[off := v])
            && (forall k: nat, y: Id :: k != l || y != x ==> Priv(w', k, y) == Priv(w, k, y))
  {
    hide LoaderOk, SharedCounted;
    StoreMemory(w, x, off, v);
    StorePriv(w, l, x, off, v);
    SameTablesCounted(w, Store(w, x, off, v));
  }

  lemma StoreMemory(w: World, x: Id, off: nat, v: Byte)
    requires Memory(w, {}) && x in w.shared && off < |w.shared[x].body.data|
    ensures Memory(Store(w, x, off, v), {}) && SameTables(w, Store(w, x, off, v))
  {
    SameModules(w, Store(w, x, off, v));
  }

  lemma StorePriv(w: World, l: nat, x: Id, off: nat, v: Byte)
    requires Owns(w) && SwitchedIn(w, l) && HasMod(w, l, x)
    requires x in w.shared && off < |w.shared[x].body.data|
    ensures var w' := Store(w, x, off, v);
            && SwitchedIn(w', l)
            && Priv(w, l, x).Some? && off < |Priv(w, l, x).value|
            && Priv(w', l, x) == Some(Priv(w, l, x).value[off := v])
            && (forall k: nat, y: Id :: k != l || y != x ==> Priv(w', k, y) == Priv(w, k, y))
  {
    var w' := Store(w, x, off, v);
    SameModules(w, w');
    forall k: nat, y: Id | k != l || y != x ensures Priv(w', k, y) == Priv(w, k, y) {
      if HasMod(w, k, x) && k != l {
        assert Mod(w, k, x).body != Mod(w, l, x).body;
      }
    }
  }

  /** Whoever still has a module still sees the same bytes in it, in the same place. */
  ghost predicate PrivKept(w: World, w': World) {
    forall k: nat, x: Id {:trigger HasMod(w', k, x)} :: HasMod(w', k, x) ==>
      && HasMod(w, k, x) && Priv(w', k, x) == Priv(w, k, x)
      && (LiveAt(w, k, x) ==> LiveAt(w', k, x))
  }

  lemma PrivKeptRefl(a: World)
    ensures PrivKept(a, a)
  {}

  lemma PrivKeptTrans(a: World, b: World, c: World)
    requires PrivKept(a, b) && PrivKept(b, c)
    ensures PrivKept(a, c)
  {
    hide Priv, LiveAt;
  }

  lemma PrivKeptSwitched(w: World, w': World, l: nat)
    requires PrivKept(w, w') && SwitchedIn(w, l)
    ensures SwitchedIn(w', l)
  {
    hide Priv, LiveAt;
  }

  // ----- The end of one module -----

  lemma MappedWithout(mem: map<Buf, Cell>, b: Buf, y: Id)
    requires b in mem
    ensures At(Mappings(mem), y) == At(Mappings(mem - {b}), y) + Occ([mem[b].id], y)
  {
    MappingsAt(mem, y);
    MappingsAt(mem - {b}, y);
    assert Occ([mem[b].id], y) == (if mem[b].id == y then 1 else 0) by {
      assert [mem[b].id][1..] == [];
    }
    if mem[b].id == y {
      assert Mapped(mem, y) == Mapped(mem - {b}, y) + {b};
    } else {
      assert Mapped(mem, y) == Mapped(mem - {b}, y);
    }
  }

  lemma SoundPending<T>(g: Graph<T>, r: Roots, r': Roots, pending: seq<Id>)
    requires Sound(g, r, [])
    requires forall x :: At(r, x) == At(r', x) + Occ(pending, x)
    ensures Sound(g, r', pending)
  {}

  ghost function ClearCurrent(w: World, x: Id, b: Buf): World
    requires x in w.shared
  {
    if w.shared[x].body.current == Some(b) then SetSection(w, x, w.shared[x].body.(current := None)) else w
  }

  lemma ClearCurrentCounted(w: World, x: Id, b: Buf)
    requires SharedCounted(w) && b in w.mem && w.mem[b].id == x && x in w.shared
    ensures var g := ClearCurrent(w, x, b).shared;
            Sound(g, Mappings(w.mem - {b}), [x]) && Zeros(g) == {}
  {
    var g := ClearCurrent(w, x, b).shared;
    SoundSame(w.shared, g, Mappings(w.mem), Mappings(w.mem));
    forall y ensures At(Mappings(w.mem), y) == At(Mappings(w.mem - {b}), y) + Occ([x], y)
    {
      MappedWithout(w.mem, b, y);
    }
    SoundPending(g, Mappings(w.mem), Mappings(w.mem - {b}), [x]);
  }

  /** What `Finish` does, record by record. */
  lemma FinishShared(w: World, x: Id, b: Buf)
    requires SharedCounted(w) && b in w.mem && w.mem[b].id == x && x in w.shared
    ensures var w' := Finish(w, x, b);
            && SharedCounted(w')
            && (w.ok ==> w'.ok)
            && w'.loaders == w.loaders && w'.clock == w.clock && w'.mem == w.mem - {b}
            && Survivors(ClearCurrent(w, x, b).shared, w'.shared)
            && (forall c :: c in w'.mem ==> w'.mem[c].id in w'.shared)
  {
    hide Sound, Unref, Mappings, Survivors;
    ClearCurrentCounted(w, x, b);
    var g := ClearCurrent(w, x, b).shared;
    UnrefSound(g, Mappings(w.mem - {b}), [x]);
    var w' := Finish(w, x, b);
    assert [x][1..] == [];
    MappedShared(w');
  }

  /** The library of an allocated buffer is open. */
  lemma MappedShared(w: World)
    requires Sound(w.shared, Mappings(w.mem), [])
    ensures forall c :: c in w.mem ==> w.mem[c].id in w.shared
  {
    forall c | c in w.mem ensures w.mem[c].id in w.shared {
      assert c in Mapped(w.mem, w.mem[c].id);
      MappingsAt(w.mem, w.mem[c].id);
    }
  }

  /** A module that is in no list any more can be finished without anyone noticing. */
  lemma FinishSafe(w: World, x: Id, b: Buf, dying: set<Buf>)
    requires Core(w, dying) && b in dying && b in w.mem && w.mem[b].id == x
    ensures var w' := Finish(w, x, b);
            && Core(w', dying - {b}) && PrivKept(w, w')
            && w'.loaders == w.loaders && w'.clock == w.clock && w'.mem == w.mem - {b}
  {
    assert x in w.shared;
    FinishShared(w, x, b);
    FinishMemory(w, Finish(w, x, b), x, b, dying);
  }

  lemma FinishMemory(w: World, w': World, x: Id, b: Buf, dying: set<Buf>)
    requires Memory(w, dying) && b in dying && b in w.mem && w.mem[b].id == x && x in w.shared
    requires w'.ok && w'.loaders == w.loaders && w'.clock == w.clock && w'.mem == w.mem - {b}
    requires Survivors(ClearCurrent(w, x, b).shared, w'.shared)
    requires forall c :: c in w'.mem ==> w'.mem[c].id in w'.shared
    ensures Memory(w', dying - {b}) && PrivKept(w, w')
  {
    SameModules(w, w');
    forall k, y {:trigger HasMod(w', k, y)} | HasMod(w', k, y)
      ensures Mod(w', k, y).body in w'.mem
    {
      assert Mod(w, k, y).body != b;
    }
    forall k: nat, y: Id {:trigger HasMod(w', k, y)} | HasMod(w', k, y)
      ensures Priv(w', k, y) == Priv(w, k, y) && (LiveAt(w, k, y) ==> LiveAt(w', k, y))
    {
      assert w'.mem[Mod(w', k, y).body].id == y;
    }
  }

  // ----- Dropping one reference to a module -----

  ghost predicate OthersSame(w: World, w': World, l: nat) {
    && |w'.loaders| == |w.loaders|
    && (forall k :: 0 <= k < |w.loaders| && k != l ==> w'.loaders[k] == w.loaders[k])
    && (l < |w.loaders| ==>
          w'.loaders[l].clients == w.loaders[l].clients && w'.loaders[l].claims == w.loaders[l].claims)
  }

  ghost predicate DyingKept(w: World, w': World, dying: set<Buf>) {
    forall b :: b in dying && b in w.mem ==> b in w'.mem && w'.mem[b] == w.mem[b]
  }

  lemma DecrementCounted(ld: Loader, pending: seq<Id>)
    requires pending != [] && Counted(ld, pending) && pending[0] in ld.mods && ld.mods[pending[0]].refcount > 1
    ensures Counted(ld.(mods := Decremented(ld.mods, pending[0])), pending[1..])
  {
    var ld' := ld.(mods := Decremented(ld.mods, pending[0]));
    assert AllEdges(ld'.mods) == AllEdges(ld.mods);
  }

  lemma ListedOnce(ld: Loader, i: nat, j: nat)
    requires Listed(ld) && i < |ld.order| && j < |ld.order| && i != j
    ensures ld.order[i] != ld.order[j]
  {
    hide Covers;
    if i < j {
      assert ld.mods[ld.order[i]].serial < ld.mods[ld.order[j]].serial;
    } else {
      assert ld.mods[ld.order[j]].serial < ld.mods[ld.order[i]].serial;
    }
  }

  lemma {:induction false} WithoutAt(s: seq<Id>, x: Id) returns (i: nat)
    requires x in s
    ensures i < |s| && s[i] == x && |Without(s, x)| == |s| - 1
    ensures forall j :: 0 <= j < |s| - 1 ==> Without(s, x)[j] == s[if j < i then j else j + 1]
  {
    if s[0] == x {
      i := 0;
    } else {
      var k := WithoutAt(s[1..], x);
      i := k + 1;
    }
  }

  lemma WithoutListed(ld: Loader, x: Id)
    requires Listed(ld) && x in ld.mods
    ensures Listed(Dropped(ld, x))
  {
    hide Sorted, Covers;
    var i := ListedAt(ld, x);
    var k := WithoutAt(ld.order, x);
    forall j | 0 <= j < |ld.order| - 1 ensures Without(ld.order, x)[j] in ld.mods - {x} {
      ListedOnce(ld, k, if j < k then j else j + 1);
    }
    WithoutSorted(ld, x, k);
    WithoutCovers(ld, x, k);
  }

  lemma ListedAt(ld: Loader, x: Id) returns (i: nat)
    requires Covers(ld.order, ld.mods) && x in ld.mods
    ensures i < |ld.order| && ld.order[i] == x && x in ld.order
  {
    i :| i < |ld.order| && ld.order[i] == x;
  }

  lemma WithoutSorted(ld: Loader, x: Id, i: nat)
    requires Listed(ld) && Present(Without(ld.order, x), ld.mods - {x})
    requires |Without(ld.order, x)| == |ld.order| - 1
    requires forall j :: 0 <= j < |ld.order| - 1 ==> Without(ld.order, x)[j] == ld.order[if j < i then j else j + 1]
    ensures Sorted(Without(ld.order, x), ld.mods - {x})
  {
    hide Covers, Without;
    var r, mods := Without(ld.order, x), ld.mods - {x};
    forall j, k | 0 <= j < k < |r| ensures mods[r[j]].serial < mods[r[k]].serial {
      SortedAt(ld, if j < i then j else j + 1, if k < i then k else k + 1);
    }
  }

  lemma WithoutCovers(ld: Loader, x: Id, i: nat)
    requires Covers(ld.order, ld.mods) && i < |ld.order| && ld.order[i] == x
    requires |Without(ld.order, x)| == |ld.order| - 1
    requires forall j :: 0 <= j < |ld.order| - 1 ==> Without(ld.order, x)[j] == ld.order[if j < i then j else j + 1]
    ensures Covers(Without(ld.order, x), ld.mods - {x})
  {
    hide Without;
    var s, r := ld.order, Without(ld.order, x);
    forall y {:trigger y in ld.mods - {x}} | y in ld.mods - {x} ensures exists k :: 0 <= k < |r| && r[k] == y {
      assert y in ld.mods;
      var k :| 0 <= k < |s| && s[k] == y;
      assert r[if k < i then k else k - 1] == y;
    }
  }

  lemma SortedAt(ld: Loader, i: nat, j: nat)
    requires Listed(ld) && i < j < |ld.order|
    ensures ld.order[i] in ld.mods && ld.order[j] in ld.mods
    ensures ld.mods[ld.order[i]].serial < ld.mods[ld.order[j]].serial
  {
    hide Covers;
  }

  lemma DropCounted(ld: Loader, pending: seq<Id>)
    requires pending != [] && Counted(ld, pending) && pending[0] in ld.mods && ld.mods[pending[0]].refcount == 1
    ensures Counted(Dropped(ld, pending[0]), ld.mods[pending[0]].deps + pending[1..])
  {
    var id := pending[0];
    var ds, rest, ld' := ld.mods[id].deps, pending[1..], Dropped(ld, id);
    var e: Edges := AllEdges(ld.mods);
    var e': Edges := AllEdges(ld'.mods);
    assert e' == e - {id} && e[id] == ds;
    assert Occ(pending, id) == 1 + Occ(rest, id);
    forall x {:trigger Count(e', x)}
      ensures Count(e, x) == Count(e', x) + Occ(ds, x)
      ensures Occ(ds + rest, x) == Occ(ds, x) + Occ(rest, x)
    {
      CountRemove(e, id, x);
      OccAppend(ds, rest, x);
    }
    forall x, d {:trigger d in e'[x]} | x in e' && d in e'[x]
      ensures x in ld'.mods && d in ld'.mods && ld'.mods[d].serial < ld'.mods[x].serial
    {
      assert d in e[x];
      CountHeld(e, x, d);
    }
    forall x {:trigger x in ld'.mods} | At(ld'.claims, x) + Occ(ds + rest, x) > 0 ensures x in ld'.mods {
      OccAppend(ds, rest, x);
      OccIn(ds, x);
      if x in ds {
        assert x in e[id];
        CountHeld(e, id, x);
      } else {
        assert x in ld.mods;
      }
    }
  }

  lemma PendingPresent(ld: Loader, pending: seq<Id>)
    requires pending != [] && Counted(ld, pending)
    ensures pending[0] in ld.mods && ld.mods[pending[0]].refcount > 0
  {
    assert Occ(pending, pending[0]) > 0;
  }

  /** Replacing one loader's tables by a part of them, with the buffers left over now dying. */
  lemma RelistMemory(w: World, l: nat, ld': Loader, dying: set<Buf>, dying': set<Buf>)
    requires Memory(w, dying) && l < |w.loaders|
    requires forall x :: x in ld'.mods ==> x in w.loaders[l].mods && ld'.mods[x] == w.loaders[l].mods[x].(refcount := ld'.mods[x].refcount)
    requires forall b :: b in dying' ==> b in dying || (b in w.mem && w.mem[b].loader == l && w.mem[b].id !in ld'.mods)
    requires forall b :: b in dying ==> b in dying'
    requires forall b {:trigger w.mem[b]} :: b in w.mem && w.mem[b].loader == l && w.mem[b].id !in ld'.mods ==> b in dying'
    ensures var w' := w.(loaders := w.loaders[l := ld']);
            Memory(w', dying') && PrivKept(w, w')
  {
    var w' := w.(loaders := w.loaders[l := ld']);
    forall k, x {:trigger HasMod(w', k, x)} | HasMod(w', k, x)
      ensures HasMod(w, k, x) && Mod(w', k, x) == Mod(w, k, x).(refcount := Mod(w', k, x).refcount)
    {}
    forall k: int, x: Id {:trigger HasMod(w', k, x)} | HasMod(w, k, x) && (k != l || x in ld'.mods)
      ensures HasMod(w', k, x)
    {}
  }

  /** The bookkeeping half of an unload step, between the tables of `w` and `w'`. */
  ghost predicate Unloaded(w: World, w': World, l: nat, rest: seq<Id>, dying: set<Buf>) {
    && Core(w', dying) && OthersSame(w, w', l)
    && l < |w'.loaders| && Counted(w'.loaders[l], rest) && Listed(w'.loaders[l])
    && PrivKept(w, w') && DyingKept(w, w', dying)
  }

  lemma UnloadedTrans(a: World, b: World, c: World, l: nat, r1: seq<Id>, r2: seq<Id>, dying: set<Buf>)
    requires l < |a.loaders| && OthersSame(a, b, l) && PrivKept(a, b) && DyingKept(a, b, dying)
    requires Unloaded(b, c, l, r2, dying)
    ensures Unloaded(a, c, l, r2, dying)
  {
    hide Core, Counted, Listed, Priv, LiveAt;
  }

  lemma UnloadedRefl(w: World, l: nat, rest: seq<Id>, dying: set<Buf>)
    requires l < |w.loaders| && Core(w, dying) && Counted(w.loaders[l], rest) && Listed(w.loaders[l])
    ensures Unloaded(w, w, l, rest, dying)
  {
    hide Core, Counted, Listed, Priv, LiveAt;
  }

  lemma CoreRelist(w: World, l: nat, ld': Loader, dying: set<Buf>)
    requires SharedCounted(w) && l < |w.loaders|
    ensures SharedCounted(w.(loaders := w.loaders[l := ld']))
  {}

  lemma UnloadKeeps(w: World, l: nat, pending: seq<Id>, dying: set<Buf>)
    requires Core(w, dying) && l < |w.loaders| && pending != []
    requires Counted(w.loaders[l], pending) && Listed(w.loaders[l])
    requires pending[0] in w.loaders[l].mods && w.loaders[l].mods[pending[0]].refcount > 1
    ensures var ld := w.loaders[l];
            Unloaded(w, w.(loaders := w.loaders[l := ld.(mods := Decremented(ld.mods, pending[0]))]), l, pending[1..], dying)
  {
    hide SharedCounted, Memory, Counted;
    var ld := w.loaders[l];
    DecrementCounted(ld, pending);
    UnloadKeepsMemory(w, l, pending[0], dying);
    CoreRelist(w, l, ld.(mods := Decremented(ld.mods, pending[0])), dying);
  }

  lemma UnloadKeepsMemory(w: World, l: nat, id: Id, dying: set<Buf>)
    requires Memory(w, dying) && l < |w.loaders| && id in w.loaders[l].mods && w.loaders[l].mods[id].refcount > 0
    ensures var w' := w.(loaders := w.loaders[l := w.loaders[l].(mods := Decremented(w.loaders[l].mods, id))]);
            Memory(w', dying) && PrivKept(w, w') && OthersSame(w, w', l)
  {
    RelistMemory(w, l, w.loaders[l].(mods := Decremented(w.loaders[l].mods, id)), dying, dying);
  }

  /** The module leaves the list; its buffer is now dying and its dependencies are pending. */
  lemma UnloadDrops(w: World, l: nat, pending: seq<Id>, dying: set<Buf>)
    requires Core(w, dying) && l < |w.loaders| && pending != []
    requires Counted(w.loaders[l], pending) && Listed(w.loaders[l])
    requires pending[0] in w.loaders[l].mods && w.loaders[l].mods[pending[0]].refcount == 1
    ensures var n := w.loaders[l].mods[pending[0]];
            var w1 := w.(loaders := w.loaders[l := Dropped(w.loaders[l], pending[0])]);
            && n.body !in dying && n.body in w.mem && w.mem[n.body].id == pending[0]
            && w1.mem == w.mem
            && Unloaded(w, w1, l, n.deps + pending[1..], dying + {n.body})
  {
    hide SharedCounted, Memory, Counted, Listed, Priv, LiveAt;
    var ld := w.loaders[l];
    OwnBuffer(w, l, pending[0], dying);
    DropCounted(ld, pending);
    WithoutListed(ld, pending[0]);
    UnloadDropsMemory(w, l, pending[0], dying);
    CoreRelist(w, l, Dropped(ld, pending[0]), dying);
  }

  lemma OwnBuffer(w: World, k: nat, x: Id, dying: set<Buf>)
    requires Memory(w, dying) && HasMod(w, k, x)
    ensures var b := Mod(w, k, x).body;
            b !in dying && b in w.mem && w.mem[b].loader == k && w.mem[b].id == x
  {}

  lemma UnloadDropsMemory(w: World, l: nat, id: Id, dying: set<Buf>)
    requires Memory(w, dying) && l < |w.loaders| && id in w.loaders[l].mods
    ensures var w1 := w.(loaders := w.loaders[l := Dropped(w.loaders[l], id)]);
            Memory(w1, dying + {w.loaders[l].mods[id].body}) && PrivKept(w, w1) && OthersSame(w, w1, l)
  {
    var ld := w.loaders[l];
    assert HasMod(w, l, id);
    RelistMemory(w, l, Dropped(ld, id), dying, dying + {ld.mods[id].body});
  }

  lemma {:induction false} UnloadSafe(w: World, l: nat, pending: seq<Id>, dying: set<Buf>)
    requires Core(w, dying) && l < |w.loaders| && pending != []
    requires Counted(w.loaders[l], pending) && Listed(w.loaders[l])
    ensures Unloaded(w, Unload(w, l, pending[0]), l, pending[1..], dying)
    decreases w.loaders[l].mods.Keys, 0, 0
  {
    hide Core, Counted, Listed, PrivKept, DyingKept, OthersSame;
    var id, rest, ld := pending[0], pending[1..], w.loaders[l];
    PendingPresent(ld, pending);
    if ld.mods[id].refcount > 1 {
      UnloadKeeps(w, l, pending, dying);
      assert Unload(w, l, id) == w.(loaders := w.loaders[l := ld.(mods := Decremented(ld.mods, id))]);
    } else {
      var b, ds := ld.mods[id].body, ld.mods[id].deps;
      var w1 := w.(loaders := w.loaders[l := Dropped(ld, id)]);
      UnloadDrops(w, l, pending, dying);
      assert id in ld.mods.Keys && id !in w1.loaders[l].mods.Keys;
      UnloadEachSafe(w1, l, ds, rest, dying + {b});
      var w2 := UnloadEach(w1, l, ds);
      UnloadEnds(w, w1, w2, l, id, b, rest, dying);
      assert Unload(w, l, id) == Finish(w2, id, b);
    }
  }

  lemma UnloadEnds(w: World, w1: World, w2: World, l: nat, id: Id, b: Buf, rest: seq<Id>, dying: set<Buf>)
    requires l < |w.loaders| && OthersSame(w, w1, l) && PrivKept(w, w1) && DyingKept(w, w1, dying + {b})
    requires Unloaded(w1, w2, l, rest, dying + {b})
    requires b !in dying && b in w1.mem && w1.mem[b].id == id
    ensures Unloaded(w, Finish(w2, id, b), l, rest, dying)
  {
    hide SharedCounted, Memory, Counted, Listed, Priv, LiveAt;
    assert b in dying + {b} && b in w2.mem && w2.mem[b] == w1.mem[b];
    FinishSafe(w2, id, b, dying + {b});
    assert dying + {b} - {b} == dying;
    var w3 := Finish(w2, id, b);
    assert DyingKept(w, w3, dying) by {
      forall c | c in dying && c in w.mem ensures c in w3.mem && w3.mem[c] == w.mem[c] {
        assert c in dying + {b} && c in w1.mem;
      }
    }
  }

  lemma {:induction false} UnloadEachSafe(w: World, l: nat, ds: seq<Id>, rest: seq<Id>, dying: set<Buf>)
    requires Core(w, dying) && l < |w.loaders|
    requires Counted(w.loaders[l], ds + rest) && Listed(w.loaders[l])
    ensures Unloaded(w, UnloadEach(w, l, ds), l, rest, dying)
    decreases w.loaders[l].mods.Keys, 1, |ds|
  {
    hide Core, Counted, Listed, PrivKept, DyingKept;
    if ds == [] {
      assert ds + rest == rest;
      UnloadedRefl(w, l, rest, dying);
    } else {
      var w1 := Unload(w, l, ds[0]);
      assert (ds + rest)[1..] == ds[1..] + rest;
      UnloadSafe(w, l, ds + rest, dying);
      UnloadEachSafe(w1, l, ds[1..], rest, dying);
      UnloadedTrans(w, w1, UnloadEach(w1, l, ds[1..]), l, ds[1..] + rest, rest, dying);
    }
  }
}
