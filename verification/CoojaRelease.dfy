/** Giving back one library, or all. */
module CoojaRelease {
  import opened RefGraph
  import opened CoojaLoader
  import opened CoojaInvariant
  import opened CoojaUnload

  lemma OthersOk(w: World, w': World, l: nat)
    requires LoadersOk(w) && |w'.loaders| == |w.loaders| && l < |w.loaders| && LoaderOk(w'.loaders[l])
    requires forall k :: 0 <= k < |w.loaders| && k != l ==> w'.loaders[k] == w.loaders[k]
    ensures LoadersOk(w')
  {
    hide LoaderOk;
  }

  // ----- Giving back one load -----

  lemma LessAt(m: Roots, x: Id, y: Id)
    ensures At(Less(m, x), y) == if y == x && At(m, x) > 0 then At(m, x) - 1 else At(m, y)
  {}

  /** The claim the process gives up turns into a pending drop. */
  lemma ClaimReturned(ld: Loader, x: Id)
    requires LoaderOk(ld) && At(ld.claims, x) > 0
    ensures var ld' := ld.(clients := Less(ld.clients, x), claims := Less(ld.claims, x));
            && Counted(ld', [x]) && Listed(ld')
            && forall y :: At(ld'.clients, y) <= At(ld'.claims, y)
  {
    hide Present, Sorted, Covers, Downward;
    var ld' := ld.(clients := Less(ld.clients, x), claims := Less(ld.claims, x));
    forall y ensures At(ld'.claims, y) + Occ([x], y) == At(ld.claims, y) && At(ld'.clients, y) <= At(ld'.claims, y) {
      assert At(ld.clients, y) <= At(ld.claims, y);
      LessAt(ld.claims, x, y);
      LessAt(ld.clients, x, y);
      assert [x][1..] == [];
    }
  }

  /** Only histories change, so nothing outside the counting does. */
  lemma RelabelMemory(w: World, l: nat, ld': Loader, dying: set<Buf>)
    requires Memory(w, dying) && l < |w.loaders| && ld'.mods == w.loaders[l].mods
    ensures var w' := w.(loaders := w.loaders[l := ld']); Memory(w', dying) && PrivKept(w, w')
  {
    RelistMemory(w, l, ld', dying, dying) by {
      forall b {:trigger w.mem[b]} | b in w.mem && w.mem[b].loader == l && w.mem[b].id !in ld'.mods ensures b in dying {}
    }
  }

  lemma NeededStays(ld: Loader)
    requires LoaderOk(ld)
    ensures forall y :: At(ld.clients, y) > 0 ==> y in ld.mods
    ensures forall y, d :: y in ld.mods && d in ld.mods[y].deps ==> d in ld.mods
  {
    forall y | At(ld.clients, y) > 0 ensures y in ld.mods {
      assert At(ld.clients, y) <= At(ld.claims, y);
    }
    var e: Edges := AllEdges(ld.mods);
    forall y, d | y in ld.mods && d in ld.mods[y].deps ensures d in ld.mods {
      assert d in e[y];
    }
  }

  /**
   * Giving back one load drops only modules of that process, and only when neither one of its
   * remaining loads nor another of its modules needs them; everything else keeps its bytes.
   */
  lemma ReleaseSafe(w: World, l: nat, x: Id)
    requires Inv(w) && l < |w.loaders| && At(w.loaders[l].claims, x) > 0
    ensures var w' := Release(w, l, x);
            && Inv(w') && PrivKept(w, w')
            && |w'.loaders| == |w.loaders|
            && (forall k :: 0 <= k < |w.loaders| && k != l ==> w'.loaders[k] == w.loaders[k])
            && (forall y :: At(w'.loaders[l].clients, y) ==
                  At(w.loaders[l].clients, y) - if y == x && At(w.loaders[l].clients, x) > 0 then 1 else 0)
            && (forall y :: At(w'.loaders[l].claims, y) == At(w.loaders[l].claims, y) - if y == x then 1 else 0)
            && (forall y :: At(w'.loaders[l].clients, y) > 0 ==> y in w'.loaders[l].mods)
            && (forall y, d :: y in w'.loaders[l].mods && d in w'.loaders[l].mods[y].deps ==> d in w'.loaders[l].mods)
  {
    hide SharedCounted, Memory, Counted, Listed, Priv;
    var ld := w.loaders[l];
    var ld1 := ld.(clients := Less(ld.clients, x), claims := Less(ld.claims, x));
    var w1 := w.(loaders := w.loaders[l := ld1]);
    assert LoaderOk(ld);
    ClaimReturned(ld, x);
    RelabelMemory(w, l, ld1, {});
    CoreRelist(w, l, ld1, {});
    UnloadSafe(w1, l, [x], {});
    assert [x][1..] == [];
    var w' := Release(w, l, x);
    assert w' == Unload(w1, l, x);
    OthersOk(w, w', l);
    NeededStays(w'.loaders[l]);
    UnloadMods(w1, l, x);
    forall y
      ensures At(w'.loaders[l].clients, y) == At(ld.clients, y) - if y == x && At(ld.clients, x) > 0 then 1 else 0
      ensures At(w'.loaders[l].claims, y) == At(ld.claims, y) - if y == x then 1 else 0
    {
      LessAt(ld.clients, x, y);
      LessAt(ld.claims, x, y);
    }
  }

  // ----- A close of a module the process has no claim on -----

  /** References lead to older nodes, as far as the nodes are there. */
  ghost predicate Older(mods: Graph<Buf>) {
    forall z, d {:trigger Dep(mods, z, d)} :: Dep(mods, z, d) ==> mods[d].serial < mods[z].serial
  }

  ghost predicate Dep(mods: Graph<Buf>, z: Id, d: Id) {
    z in mods && d in mods && d in mods[z].deps
  }

  lemma OlderSurvivors(mods: Graph<Buf>, mods': Graph<Buf>)
    requires Older(mods) && Survivors(mods, mods')
    ensures Older(mods')
  {
    forall z, d {:trigger Dep(mods', z, d)} | Dep(mods', z, d) ensures mods'[d].serial < mods'[z].serial {
      assert Dep(mods, z, d);
    }
  }

  /** An unload takes nothing from the list that is newer than the module it is called for. */
  lemma {:induction false} UnloadNewer(w: World, l: nat, id: Id, y: Id, n: nat)
    requires l < |w.loaders| && Older(w.loaders[l].mods)
    requires y in w.loaders[l].mods && w.loaders[l].mods[y].serial >= n
    requires id in w.loaders[l].mods ==> w.loaders[l].mods[id].serial < n
    ensures y in Unload(w, l, id).loaders[l].mods
    decreases w.loaders[l].mods.Keys, 0, 0
  {
    hide Finish, Without;
    var ld := w.loaders[l];
    if id in ld.mods && ld.mods[id].refcount == 1 {
      var w1 := w.(loaders := w.loaders[l := Dropped(ld, id)]);
      assert id in ld.mods.Keys && id !in w1.loaders[l].mods.Keys;
      OlderSurvivors(ld.mods, ld.mods - {id});
      forall d | d in ld.mods[id].deps && d in w1.loaders[l].mods ensures w1.loaders[l].mods[d].serial < n {
        assert Dep(ld.mods, id, d);
      }
      UnloadEachNewer(w1, l, ld.mods[id].deps, y, n);
      FinishKeepsLists(UnloadEach(w1, l, ld.mods[id].deps), id, ld.mods[id].body);
    }
  }

  lemma {:induction false} UnloadEachNewer(w: World, l: nat, ds: seq<Id>, y: Id, n: nat)
    requires l < |w.loaders| && Older(w.loaders[l].mods)
    requires y in w.loaders[l].mods && w.loaders[l].mods[y].serial >= n
    requires forall d :: d in ds && d in w.loaders[l].mods ==> w.loaders[l].mods[d].serial < n
    ensures y in UnloadEach(w, l, ds).loaders[l].mods
    decreases w.loaders[l].mods.Keys, 1, |ds|
  {
    hide Unload, Older;
    if ds != [] {
      var w1 := Unload(w, l, ds[0]);
      UnloadMods(w, l, ds[0]);
      OlderSurvivors(w.loaders[l].mods, w1.loaders[l].mods);
      UnloadNewer(w, l, ds[0], y, n);
      UnloadEachNewer(w1, l, ds[1..], y, n);
    }
  }

  lemma CountedOlder(ld: Loader)
    requires Counted(ld, [])
    ensures Older(ld.mods)
  {
    var e: Edges := AllEdges(ld.mods);
    forall z, d {:trigger Dep(ld.mods, z, d)} | Dep(ld.mods, z, d) ensures ld.mods[d].serial < ld.mods[z].serial {
      assert d in e[z];
    }
  }

  lemma SameHistories(ld: Loader, ld': Loader)
    requires LoaderOk(ld) && ld'.mods == ld.mods && ld'.order == ld.order
    requires forall y :: At(ld'.claims, y) == At(ld.claims, y) && At(ld'.clients, y) == At(ld.clients, y)
    ensures LoaderOk(ld')
  {
    hide Present, Sorted, Covers, Downward;
    assert Exact(ld'.mods, ld'.claims, [], AllEdges(ld'.mods));
    forall y ensures At(ld'.clients, y) <= At(ld'.claims, y) {
      assert At(ld.clients, y) <= At(ld.claims, y);
    }
  }

  /** An open load is a claim. */
  lemma LoadClaims(w: World, l: nat, x: Id)
    requires Inv(w) && l < |w.loaders| && At(w.loaders[l].clients, x) > 0
    ensures At(w.loaders[l].claims, x) > 0
  {
    assert LoaderOk(w.loaders[l]);
    assert At(w.loaders[l].clients, x) <= At(w.loaders[l].claims, x);
  }

  /** Nothing changes but the histories, and these only in name. */
  lemma ReleaseAbsent(w: World, l: nat, x: Id)
    requires Inv(w) && l < |w.loaders| && x !in w.loaders[l].mods
    ensures Inv(Release(w, l, x))
  {
    hide SharedCounted, Memory, Listed;
    var ld := w.loaders[l];
    var ld' := ld.(clients := Less(ld.clients, x), claims := Less(ld.claims, x));
    var w' := Release(w, l, x);
    assert LoaderOk(ld) && At(ld.claims, x) == 0 && At(ld.clients, x) <= At(ld.claims, x);
    assert w' == w.(loaders := w.loaders[l := ld']);
    forall y ensures At(ld'.claims, y) == At(ld.claims, y) && At(ld'.clients, y) == At(ld.clients, y) {
      LessAt(ld.claims, x, y);
      LessAt(ld.clients, x, y);
    }
    SameHistories(ld, ld');
    RelabelMemory(w, l, ld', {});
    CoreRelist(w, l, ld', {});
    OthersOk(w, w', l);
  }

  /** The count of a listed module without claims is that of its dependents; taking one away leaves it short. */
  lemma ReleaseUnclaimed(w: World, l: nat, x: Id)
    requires Inv(w) && l < |w.loaders| && x in w.loaders[l].mods && At(w.loaders[l].claims, x) == 0
    ensures !Inv(Release(w, l, x))
  {
    hide SharedCounted, Owns, Owned, Unlisted, CurrentAllocated, Filled, Young, Listed, Downward, Finish, Without;
    var ld := w.loaders[l];
    var ld1 := ld.(clients := Less(ld.clients, x), claims := Less(ld.claims, x));
    var w1 := w.(loaders := w.loaders[l := ld1]);
    var w' := Release(w, l, x);
    assert w' == Unload(w1, l, x);
    assert LoaderOk(ld) && Occ([], x) == 0;
    CountedOlder(ld);
    var e: Edges := AllEdges(ld.mods);
    if ld.mods[x].refcount == 0 {
      assert !w'.ok;
    } else if ld.mods[x].refcount > 1 {
      var ld' := ld1.(mods := Decremented(ld.mods, x));
      assert w'.loaders[l] == ld' && AllEdges(ld'.mods) == e;
      LessAt(ld.claims, x, x);
      assert !Exact(ld'.mods, ld'.claims, [], e);
    } else {
      DependentLeft(w1, l, x);
      assert !LoaderOk(w'.loaders[l]);
    }
  }

  /** The only dependent of the module that goes is newer, so it stays, and misses it. */
  lemma DependentLeft(w: World, l: nat, x: Id)
    requires l < |w.loaders| && x in w.loaders[l].mods && w.loaders[l].mods[x].refcount == 1
    requires Older(w.loaders[l].mods) && Count(AllEdges(w.loaders[l].mods), x) > 0
    requires Downward(w.loaders[l].mods, AllEdges(w.loaders[l].mods))
    ensures !Downward(Unload(w, l, x).loaders[l].mods, AllEdges(Unload(w, l, x).loaders[l].mods))
  {
    hide Finish, Without, Older, UnloadEach;
    var ld := w.loaders[l];
    var e: Edges := AllEdges(ld.mods);
    var y := CountHolder(e, x);
    assert x in e[y] && Dep(ld.mods, y, x);
    var w1 := w.(loaders := w.loaders[l := Dropped(ld, x)]);
    var ds, n := ld.mods[x].deps, ld.mods[y].serial;
    OlderSurvivors(ld.mods, ld.mods - {x});
    forall d | d in ds && d in w1.loaders[l].mods ensures w1.loaders[l].mods[d].serial < n {
      assert d in e[x];
    }
    UnloadEachNewer(w1, l, ds, y, n);
    UnloadEachMods(w1, l, ds);
    FinishKeepsLists(UnloadEach(w1, l, ds), x, ld.mods[x].body);
    var mods' := Unload(w, l, x).loaders[l].mods;
    assert mods' == UnloadEach(w1, l, ds).loaders[l].mods;
    SurvivorAt(w1.loaders[l].mods, mods', y);
    var e': Edges := AllEdges(mods');
    assert x in e'[y] && x !in mods';
  }

  /**
   * A close leaves the tables sound exactly if the module is not listed, so that nothing happens, or
   * the process has a claim on it.
   */
  lemma CloseSound(w: World, l: nat, x: Id)
    requires Inv(w) && l < |w.loaders|
    ensures Inv(Release(w, l, x)) <==> x !in w.loaders[l].mods || At(w.loaders[l].claims, x) > 0
  {
    hide Inv, Release;
    if At(w.loaders[l].claims, x) > 0 {
      ReleaseSafe(w, l, x);
    } else if x in w.loaders[l].mods {
      ReleaseUnclaimed(w, l, x);
    } else {
      ReleaseAbsent(w, l, x);
    }
  }

  // ----- What a close drops -----

  /** What keeps a module of the list: a claim, or that nobody ever took a reference on it. */
  ghost function Anchors(ld: Loader, x: Id): Roots {
    map y | y in ld.claims.Keys + ld.mods.Keys ::
      (if y == x && At(ld.claims, x) > 0 then At(ld.claims, x) - 1 else At(ld.claims, y)) + (if y in Zeros(ld.mods) then 1 else 0)
  }

  lemma {:induction false} UnloadMods(w: World, l: nat, id: Id)
    requires l < |w.loaders|
    ensures var ld, ld' := w.loaders[l], Unload(w, l, id).loaders[l];
            Survivors(ld.mods, ld'.mods) && Zeros(ld'.mods) == Zeros(ld.mods) && ld'.claims == ld.claims
    decreases w.loaders[l].mods.Keys, 0, 0
  {
    hide Finish, Without;
    var ld := w.loaders[l];
    if id in ld.mods && ld.mods[id].refcount == 1 {
      var w1 := w.(loaders := w.loaders[l := Dropped(ld, id)]);
      assert id in ld.mods.Keys && id !in w1.loaders[l].mods.Keys;
      UnloadEachMods(w1, l, ld.mods[id].deps);
      FinishKeepsLists(UnloadEach(w1, l, ld.mods[id].deps), id, ld.mods[id].body);
      assert Zeros(ld.mods - {id}) == Zeros(ld.mods);
    }
  }

  lemma {:induction false} UnloadEachMods(w: World, l: nat, ds: seq<Id>)
    requires l < |w.loaders|
    ensures var ld, ld' := w.loaders[l], UnloadEach(w, l, ds).loaders[l];
            Survivors(ld.mods, ld'.mods) && Zeros(ld'.mods) == Zeros(ld.mods) && ld'.claims == ld.claims
    decreases w.loaders[l].mods.Keys, 1, |ds|
  {
    hide Unload;
    if ds != [] {
      UnloadMods(w, l, ds[0]);
      UnloadEachMods(Unload(w, l, ds[0]), l, ds[1..]);
    }
  }

  lemma FinishKeepsLists(w: World, id: Id, b: Buf)
    ensures Finish(w, id, b).loaders == w.loaders
  {
    hide Unref;
  }

  /** A listed module with a count is claimed or has a newer module that depends on it. */
  lemma {:induction false} ListedReachable(ld: Loader, mods: Graph<Buf>, roots: Roots, y: Id)
    requires Counted(ld, []) && y in ld.mods && Survivors(mods, ld.mods)
    requires forall z :: z in ld.mods && (At(ld.claims, z) > 0 || ld.mods[z].refcount == 0) ==> At(roots, z) > 0
    ensures Reachable(mods, roots, y)
    decreases Newest(ld.mods) - ld.mods[y].serial
  {
    hide Survivors;
    SurvivorAt(mods, ld.mods, y);
    if At(roots, y) > 0 {
      assert Path(mods, roots, [y]) && [y][|[y]| - 1] == y;
    } else {
      assert Occ([], y) == 0;
      var z := CountHolder(AllEdges(ld.mods), y);
      var e: Edges := AllEdges(ld.mods);
      assert y in e[z];
      ListedReachable(ld, mods, roots, z);
      SurvivorAt(mods, ld.mods, z);
      var p :| Path(mods, roots, p) && p[|p| - 1] == z;
      PathExtend(mods, roots, p, y);
    }
  }

  lemma SurvivorAt(mods: Graph<Buf>, mods': Graph<Buf>, y: Id)
    requires Survivors(mods, mods') && y in mods'
    ensures y in mods && mods'[y] == mods[y].(refcount := mods'[y].refcount)
  {}

  lemma {:induction false} PathListed(ld: Loader, mods: Graph<Buf>, roots: Roots, p: seq<Id>, k: nat)
    requires Counted(ld, []) && Survivors(mods, ld.mods) && Path(mods, roots, p) && k < |p|
    requires forall z :: At(roots, z) > 0 ==> z in ld.mods
    ensures p[k] in ld.mods
  {
    if k > 0 {
      PathListed(ld, mods, roots, p, k - 1);
      var e: Edges := AllEdges(ld.mods);
      assert p[k] in e[p[k - 1]];
    }
  }

  /**
   * Giving back one load drops exactly the modules that cannot be reached any more, along the
   * dependencies as they stood before the call, from what the process's remaining claims anchor.
   */
  lemma ReleaseDropsExactly(w: World, l: nat, x: Id, y: Id)
    requires Inv(w) && l < |w.loaders| && At(w.loaders[l].claims, x) > 0
    ensures var ld := w.loaders[l];
            y in Release(w, l, x).loaders[l].mods <==> Reachable(ld.mods, Anchors(ld, x), y)
  {
    hide SharedCounted, Memory, Listed, Unload, Less, Reachable, PrivKept;
    var ld, w' := w.loaders[l], Release(w, l, x);
    var ld' := w'.loaders[l];
    var w1 := w.(loaders := w.loaders[l := ld.(clients := Less(ld.clients, x), claims := Less(ld.claims, x))]);
    ReleaseSafe(w, l, x);
    UnloadMods(w1, l, x);
    assert w' == Unload(w1, l, x) && LoaderOk(ld');
    AnchorsMean(ld, ld', x);
    if y in ld'.mods {
      ListedReachable(ld', ld.mods, Anchors(ld, x), y);
    }
    if Reachable(ld.mods, Anchors(ld, x), y) {
      var p := PathOf(ld.mods, Anchors(ld, x), y);
      PathListed(ld', ld.mods, Anchors(ld, x), p, |p| - 1);
    }
  }

  lemma PathOf(mods: Graph<Buf>, roots: Roots, y: Id) returns (p: seq<Id>)
    requires Reachable(mods, roots, y)
    ensures Path(mods, roots, p) && p[|p| - 1] == y
  {
    p :| Path(mods, roots, p) && p[|p| - 1] == y;
  }

  lemma AnchorsMean(ld: Loader, ld': Loader, x: Id)
    requires ld'.claims == Less(ld.claims, x) && Zeros(ld'.mods) == Zeros(ld.mods) && Counted(ld', [])
    ensures forall z :: z in ld'.mods && (At(ld'.claims, z) > 0 || ld'.mods[z].refcount == 0) ==> At(Anchors(ld, x), z) > 0
    ensures forall z :: At(Anchors(ld, x), z) > 0 ==> z in ld'.mods
  {
    hide Less;
    forall z ensures At(ld'.claims, z) == if z == x && At(ld.claims, x) > 0 then At(ld.claims, x) - 1 else At(ld.claims, z) {
      LessAt(ld.claims, x, z);
    }
    forall z | z in ld'.mods && (At(ld'.claims, z) > 0 || ld'.mods[z].refcount == 0) ensures At(Anchors(ld, x), z) > 0 {
      if ld'.mods[z].refcount == 0 {
        assert z in Zeros(ld'.mods);
      }
    }
    forall z | At(Anchors(ld, x), z) > 0 ensures z in ld'.mods {
      if At(ld'.claims, z) > 0 {
        assert z in ld'.mods;
      } else {
        assert z in Zeros(ld.mods);
      }
    }
  }

  // ----- Unloading everything -----

  /** The buffers of the modules named in `ids`. */
  ghost function Bodies(mods: Graph<Buf>, ids: seq<Id>): set<Buf>
    requires Present(ids, mods)
  {
    set i | 0 <= i < |ids| :: mods[ids[i]].body
  }

  ghost predicate Distinct(mods: Graph<Buf>, ids: seq<Id>)
    requires Present(ids, mods)
  {
    forall i, j :: 0 <= i < j < |ids| ==> mods[ids[i]].body != mods[ids[j]].body
  }

  lemma BodiesRest(mods: Graph<Buf>, ids: seq<Id>)
    requires Present(ids, mods) && Distinct(mods, ids) && ids != []
    ensures Present(ids[1..], mods) && Distinct(mods, ids[1..])
    ensures Bodies(mods, ids) - {mods[ids[0]].body} == Bodies(mods, ids[1..])
  {
    var b := mods[ids[0]].body;
    forall c ensures c in Bodies(mods, ids) - {b} <==> c in Bodies(mods, ids[1..]) {
      if c in Bodies(mods, ids) - {b} {
        var i :| 0 <= i < |ids| && c == mods[ids[i]].body;
        assert ids[1..][i - 1] == ids[i];
      }
      if c in Bodies(mods, ids[1..]) {
        var i :| 0 <= i < |ids[1..]| && c == mods[ids[1..][i]].body;
        assert ids[i + 1] == ids[1..][i];
      }
    }
  }

  lemma {:induction false} FinishEachSafe(w: World, mods: Graph<Buf>, ids: seq<Id>)
    requires Present(ids, mods) && Distinct(mods, ids) && Core(w, Bodies(mods, ids))
    requires forall i :: 0 <= i < |ids| ==> mods[ids[i]].body in w.mem && w.mem[mods[ids[i]].body].id == ids[i]
    ensures var w' := FinishEach(w, mods, ids);
            Core(w', {}) && w'.loaders == w.loaders && PrivKept(w, w')
    decreases |ids|
  {
    hide Core, PrivKept, Finish, Bodies;
    if ids == [] {
      NoBodies(mods);
      PrivKeptRefl(w);
    } else {
      var b := mods[ids[0]].body;
      FirstBody(mods, ids);
      FinishSafe(w, ids[0], b, Bodies(mods, ids));
      BodiesRest(mods, ids);
      var w1 := Finish(w, ids[0], b);
      forall i | 0 <= i < |ids[1..]|
        ensures mods[ids[1..][i]].body in w1.mem && w1.mem[mods[ids[1..][i]].body].id == ids[1..][i]
      {
        assert ids[1..][i] == ids[i + 1];
      }
      FinishEachSafe(w1, mods, ids[1..]);
      PrivKeptTrans(w, w1, FinishEach(w1, mods, ids[1..]));
    }
  }

  lemma NoBodies(mods: Graph<Buf>)
    ensures Bodies(mods, []) == {}
  {}

  lemma FirstBody(mods: Graph<Buf>, ids: seq<Id>)
    requires Present(ids, mods) && ids != []
    ensures mods[ids[0]].body in Bodies(mods, ids)
  {}

  /** Finishing modules never looks at the lists, so the list may be emptied before or after. */
  lemma {:induction false} FinishEachRelist(w: World, mods: Graph<Buf>, ids: seq<Id>, ls: seq<Loader>)
    ensures FinishEach(w.(loaders := ls), mods, ids) == FinishEach(w, mods, ids).(loaders := ls)
    ensures FinishEach(w, mods, ids).loaders == w.loaders
    decreases |ids|
  {
    if ids != [] && ids[0] in mods {
      var b := mods[ids[0]].body;
      assert Finish(w.(loaders := ls), ids[0], b) == Finish(w, ids[0], b).(loaders := ls);
      FinishEachRelist(Finish(w, ids[0], b), mods, ids[1..], ls);
    }
  }

  /** The whole list leaves at once; all its buffers are dying. */
  lemma EmptiedMemory(w: World, l: nat)
    requires Memory(w, {}) && l < |w.loaders|
    requires Present(w.loaders[l].order, w.loaders[l].mods) && Covers(w.loaders[l].order, w.loaders[l].mods)
    ensures var ld := w.loaders[l];
            var w1 := w.(loaders := w.loaders[l := Empty]);
            && Memory(w1, Bodies(ld.mods, ld.order)) && PrivKept(w, w1)
            && Distinct(ld.mods, ld.order)
            && forall i :: 0 <= i < |ld.order| ==>
                 ld.mods[ld.order[i]].body in w.mem && w.mem[ld.mods[ld.order[i]].body].id == ld.order[i]
    requires LoaderOk(w.loaders[l])
  {
    hide Counted, Sorted;
    var ld := w.loaders[l];
    forall i | 0 <= i < |ld.order|
      ensures ld.mods[ld.order[i]].body in w.mem && w.mem[ld.mods[ld.order[i]].body].id == ld.order[i]
      ensures w.mem[ld.mods[ld.order[i]].body].loader == l
    {
      assert HasMod(w, l, ld.order[i]);
    }
    forall i, j | 0 <= i < j < |ld.order| ensures ld.mods[ld.order[i]].body != ld.mods[ld.order[j]].body {
      ListedOnce(ld, i, j);
    }
    var dying := Bodies(ld.mods, ld.order);
    forall b {:trigger w.mem[b]} | b in w.mem && w.mem[b].loader == l && w.mem[b].id !in Empty.mods ensures b in dying {
      assert HasMod(w, l, w.mem[b].id);
      var i := ListedAt(ld, w.mem[b].id);
      assert ld.mods[ld.order[i]].body == b;
    }
    forall b | b in dying ensures b in w.mem && w.mem[b].loader == l && w.mem[b].id !in Empty.mods {}
    RelistMemory(w, l, Empty, {}, dying);
  }

  lemma EmptyOk()
    ensures LoaderOk(Empty)
  {
    assert Occ([], 0) == 0;
    forall x ensures At(Empty.claims, x) == 0 && Occ([], x) == 0 {}
  }

  /** Unloading everything leaves the process without modules and nobody else with a change. */
  lemma UnloadAllSafe(w: World, l: nat)
    requires Inv(w) && l < |w.loaders|
    ensures var w' := UnloadAll(w, l);
            && Inv(w') && PrivKept(w, w')
            && w'.loaders == w.loaders[l := Empty]
  {
    hide SharedCounted, Memory, Counted, Sorted, Bodies, Priv;
    var ld := w.loaders[l];
    assert LoaderOk(ld);
    var w1 := w.(loaders := w.loaders[l := Empty]);
    EmptiedMemory(w, l);
    CoreRelist(w, l, Empty, {});
    FinishEachSafe(w1, ld.mods, ld.order);
    FinishEachRelist(w, ld.mods, ld.order, w1.loaders);
    var w' := UnloadAll(w, l);
    assert w' == FinishEach(w1, ld.mods, ld.order);
    EmptyOk();
    OthersOk(w, w', l);
    PrivKeptTrans(w, w1, w');
  }
}
