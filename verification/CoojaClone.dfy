/**
 * Fork: the clone gets its own modules, with the bytes the parent sees right now.
 * The parent's modules are copied in list order, so that dependencies are there before dependents.
 */
module CoojaClone {
  import opened Basics
  import opened RefGraph
  import opened CoojaLoader
  import opened CoojaInvariant
  import opened CoojaUnload
  import opened CoojaRelease
  import opened CoojaLoad

  /** The module appended to the clone. */
  ghost function ClonedNode(from: Loader, id: Id, addr: Buf, clock: nat): Node<Buf>
    requires id in from.mods
  {
    Node(from.mods[id].deps, from.mods[id].refcount, clock, addr)
  }

  ghost function ClonedLoader(clone: Loader, from: Loader, id: Id, addr: Buf, clock: nat): Loader
    requires id in from.mods
  {
    Appended(clone, id, ClonedNode(from, id, addr, clock)).(
      clients := clone.clients[id := At(from.clients, id)],
      claims := clone.claims[id := from.mods[id].refcount])
  }

  lemma CloneModuleIs(w: World, l: nat, id: Id, addr: Buf)
    requires l < |w.loaders| && HasMod(w, l, id) && id in w.shared
    requires AllIn(w.loaders[l].mods[id].deps, w.loaders[|w.loaders| - 1].mods)
    ensures var n := |w.loaders| - 1;
            CloneModule(w, l, id, addr) == World(
              w.shared[id := w.shared[id].(refcount := w.shared[id].refcount + 1)],
              w.mem[addr := Cell(n, id, Some(w.shared[id].body.data))],
              w.loaders[n := ClonedLoader(w.loaders[n], w.loaders[l], id, addr, w.clock)],
              w.clock + 1, w.ok)
  {
    RefEachSpec(w.loaders[|w.loaders| - 1].mods, w.loaders[l].mods[id].deps);
  }

  lemma ClonedCounts(clone: Loader, from: Loader, id: Id, addr: Buf, clock: nat)
    requires LoaderOk(clone) && LoaderOk(from) && id in from.mods && id !in clone.mods
    ensures var claims' := ClonedLoader(clone, from, id, addr, clock).claims;
            var clients' := ClonedLoader(clone, from, id, addr, clock).clients;
            && (forall x :: At(claims', x) == At(clone.claims, x) + if x == id then from.mods[id].refcount else 0)
            && (forall x :: At(clients', x) <= At(claims', x))
  {
    hide Listed, Downward, Appended;
    assert At(from.clients, id) <= At(from.claims, id) <= from.mods[id].refcount;
    var ld' := ClonedLoader(clone, from, id, addr, clock);
    assert Occ([], id) == 0;
    assert At(clone.claims, id) == 0;
    forall x: Id ensures At(ld'.clients, x) <= At(ld'.claims, x) {
      assert At(clone.clients, x) <= At(clone.claims, x);
    }
  }

  /** Copied counts become claims of the clone, on top of the edges it re-adds. */
  lemma ClonedOk(clone: Loader, from: Loader, id: Id, addr: Buf, clock: nat)
    requires LoaderOk(clone) && LoaderOk(from) && id in from.mods && id !in clone.mods
    requires AllIn(from.mods[id].deps, clone.mods)
    requires forall x :: x in clone.mods ==> clone.mods[x].serial < clock
    ensures LoaderOk(ClonedLoader(clone, from, id, addr, clock))
  {
    hide Present, Sorted, Covers, Exact, Downward, Closed;
    var n := ClonedNode(from, id, addr, clock);
    var ld' := ClonedLoader(clone, from, id, addr, clock);
    var e: Edges := AllEdges(clone.mods);
    ClonedCounts(clone, from, id, addr, clock);
    AddNodeExact(clone.mods, e, clone.claims, ld'.claims, id, n);
    AddNodeDownward(clone.mods, e, id, n);
    AppendedListed(clone, id, n);
    RefEachSpec(clone.mods, n.deps);
    assert AllEdges(ld'.mods) == e[id := n.deps];
  }

  /** One module of the parent copied to the clone at index `n`: who has what afterwards. */
  ghost predicate CopiedView(w: World, w': World, l: nat, n: nat, id: Id) {
    && (forall k, x {:trigger HasMod(w', k, x)} :: HasMod(w', k, x) <==> HasMod(w, k, x) || (k == n && x == id))
    && (forall k: nat, x: Id {:trigger Priv(w', k, x)} :: HasMod(w, k, x) ==> Priv(w', k, x) == Priv(w, k, x))
    && Priv(w', n, id) == Priv(w, l, id)
    && SwitchedIn(w', l)
  }

  /** The copy's bookkeeping. */
  ghost predicate CopiedTables(w: World, w': World, l: nat, n: nat, id: Id, addr: Buf) {
    && Inv(w') && |w'.loaders| == |w.loaders| && n < |w.loaders| && l < |w.loaders|
    && (forall k :: 0 <= k < |w.loaders| && k != n ==> w'.loaders[k] == w.loaders[k])
    && (forall b :: b in w'.mem ==> b in w.mem || b == addr)
    && id in w.loaders[l].mods
    && w'.loaders[n].order == w.loaders[n].order + [id]
    && (forall x :: At(w'.loaders[n].clients, x) == if x == id then At(w.loaders[l].clients, x) else At(w.loaders[n].clients, x))
    && (forall x :: At(w'.loaders[n].claims, x) == if x == id then w.loaders[l].mods[id].refcount else At(w.loaders[n].claims, x))
  }

  ghost predicate Copied(w: World, w': World, l: nat, n: nat, id: Id, addr: Buf) {
    CopiedView(w, w', l, n, id) && CopiedTables(w, w', l, n, id, addr)
  }

  ghost predicate Copyable(w: World, l: nat, n: nat, id: Id, addr: Buf) {
    && l < |w.loaders| && n == |w.loaders| - 1 && l != n
    && HasMod(w, l, id) && !HasMod(w, n, id)
    && AllIn(Mod(w, l, id).deps, w.loaders[n].mods)
    && addr !in w.mem
  }

  lemma CopyAdded(w: World, l: nat, n: nat, id: Id, addr: Buf)
    requires Memory(w, {}) && Copyable(w, l, n, id, addr)
    ensures id in w.shared
    ensures Added(w, CloneModule(w, l, id, addr), n, id, addr, Cell(n, id, Some(w.shared[id].body.data)))
  {
    hide Owned, Unlisted, Filled;
    ModuleShared(w, l, id, {});
    CloneModuleIs(w, l, id, addr);
    AppendedFrame(w.loaders[n], id, ClonedNode(w.loaders[l], id, addr, w.clock));
  }

  lemma CopyMemory(w: World, w': World, n: nat, id: Id, addr: Buf)
    requires Memory(w, {}) && id in w.shared
    requires Added(w, w', n, id, addr, Cell(n, id, Some(w.shared[id].body.data)))
    requires w'.shared[id].body == w.shared[id].body
    requires forall b :: b in w.mem ==> w'.mem[b] == w.mem[b]
    ensures Memory(w', {})
  {
    hide Owned, Young, Owns;
    AddedOwns(w, w', n, id, addr, Cell(n, id, Some(w.shared[id].body.data)));
  }

  lemma CopyPriv(w: World, w': World, n: nat, id: Id, addr: Buf)
    requires Owns(w) && CurrentAllocated(w) && id in w.shared
    requires Added(w, w', n, id, addr, Cell(n, id, Some(w.shared[id].body.data)))
    requires w'.shared[id].body == w.shared[id].body
    requires forall b :: b in w.mem ==> w'.mem[b] == w.mem[b]
    ensures forall k: nat, x: Id :: HasMod(w, k, x) ==> Priv(w', k, x) == Priv(w, k, x)
    ensures Priv(w', n, id) == Some(w.shared[id].body.data)
  {
    AddedModules(w, w', n, id, addr, Cell(n, id, Some(w.shared[id].body.data)));
    assert w.shared[id].body.current != Some(addr);
    forall k: nat, x: Id | HasMod(w, k, x) ensures Priv(w', k, x) == Priv(w, k, x) {
      assert HasMod(w', k, x) && Mod(w, k, x).body in w.mem;
    }
  }

  lemma CopySwitched(w: World, w': World, l: nat, n: nat, id: Id, addr: Buf)
    requires SwitchedIn(w, l) && l != n && id in w.shared
    requires Added(w, w', n, id, addr, Cell(n, id, Some(w.shared[id].body.data)))
    requires w'.shared[id].body == w.shared[id].body
    ensures SwitchedIn(w', l)
  {
    forall x {:trigger HasMod(w', l, x)} | HasMod(w', l, x)
      ensures x in w'.shared && w'.shared[x].body.current == Some(Mod(w', l, x).body)
    {
      assert HasMod(w, l, x);
    }
  }

  lemma CloneModuleSafe(w: World, l: nat, n: nat, id: Id, addr: Buf)
    requires Inv(w) && SwitchedIn(w, l) && Copyable(w, l, n, id, addr)
    ensures Copied(w, CloneModule(w, l, id, addr), l, n, id, addr)
  {
    hide LoaderOk, Sound, Zeros, Priv, Owns, Owned, Unlisted, Filled, Mappings, Appended, Added;
    ModuleShared(w, l, id, {});
    CloneModuleIs(w, l, id, addr);
    var w' := CloneModule(w, l, id, addr);
    var cell := Cell(n, id, Some(w.shared[id].body.data));
    CopyAdded(w, l, n, id, addr);
    CopyMemory(w, w', n, id, addr);
    CopyPriv(w, w', n, id, addr);
    CopySwitched(w, w', l, n, id, addr);
    AddedModules(w, w', n, id, addr, cell);
    MappingsGrow(w.mem, w'.mem, addr, id);
    MappedAgain(w.shared, Mappings(w.mem), Mappings(w'.mem), id, w.shared[id].body);
    LoaderYoung(w, n);
    assert LoaderOk(w.loaders[l]) && LoaderOk(w.loaders[n]);
    ClonedOk(w.loaders[n], w.loaders[l], id, addr, w.clock);
    OthersOk(w, w', n);
    SwitchedPriv(w, l, id);
    AppendedFrame(w.loaders[n], id, ClonedNode(w.loaders[l], id, addr, w.clock));
    AppendedOrder(w.loaders[n], w.loaders[l], id, addr, w.clock);
  }

  lemma AppendedOrder(clone: Loader, from: Loader, id: Id, addr: Buf, clock: nat)
    requires id in from.mods
    ensures ClonedLoader(clone, from, id, addr, clock).order == clone.order + [id]
  {}

  lemma SwitchedPriv(w: World, l: nat, id: Id)
    requires SwitchedIn(w, l) && HasMod(w, l, id)
    ensures id in w.shared && Priv(w, l, id) == Some(w.shared[id].body.data)
  {}

  // ----- The whole list -----

  /** The first `k` modules of the parent have been copied. */
  ghost predicate Prefix(w: World, l: nat, n: nat, k: nat) {
    && l < n && n == |w.loaders| - 1 && k <= |w.loaders[l].order|
    && w.loaders[n].order == w.loaders[l].order[..k]
    && (forall i :: 0 <= i < k ==> PrefixAt(w, l, n, w.loaders[l].order[i]))
    && (forall x :: x !in w.loaders[l].order[..k] ==> At(w.loaders[n].clients, x) == 0 && At(w.loaders[n].claims, x) == 0)
  }

  ghost predicate PrefixAt(w: World, l: nat, n: nat, x: Id) {
    && HasMod(w, l, x) && HasMod(w, n, x)
    && At(w.loaders[n].clients, x) == At(w.loaders[l].clients, x)
    && At(w.loaders[n].claims, x) == Mod(w, l, x).refcount
    && Priv(w, n, x) == Priv(w, l, x)
  }

  ghost predicate FreshAddrs(w: World, addrs: seq<Buf>) {
    && (forall i :: 0 <= i < |addrs| ==> addrs[i] !in w.mem)
    && (forall i, j :: 0 <= i < j < |addrs| ==> addrs[i] != addrs[j])
  }

  /** In list order, a module's dependencies come before it. */
  lemma DepsEarlier(ld: Loader, k: nat, d: Id) returns (j: nat)
    requires LoaderOk(ld) && k < |ld.order| && ld.order[k] in ld.mods && d in ld.mods[ld.order[k]].deps
    ensures j < k && ld.order[j] == d
  {
    hide Exact, Closed;
    var e: Edges := AllEdges(ld.mods);
    assert d in e[ld.order[k]];
    j := ListedAt(ld, d);
    if k < j {
      SortedAt(ld, k, j);
    }
  }

  lemma NextCopyable(w: World, l: nat, n: nat, k: nat, addr: Buf)
    requires LoadersOk(w) && Prefix(w, l, n, k) && k < |w.loaders[l].order| && addr !in w.mem
    ensures Copyable(w, l, n, w.loaders[l].order[k], addr)
  {
    hide Priv, Counted, Sorted;
    var from, clone := w.loaders[l], w.loaders[n];
    var id := from.order[k];
    assert LoaderOk(from) && LoaderOk(clone);
    assert HasMod(w, l, id);
    var ds := Mod(w, l, id).deps;
    forall i | 0 <= i < |ds| ensures ds[i] in clone.mods {
      var j := DepsEarlier(from, k, ds[i]);
      assert clone.order[j] == ds[i];
    }
    if HasMod(w, n, id) {
      var j := ListedAt(clone, id);
      assert clone.order[j] == from.order[j];
      ListedOnce(from, j, k);
    }
  }

  lemma PrefixStep(w: World, w1: World, l: nat, n: nat, k: nat, addr: Buf)
    requires Prefix(w, l, n, k) && k < |w.loaders[l].order|
    requires Copied(w, w1, l, n, w.loaders[l].order[k], addr) && HasMod(w, l, w.loaders[l].order[k])
    requires LoaderOk(w.loaders[l])
    ensures Prefix(w1, l, n, k + 1)
  {
    hide Inv, Priv, LoaderOk;
    var order := w.loaders[l].order;
    var id := order[k];
    assert w1.loaders[l] == w.loaders[l];
    assert order[..k + 1] == order[..k] + [id];
    forall i | 0 <= i < k + 1 ensures PrefixAt(w1, l, n, order[i]) {
      if i < k {
        assert PrefixAt(w, l, n, order[i]);
        assert HasMod(w1, l, order[i]) && HasMod(w1, n, order[i]);
        assert Priv(w1, n, order[i]) == Priv(w, n, order[i]) && Priv(w1, l, order[i]) == Priv(w, l, order[i]);
      } else {
        assert HasMod(w1, l, id) && HasMod(w1, n, id);
        assert Priv(w1, l, id) == Priv(w, l, id);
      }
    }
  }

  /** What remains true while the list is copied. */
  ghost predicate Cloning(w: World, w': World, l: nat, n: nat) {
    && Inv(w') && SwitchedIn(w', l) && |w'.loaders| == |w.loaders|
    && (forall k :: 0 <= k < |w.loaders| && k != n ==> w'.loaders[k] == w.loaders[k])
    && (forall k: nat, x: Id {:trigger Priv(w', k, x)} :: HasMod(w, k, x) ==> HasMod(w', k, x) && Priv(w', k, x) == Priv(w, k, x))
  }

  lemma CloningStep(w: World, w1: World, w': World, l: nat, n: nat, id: Id, addr: Buf)
    requires Copied(w, w1, l, n, id, addr) && Cloning(w1, w', l, n)
    ensures Cloning(w, w', l, n)
  {
    hide Inv, Priv, SwitchedIn;
    forall k: nat, x: Id {:trigger Priv(w', k, x)} | HasMod(w, k, x)
      ensures HasMod(w', k, x) && Priv(w', k, x) == Priv(w, k, x)
    {
      assert HasMod(w1, k, x);
      assert Priv(w1, k, x) == Priv(w, k, x);
      assert Priv(w', k, x) == Priv(w1, k, x);
    }
  }

  lemma CloningNone(w: World, l: nat, n: nat)
    requires Inv(w) && SwitchedIn(w, l)
    ensures Cloning(w, w, l, n)
  {
    hide Inv, Priv, SwitchedIn;
  }

  lemma FreshRest(w: World, w1: World, addrs: seq<Buf>)
    requires FreshAddrs(w, addrs) && addrs != []
    requires forall b :: b in w1.mem ==> b in w.mem || b == addrs[0]
    ensures FreshAddrs(w1, addrs[1..])
  {
    forall i | 0 <= i < |addrs[1..]| ensures addrs[1..][i] !in w1.mem {
      assert addrs[1..][i] == addrs[i + 1];
    }
  }

  lemma {:induction false} CloneEachSafe(w: World, l: nat, n: nat, k: nat, addrs: seq<Buf>)
    requires Inv(w) && Prefix(w, l, n, k) && SwitchedIn(w, l)
    requires |addrs| == |w.loaders[l].order| - k && FreshAddrs(w, addrs)
    ensures var w' := CloneEach(w, l, w.loaders[l].order[k..], addrs);
            Cloning(w, w', l, n) && Prefix(w', l, n, |w.loaders[l].order|)
    decreases |w.loaders[l].order| - k
  {
    hide SharedCounted, Memory, SwitchedIn, CopiedView, FreshAddrs, PrefixAt, Copyable, CloneModule;
    var order := w.loaders[l].order;
    if k == |order| {
      assert order[k..] == [];
      CloningNone(w, l, n);
    } else {
      var w1 := CloneModule(w, l, order[k], addrs[0]);
      FirstFresh(w, addrs);
      NextCopyable(w, l, n, k, addrs[0]);
      CloneModuleSafe(w, l, n, order[k], addrs[0]);
      assert LoaderOk(w.loaders[l]) && HasMod(w, l, order[k]);
      PrefixStep(w, w1, l, n, k, addrs[0]);
      FreshRest(w, w1, addrs);
      CopiedSwitched(w, w1, l, n, order[k]);
      assert order[k..][1..] == order[k + 1..];
      CloneEachSafe(w1, l, n, k + 1, addrs[1..]);
      CloningStep(w, w1, CloneEach(w1, l, order[k + 1..], addrs[1..]), l, n, order[k], addrs[0]);
    }
  }

  lemma FirstFresh(w: World, addrs: seq<Buf>)
    requires FreshAddrs(w, addrs) && addrs != []
    ensures addrs[0] !in w.mem
  {}

  lemma CopiedSwitched(w: World, w1: World, l: nat, n: nat, id: Id)
    requires CopiedView(w, w1, l, n, id)
    ensures SwitchedIn(w1, l)
  {}

  lemma NewLoaderInv(w: World)
    requires Inv(w)
    ensures var w1 := w.(loaders := w.loaders + [Empty]);
            && Inv(w1)
            && (forall k, x {:trigger HasMod(w1, k, x)} :: HasMod(w1, k, x) <==> HasMod(w, k, x))
            && SamePriv(w, w1)
  {
    hide LoaderOk, Sound, Zeros;
    var w1 := w.(loaders := w.loaders + [Empty]);
    forall k, x {:trigger HasMod(w1, k, x)}
      ensures HasMod(w1, k, x) <==> HasMod(w, k, x)
      ensures HasMod(w, k, x) ==> Mod(w1, k, x) == Mod(w, k, x)
    {}
    EmptyOk();
  }

  /** The clone's loads are the parent's; its claims also hold every edge it re-added. */
  ghost predicate ClonedHistory(w: World, w': World, l: nat) {
    && l < |w.loaders| < |w'.loaders|
    && (forall x :: At(w'.loaders[|w.loaders|].clients, x) == At(w.loaders[l].clients, x))
    && (forall x :: At(w'.loaders[|w.loaders|].claims, x) ==
          At(w.loaders[l].claims, x) + Count(AllEdges(w.loaders[l].mods), x))
  }

  lemma OutsideClaims(ld: Loader, x: Id)
    requires LoaderOk(ld) && x !in ld.mods
    ensures At(ld.clients, x) == 0 && At(ld.claims, x) == 0 && Count(AllEdges(ld.mods), x) == 0
  {
    hide Listed;
    assert Occ([], x) == 0;
    assert At(ld.clients, x) <= At(ld.claims, x);
    var e: Edges := AllEdges(ld.mods);
    if Count(e, x) > 0 {
      var y := CountHolder(e, x);
    }
  }

  lemma InsideClaims(ld: Loader, x: Id)
    requires LoaderOk(ld) && x in ld.mods
    ensures ld.mods[x].refcount == At(ld.claims, x) + Count(AllEdges(ld.mods), x)
  {
    hide Listed, Downward, Closed;
    assert Occ([], x) == 0;
  }

  /**
   * A fork leaves everybody's bytes alone, gives the clone the parent's modules in the parent's
   * order, and lets it see in each of them exactly what the parent sees.
   */
  lemma CloneSafe(w: World, l: nat, addrs: seq<Buf>)
    requires Inv(w) && l < |w.loaders| && SwitchedIn(w, l)
    requires |addrs| == |w.loaders[l].order| && FreshAddrs(w, addrs)
    ensures var w' := Clone(w, l, addrs);
            var n := |w.loaders|;
            && Inv(w') && SwitchedIn(w', l)
            && |w'.loaders| == n + 1 && w'.loaders[..n] == w.loaders
            && w'.loaders[n].order == w.loaders[l].order
            && (forall k: nat, x: Id :: k < n ==> Priv(w', k, x) == Priv(w, k, x))
            && (forall x :: Priv(w', n, x) == Priv(w, l, x))
            && ClonedHistory(w, w', l)
  {
    hide SharedCounted, Memory, SwitchedIn, FreshAddrs, Counted, Sorted, Priv;
    var n, w1 := |w.loaders|, w.(loaders := w.loaders + [Empty]);
    NewLoaderInv(w);
    NewLoaderSwitched(w, l);
    NewLoaderFresh(w, addrs);
    CloneEachSafe(w1, l, n, 0, addrs);
    assert w1.loaders[l].order[0..] == w.loaders[l].order;
    var w' := Clone(w, l, addrs);
    assert w' == CloneEach(w1, l, w.loaders[l].order, addrs);
    assert w'.loaders[..n] == w.loaders;
    assert LoaderOk(w.loaders[l]) && LoaderOk(w'.loaders[n]);
    var order := w.loaders[l].order;
    assert order[..|order|] == order;
    forall k: nat, x: Id | k < n ensures Priv(w', k, x) == Priv(w, k, x) {
      OldPriv(w, w1, w', k, x);
    }
    forall x
      ensures Priv(w', n, x) == Priv(w, l, x)
      ensures At(w'.loaders[n].clients, x) == At(w.loaders[l].clients, x)
      ensures At(w'.loaders[n].claims, x) == At(w.loaders[l].claims, x) + Count(AllEdges(w.loaders[l].mods), x)
    {
      if x in w.loaders[l].mods {
        var i := ListedAt(w.loaders[l], x);
        assert PrefixAt(w', l, n, order[i]);
        InsideClaims(w.loaders[l], x);
      } else {
        OutsideClaims(w.loaders[l], x);
        NotInClone(w, w', l, n, x);
      }
    }
  }

  lemma NewLoaderSwitched(w: World, l: nat)
    requires SwitchedIn(w, l) && l < |w.loaders|
    ensures SwitchedIn(w.(loaders := w.loaders + [Empty]), l)
  {
    var w1 := w.(loaders := w.loaders + [Empty]);
    forall x {:trigger HasMod(w1, l, x)} | HasMod(w1, l, x) ensures HasMod(w, l, x) {}
  }

  lemma NewLoaderFresh(w: World, addrs: seq<Buf>)
    requires FreshAddrs(w, addrs)
    ensures FreshAddrs(w.(loaders := w.loaders + [Empty]), addrs)
  {}

  lemma OldPriv(w: World, w1: World, w': World, k: nat, x: Id)
    requires w1 == w.(loaders := w.loaders + [Empty]) && k < |w.loaders|
    requires |w'.loaders| == |w.loaders| + 1 && w'.loaders[k] == w.loaders[k]
    requires HasMod(w1, k, x) ==> Priv(w', k, x) == Priv(w1, k, x)
    ensures Priv(w', k, x) == Priv(w, k, x)
  {}

  lemma NotInClone(w: World, w': World, l: nat, n: nat, x: Id)
    requires l < |w.loaders| == n < |w'.loaders| && x !in w.loaders[l].mods
    requires w'.loaders[n].order == w.loaders[l].order
    requires Present(w.loaders[l].order, w.loaders[l].mods) && Covers(w'.loaders[n].order, w'.loaders[n].mods)
    ensures Priv(w', n, x) == Priv(w, l, x) == None
    ensures x !in w.loaders[l].order
  {}
}
