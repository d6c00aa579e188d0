/**
 * Loading a file, one line of its dependency list at a time.
 *
 * First the counts, when a table gets one new node with its references; then the buffers, when a
 * library gets one new mapping; then the two together for one line of the list and for all of it.
 */
module CoojaLoad {
  import opened Basics
  import opened RefGraph
  import opened CoojaLoader
  import opened CoojaInvariant
  import opened CoojaUnload
  import opened CoojaRelease

  // ----- Counting one new node -----

  ghost predicate AllIn<T>(ds: seq<Id>, g: Graph<T>) {
    forall i :: 0 <= i < |ds| ==> ds[i] in g
  }

  lemma {:induction false} RefEachSpec<T>(g: Graph<T>, ds: seq<Id>)
    requires AllIn(ds, g)
    ensures RefEach(g, ds).1 && RefEach(g, ds).0.Keys == g.Keys
    ensures forall x :: x in g ==> RefEach(g, ds).0[x] == g[x].(refcount := g[x].refcount + Occ(ds, x))
    decreases |ds|
  {
    if ds != [] {
      var g1 := g[ds[0] := g[ds[0]].(refcount := g[ds[0]].refcount + 1)];
      assert AllIn(ds[1..], g1);
      RefEachSpec(g1, ds[1..]);
    }
  }

  lemma OccNotIn<T>(g: Graph<T>, ds: seq<Id>, x: Id)
    requires AllIn(ds, g) && x !in g
    ensures Occ(ds, x) == 0
  {
    OccIn(ds, x);
  }

  /** Appending a node keeps every count exact: its own and those of the nodes it refers to. */
  lemma AddNodeExact<T>(g: Graph<T>, e: Edges, roots: Roots, roots': Roots, id: Id, n: Node<T>)
    requires Exact(g, roots, [], e) && Downward(g, e) && Closed(g, roots, [])
    requires id !in g && id !in e && AllIn(n.deps, g)
    requires forall x :: At(roots', x) == At(roots, x) + if x == id then n.refcount else 0
    ensures Exact(RefEach(g, n.deps).0[id := n], roots', [], e[id := n.deps])
    ensures Closed(RefEach(g, n.deps).0[id := n], roots', [])
  {
    var g' := RefEach(g, n.deps).0[id := n];
    RefEachSpec(g, n.deps);
    forall x | x in g' ensures g'[x].refcount == At(roots', x) + Occ([], x) + Count(e[id := n.deps], x) {
      CountAdd(e, id, n.deps, x);
      if x == id {
        OccNotIn(g, n.deps, x);
        if Count(e, x) > 0 {
          var h := CountHolder(e, x);
        }
        assert At(roots, x) == 0;
      }
    }
  }

  lemma AddNodeDownward<T>(g: Graph<T>, e: Edges, id: Id, n: Node<T>)
    requires Downward(g, e) && id !in g && AllIn(n.deps, g)
    requires forall x :: x in g ==> g[x].serial < n.serial
    ensures Downward(RefEach(g, n.deps).0[id := n], e[id := n.deps])
  {
    var g' := RefEach(g, n.deps).0[id := n];
    var e': Edges := e[id := n.deps];
    RefEachSpec(g, n.deps);
    forall x, d {:trigger d in e'[x]} | x in e' && d in e'[x]
      ensures x in g' && d in g' && g'[d].serial < g'[x].serial
    {
      if x != id {
        assert d in e[x];
      }
    }
  }

  // ----- The shared table -----

  /** A library opened for the first time, and mapped once. */
  lemma OpenedCounted(g: Graph<Section>, roots: Roots, roots': Roots, id: Id, n: Node<Section>)
    requires Sound(g, roots, []) && Zeros(g) == {}
    requires id !in g && AllIn(n.deps, g) && n.refcount == 1
    requires forall x :: x in g ==> g[x].serial < n.serial
    requires forall x :: At(roots', x) == At(roots, x) + if x == id then 1 else 0
    ensures var g' := RefEach(g, n.deps).0[id := n]; Sound(g', roots', []) && Zeros(g') == {}
  {
    var g' := RefEach(g, n.deps).0[id := n];
    var e: Edges := LiveEdges(g);
    AddNodeExact(g, e, roots, roots', id, n);
    AddNodeDownward(g, e, id, n);
    RefEachSpec(g, n.deps);
    assert forall x :: x in g ==> x !in Zeros(g);
    assert LiveEdges(g') == e[id := n.deps];
  }

  /** One more process maps a library that is already open. */
  lemma MappedAgain(g: Graph<Section>, roots: Roots, roots': Roots, id: Id, s: Section)
    requires Sound(g, roots, []) && Zeros(g) == {} && id in g
    requires forall x :: At(roots', x) == At(roots, x) + if x == id then 1 else 0
    ensures var g' := g[id := g[id].(refcount := g[id].refcount + 1, body := s)];
            Sound(g', roots', []) && Zeros(g') == {}
  {
    var g' := g[id := g[id].(refcount := g[id].refcount + 1, body := s)];
    assert id !in Zeros(g) && g[id].refcount > 0;
    assert LiveEdges(g') == LiveEdges(g);
    forall x | x in g' ensures x !in Zeros(g') {
      assert x !in Zeros(g);
    }
  }

  lemma MappingsGrow(mem: map<Buf, Cell>, mem': map<Buf, Cell>, b: Buf, id: Id)
    requires b !in mem && mem'.Keys == mem.Keys + {b} && mem'[b].id == id
    requires forall c :: c in mem ==> mem'[c].id == mem[c].id
    ensures forall x :: At(Mappings(mem'), x) == At(Mappings(mem), x) + if x == id then 1 else 0
  {
    hide Mappings, At;
    forall x ensures At(Mappings(mem'), x) == At(Mappings(mem), x) + if x == id then 1 else 0 {
      MappingsAt(mem, x);
      MappingsAt(mem', x);
      if x == id {
        assert Mapped(mem', x) == Mapped(mem, x) + {b};
      } else {
        assert Mapped(mem', x) == Mapped(mem, x);
      }
    }
  }

  // ----- The process's own list -----

  /** The list with one more module at its end. */
  ghost function Appended(ld: Loader, id: Id, n: Node<Buf>): Loader {
    ld.(order := ld.order + [id], mods := RefEach(ld.mods, n.deps).0[id := n])
  }

  lemma AppendedListed(ld: Loader, id: Id, n: Node<Buf>)
    requires Listed(ld) && id !in ld.mods && AllIn(n.deps, ld.mods)
    requires forall x :: x in ld.mods ==> ld.mods[x].serial < n.serial
    ensures Listed(Appended(ld, id, n))
  {
    hide Exact, Downward, Closed;
    var ld' := Appended(ld, id, n);
    RefEachSpec(ld.mods, n.deps);
    forall i | 0 <= i < |ld'.order| ensures ld'.order[i] in ld'.mods {
      assert i < |ld.order| ==> ld'.order[i] == ld.order[i];
    }
    forall i, j | 0 <= i < j < |ld'.order|
      ensures ld'.mods[ld'.order[i]].serial < ld'.mods[ld'.order[j]].serial
    {
      if j < |ld.order| {
        SortedAt(ld, i, j);
      } else {
        assert ld.order[i] in ld.mods;
      }
    }
    forall x {:trigger x in ld'.mods} | x in ld'.mods ensures exists i :: 0 <= i < |ld'.order| && ld'.order[i] == x {
      if x == id {
        assert ld'.order[|ld.order|] == x;
      } else {
        var i := ListedAt(ld, x);
        assert ld'.order[i] == x;
      }
    }
  }

  lemma AppendedOk(ld: Loader, id: Id, n: Node<Buf>)
    requires LoaderOk(ld) && id !in ld.mods && AllIn(n.deps, ld.mods) && n.refcount == 0
    requires forall x :: x in ld.mods ==> ld.mods[x].serial < n.serial
    ensures LoaderOk(Appended(ld, id, n))
  {
    hide Present, Sorted, Covers;
    var e: Edges := AllEdges(ld.mods);
    AddNodeExact(ld.mods, e, ld.claims, ld.claims, id, n);
    AddNodeDownward(ld.mods, e, id, n);
    AppendedListed(ld, id, n);
    RefEachSpec(ld.mods, n.deps);
    assert AllEdges(Appended(ld, id, n).mods) == e[id := n.deps];
  }

  // ----- One new module in memory -----

  /** What a new module changes outside the counts. */
  ghost predicate Added(w: World, w': World, l: nat, id: Id, addr: Buf, cell: Cell) {
    && w.ok && w'.ok && w.clock <= w'.clock
    && l < |w.loaders| && |w'.loaders| == |w.loaders|
    && (forall k :: 0 <= k < |w.loaders| && k != l ==> w'.loaders[k] == w.loaders[k])
    && id !in w.loaders[l].mods
    && w'.loaders[l].mods.Keys == w.loaders[l].mods.Keys + {id}
    && (forall x :: x in w.loaders[l].mods ==>
          w'.loaders[l].mods[x] == w.loaders[l].mods[x].(refcount := w'.loaders[l].mods[x].refcount))
    && w'.loaders[l].mods[id].body == addr && w'.loaders[l].mods[id].serial < w'.clock
    && id in w'.shared && w'.loaders[l].mods[id].deps == w'.shared[id].deps && w'.shared[id].serial < w'.clock
    && w'.shared.Keys == w.shared.Keys + {id}
    && (forall x :: x in w.shared ==> w'.shared[x] == w.shared[x].(refcount := w'.shared[x].refcount, body := w'.shared[x].body))
    && (forall x :: x in w.shared && x != id ==> w'.shared[x].body == w.shared[x].body)
    && addr !in w.mem && w'.mem.Keys == w.mem.Keys + {addr}
    && (forall b :: b in w.mem ==> w'.mem[b] == w.mem[b].(bytes := w'.mem[b].bytes))
    && (forall b :: b in w.mem && w'.mem[b] != w.mem[b] ==>
          id in w.shared && w.shared[id].body.current == Some(b) && w'.mem[b].bytes == Some(w.shared[id].body.data))
    && w'.mem[addr] == cell && cell.loader == l && cell.id == id
  }

  lemma AddedModules(w: World, w': World, l: nat, id: Id, addr: Buf, cell: Cell)
    requires Added(w, w', l, id, addr, cell)
    ensures forall k, x {:trigger HasMod(w', k, x)} :: HasMod(w', k, x) <==> HasMod(w, k, x) || (k == l && x == id)
    ensures forall k, x {:trigger Mod(w', k, x)} :: HasMod(w, k, x) ==>
              Mod(w', k, x) == Mod(w, k, x).(refcount := Mod(w', k, x).refcount)
    ensures Mod(w', l, id).body == addr
  {}

  lemma AddedOwns(w: World, w': World, l: nat, id: Id, addr: Buf, cell: Cell)
    requires Memory(w, {}) && Added(w, w', l, id, addr, cell)
    ensures Owns(w') && Owned(w', {}) && Young(w')
  {
    hide CurrentAllocated, Filled, Unlisted, Owned;
    AddedModules(w, w', l, id, addr, cell);
    AddedOwned(w, w', l, id, addr, cell);
    forall k, x {:trigger HasMod(w', k, x)} | HasMod(w', k, x)
      ensures Mod(w', k, x).body in w'.mem && (HasMod(w, k, x) ==> Mod(w, k, x).body in w.mem)
    {
      assert HasMod(w, k, x) || (k == l && x == id);
    }
  }

  lemma AddedOwned(w: World, w': World, l: nat, id: Id, addr: Buf, cell: Cell)
    requires Owned(w, {}) && Added(w, w', l, id, addr, cell)
    ensures Owned(w', {})
  {
    AddedModules(w, w', l, id, addr, cell);
    forall b {:trigger w'.mem[b]} | b in w'.mem
      ensures HasMod(w', w'.mem[b].loader, w'.mem[b].id) && Mod(w', w'.mem[b].loader, w'.mem[b].id).body == b
    {
      if b != addr {
        assert HasMod(w, w.mem[b].loader, w.mem[b].id);
      }
    }
  }

  /** The new module takes over the section; whoever was current has been saved. */
  lemma TakeoverMemory(w: World, w': World, l: nat, id: Id, addr: Buf)
    requires Memory(w, {}) && Added(w, w', l, id, addr, Cell(l, id, None))
    requires w'.shared[id].body.current == Some(addr)
    requires id in w.shared && w.shared[id].body.current.Some? ==>
               w'.mem[w.shared[id].body.current.value].bytes == Some(w.shared[id].body.data)
    ensures Memory(w', {})
  {
    hide Owned, Young;
    AddedOwns(w, w', l, id, addr, Cell(l, id, None));
  }

  lemma TakeoverPriv(w: World, w': World, l: nat, id: Id, addr: Buf)
    requires Owns(w) && CurrentAllocated(w) && Added(w, w', l, id, addr, Cell(l, id, None))
    requires w'.shared[id].body.current == Some(addr)
    requires id in w.shared && w.shared[id].body.current.Some? ==>
               w'.mem[w.shared[id].body.current.value].bytes == Some(w.shared[id].body.data)
    ensures forall k: nat, x: Id :: HasMod(w, k, x) ==> Priv(w', k, x) == Priv(w, k, x)
    ensures Priv(w', l, id) == Some(w'.shared[id].body.data)
  {
    AddedModules(w, w', l, id, addr, Cell(l, id, None));
    forall k: nat, x: Id | HasMod(w, k, x) ensures Priv(w', k, x) == Priv(w, k, x) {
      assert HasMod(w', k, x) && Mod(w, k, x).body in w.mem;
    }
  }

  // ----- One line of the dependency list -----

  /** What loading assumes of one line: its dependencies came before it, and nothing contradicts it. */
  ghost predicate Loadable(w: World, l: nat, e: Entry) {
    && l < |w.loaders|
    && AllIn(e.deps, w.loaders[l].mods)
    && (e.id in w.shared ==> w.shared[e.id].deps == e.deps)
    && e.addr !in w.mem
  }

  /** The initial bytes a process sees in a library it loads. */
  ghost function Template(w: World, e: Entry): Bytes {
    if e.id in w.shared then w.shared[e.id].body.template else e.image
  }

  /** The section record after a load into it. */
  ghost function FreshSection(w: World, e: Entry): Section {
    Section(Template(w, e), Template(w, e), Some(e.addr))
  }

  lemma DepsShared(w: World, l: nat, e: Entry)
    requires Memory(w, {}) && Loadable(w, l, e)
    ensures AllIn(e.deps, w.shared)
  {
    forall i | 0 <= i < |e.deps| ensures e.deps[i] in w.shared {
      assert HasMod(w, l, e.deps[i]);
    }
  }

  lemma LoaderYoung(w: World, l: nat)
    requires Memory(w, {}) && l < |w.loaders|
    ensures forall x :: x in w.loaders[l].mods ==> w.loaders[l].mods[x].serial < w.clock
  {
    forall x | x in w.loaders[l].mods ensures w.loaders[l].mods[x].serial < w.clock {
      assert HasMod(w, l, x);
    }
  }

  /** The buffers after the bytes in the section of `id` are saved. */
  ghost function SavedMem(w: World, id: Id): map<Buf, Cell> {
    if id in w.shared && w.shared[id].body.current.Some? && w.shared[id].body.current.value in w.mem then
      var b := w.shared[id].body.current.value;
      w.mem[b := w.mem[b].(bytes := Some(w.shared[id].body.data))]
    else w.mem
  }

  ghost function NewModule(e: Entry, clock: nat): Node<Buf> {
    Node(e.deps, 0, clock, e.addr)
  }

  /** A world with one more module, given the library table that goes with it. */
  ghost function WithModule(w: World, l: nat, e: Entry, sh: Graph<Section>, clock: nat): World
    requires l < |w.loaders|
  {
    World(sh, SavedMem(w, e.id)[e.addr := Cell(l, e.id, None)],
      w.loaders[l := Appended(w.loaders[l], e.id, NewModule(e, clock))], clock + 1, w.ok)
  }

  ghost function KnownTable(w: World, e: Entry): Graph<Section>
    requires e.id in w.shared
  {
    w.shared[e.id := w.shared[e.id].(refcount := w.shared[e.id].refcount + 1, body := FreshSection(w, e))]
  }

  ghost function FirstTable(w: World, e: Entry): Graph<Section> {
    RefEach(w.shared, e.deps).0[e.id := Node(e.deps, 1, w.clock, FreshSection(w, e))]
  }

  /** A new module of a library that is open already, spelled out. */
  lemma AddKnownIs(w: World, l: nat, e: Entry)
    requires l < |w.loaders| && AllIn(e.deps, w.loaders[l].mods) && e.id in w.shared
    requires w.shared[e.id].body.current.Some? ==> w.shared[e.id].body.current.value in w.mem
    ensures AddModule(w, l, e) == WithModule(w, l, e, KnownTable(w, e), w.clock)
  {
    RefEachSpec(w.loaders[l].mods, e.deps);
    var n := w.shared[e.id];
    var w1 := SaveCurrent(w.(shared := w.shared[e.id := n.(refcount := n.refcount + 1)]), e.id);
    assert w1.mem == SavedMem(w, e.id);
    assert AddModule(w, l, e).shared == KnownTable(w, e);
  }

  /** A new module of a library nobody has open, spelled out. */
  lemma AddFirstIs(w: World, l: nat, e: Entry)
    requires l < |w.loaders| && AllIn(e.deps, w.loaders[l].mods) && AllIn(e.deps, w.shared) && e.id !in w.shared
    ensures AddModule(OpenShared(w, e), l, e) == WithModule(w, l, e, FirstTable(w, e), w.clock + 1)
  {
    RefEachSpec(w.shared, e.deps);
    var w1 := OpenShared(w, e);
    AddKnownIs(w1, l, e);
    assert KnownTable(w1, e) == FirstTable(w, e);
    assert SavedMem(w1, e.id) == w.mem == SavedMem(w, e.id);
  }

  lemma AppendedFrame(ld: Loader, id: Id, n: Node<Buf>)
    requires AllIn(n.deps, ld.mods) && id !in ld.mods
    ensures var ld' := Appended(ld, id, n);
            && ld'.mods.Keys == ld.mods.Keys + {id} && ld'.mods[id] == n
            && (forall x :: x in ld.mods ==> ld'.mods[x] == ld.mods[x].(refcount := ld'.mods[x].refcount))
            && ld'.clients == ld.clients && ld'.claims == ld.claims
  {
    RefEachSpec(ld.mods, n.deps);
  }

  /** The part of loading that both cases share. */
  lemma WithModuleSafe(w: World, l: nat, e: Entry, sh: Graph<Section>, clock: nat)
    requires Inv(w) && Loadable(w, l, e) && e.id !in w.loaders[l].mods && w.clock <= clock
    requires var w' := WithModule(w, l, e, sh, clock);
             SharedCounted(w') && Added(w, w', l, e.id, e.addr, Cell(l, e.id, None))
    requires sh[e.id].body == FreshSection(w, e)
    ensures var w' := WithModule(w, l, e, sh, clock);
            && Inv(w')
            && (forall k: nat, x: Id :: HasMod(w, k, x) ==> Priv(w', k, x) == Priv(w, k, x))
            && Priv(w', l, e.id) == Some(Template(w, e))
  {
    hide LoaderOk, SharedCounted, Priv, Owned, Unlisted, Filled, Appended, Added, Young;
    assert LoaderOk(w.loaders[l]);
    LoaderYoung(w, l);
    var w' := WithModule(w, l, e, sh, clock);
    AppendedOk(w.loaders[l], e.id, NewModule(e, clock));
    OthersOk(w, w', l);
    TakeoverMemory(w, w', l, e.id, e.addr);
    TakeoverPriv(w, w', l, e.id, e.addr);
  }

  lemma WithModuleAdded(w: World, l: nat, e: Entry, sh: Graph<Section>, clock: nat)
    requires Memory(w, {}) && Loadable(w, l, e) && e.id !in w.loaders[l].mods && w.clock <= clock
    requires sh.Keys == w.shared.Keys + {e.id} && sh[e.id].body == FreshSection(w, e)
    requires sh[e.id].deps == e.deps && sh[e.id].serial <= clock
    requires forall x :: x in w.shared ==> sh[x] == w.shared[x].(refcount := sh[x].refcount, body := sh[x].body)
    requires forall x :: x in w.shared && x != e.id ==> sh[x].body == w.shared[x].body
    ensures Added(w, WithModule(w, l, e, sh, clock), l, e.id, e.addr, Cell(l, e.id, None))
  {
    hide Owns, Owned, Unlisted, Filled, Appended, Young;
    AppendedFrame(w.loaders[l], e.id, NewModule(e, clock));
  }

  lemma WithModuleMappings(w: World, l: nat, e: Entry, sh: Graph<Section>, clock: nat)
    requires l < |w.loaders| && e.addr !in w.mem
    ensures forall x :: At(Mappings(WithModule(w, l, e, sh, clock).mem), x) == At(Mappings(w.mem), x) + if x == e.id then 1 else 0
  {
    hide Appended;
    MappingsGrow(w.mem, WithModule(w, l, e, sh, clock).mem, e.addr, e.id);
  }

  /** What loading one line guarantees. */
  ghost predicate EntryLoaded(w: World, w': World, l: nat, e: Entry) {
    && Inv(w') && HasMod(w', l, e.id)
    && |w'.loaders| == |w.loaders|
    && (forall k :: 0 <= k < |w.loaders| && k != l ==> w'.loaders[k] == w.loaders[k])
    && w'.loaders[l].clients == w.loaders[l].clients && w'.loaders[l].claims == w.loaders[l].claims
    && (forall x {:trigger HasMod(w', l, x)} :: HasMod(w', l, x) <==> HasMod(w, l, x) || x == e.id)
    && (forall k: nat, x: Id {:trigger Priv(w', k, x)} :: HasMod(w, k, x) ==> Priv(w', k, x) == Priv(w, k, x))
    && (!HasMod(w, l, e.id) ==> Priv(w', l, e.id) == Some(Template(w, e)))
    && (forall b :: b in w'.mem ==> b in w.mem || b == e.addr)
    && (forall x :: x in w'.shared ==> x in w.shared || x == e.id)
    && e.id in w'.shared && w'.shared[e.id].deps == e.deps
    && (forall x :: x in w.shared ==> x in w'.shared && w'.shared[x].deps == w.shared[x].deps
                                      && w'.shared[x].body.template == w.shared[x].body.template)
    && (e.id !in w.shared ==> w'.shared[e.id].body.template == e.image)
    && (SwitchedIn(w, l) ==> SwitchedIn(w', l))
  }

  lemma AddKnownSafe(w: World, l: nat, e: Entry)
    requires Inv(w) && Loadable(w, l, e) && e.id !in w.loaders[l].mods && e.id in w.shared
    ensures EntryLoaded(w, AddModule(w, l, e), l, e)
  {
    hide LoaderOk, Sound, Zeros, Priv, Owned, Unlisted, Filled, Appended, Added, Mappings, Owns;
    var sh := KnownTable(w, e);
    AddKnownIs(w, l, e);
    WithModuleAdded(w, l, e, sh, w.clock);
    WithModuleMappings(w, l, e, sh, w.clock);
    var w' := WithModule(w, l, e, sh, w.clock);
    MappedAgain(w.shared, Mappings(w.mem), Mappings(w'.mem), e.id, FreshSection(w, e));
    WithModuleSafe(w, l, e, sh, w.clock);
    LoadedSummary(w, w', l, e);
  }

  lemma AddFirstSafe(w: World, l: nat, e: Entry)
    requires Inv(w) && Loadable(w, l, e) && e.id !in w.loaders[l].mods && e.id !in w.shared
    ensures EntryLoaded(w, AddModule(OpenShared(w, e), l, e), l, e)
  {
    hide LoaderOk, Sound, Zeros, Priv, Owned, Unlisted, Filled, Appended, Added, Mappings, Owns, RefEach;
    var sh := FirstTable(w, e);
    DepsShared(w, l, e);
    RefEachSpec(w.shared, e.deps);
    AddFirstIs(w, l, e);
    WithModuleAdded(w, l, e, sh, w.clock + 1);
    WithModuleMappings(w, l, e, sh, w.clock + 1);
    var w' := WithModule(w, l, e, sh, w.clock + 1);
    OpenedCounted(w.shared, Mappings(w.mem), Mappings(w'.mem), e.id, Node(e.deps, 1, w.clock, FreshSection(w, e)));
    WithModuleSafe(w, l, e, sh, w.clock + 1);
    LoadedSummary(w, w', l, e);
  }

  lemma LoadedSummary(w: World, w': World, l: nat, e: Entry)
    requires Inv(w') && Added(w, w', l, e.id, e.addr, Cell(l, e.id, None)) && !HasMod(w, l, e.id)
    requires w'.loaders[l].clients == w.loaders[l].clients && w'.loaders[l].claims == w.loaders[l].claims
    requires w'.shared[e.id].body == FreshSection(w, e) && w'.shared[e.id].deps == e.deps
    requires forall k: nat, x: Id :: HasMod(w, k, x) ==> Priv(w', k, x) == Priv(w, k, x)
    requires Priv(w', l, e.id) == Some(Template(w, e))
    ensures EntryLoaded(w, w', l, e)
  {
    hide Inv, Priv;
    AddedModules(w, w', l, e.id, e.addr, Cell(l, e.id, None));
    if SwitchedIn(w, l) {
      forall x {:trigger HasMod(w', l, x)} | HasMod(w', l, x)
        ensures x in w'.shared && w'.shared[x].body.current == Some(Mod(w', l, x).body)
      {
        assert HasMod(w, l, x) || x == e.id;
      }
    }
  }

  /** Loading one line of a dependency list. */
  lemma LoadEntrySafe(w: World, l: nat, e: Entry)
    requires Inv(w) && Loadable(w, l, e) && e.found
    ensures EntryLoaded(w, LoadEntry(w, l, e), l, e)
  {
    hide Inv, SharedCounted, Priv, EntryLoaded, AddModule;
    if HasMod(w, l, e.id) {
      EntryPresent(w, l, e);
    } else if e.id in w.shared {
      AddKnownSafe(w, l, e);
    } else {
      AddFirstSafe(w, l, e);
    }
  }

  lemma EntryPresent(w: World, l: nat, e: Entry)
    requires Inv(w) && Loadable(w, l, e) && e.found && HasMod(w, l, e.id)
    ensures OpenShared(w, e) == w && EntryLoaded(w, w, l, e)
  {
    hide SharedCounted, LoaderOk, Priv, Owned, Unlisted, Filled;
    ModuleShared(w, l, e.id, {});
  }

  // ----- The whole dependency list -----

  /**
   * A dependency list as the ELF scanner produces it: dependencies first, one record per file,
   * and addresses malloc may really return.
   */
  ghost predicate ListOk(w: World, l: nat, es: seq<Entry>) {
    && l < |w.loaders|
    && (forall i {:trigger es[i]} :: 0 <= i < |es| && es[i].found ==>
          && DepsBefore(w, l, es, i)
          && (es[i].id in w.shared ==> w.shared[es[i].id].deps == es[i].deps)
          && es[i].addr !in w.mem)
    && (forall i, j :: 0 <= i < j < |es| && es[i].found && es[j].found ==> Consistent(es[i], es[j]))
  }

  ghost predicate DepsBefore(w: World, l: nat, es: seq<Entry>, i: nat)
    requires i < |es|
  {
    forall d :: d in es[i].deps ==> HasMod(w, l, d) || Earlier(es, i, d)
  }

  ghost predicate Earlier(es: seq<Entry>, i: nat, d: Id)
    requires i <= |es|
  {
    exists j :: 0 <= j < i && es[j].found && es[j].id == d
  }

  ghost predicate Consistent(a: Entry, b: Entry) {
    && a.addr != b.addr
    && (a.id == b.id ==> a.deps == b.deps && a.image == b.image)
  }

  /** What loading a whole list guarantees. */
  ghost predicate ListLoaded(w: World, w': World, l: nat, es: seq<Entry>) {
    && Inv(w')
    && |w'.loaders| == |w.loaders|
    && (forall k :: 0 <= k < |w.loaders| && k != l ==> w'.loaders[k] == w.loaders[k])
    && l < |w.loaders|
    && w'.loaders[l].clients == w.loaders[l].clients && w'.loaders[l].claims == w.loaders[l].claims
    && (forall x {:trigger HasMod(w', l, x)} :: HasMod(w', l, x) <==> HasMod(w, l, x) || Earlier(es, |es|, x))
    && (forall k: nat, x: Id {:trigger Priv(w', k, x)} :: HasMod(w, k, x) ==> Priv(w', k, x) == Priv(w, k, x))
    && (forall i {:trigger es[i]} :: 0 <= i < |es| && es[i].found && !HasMod(w, l, es[i].id) ==>
          Priv(w', l, es[i].id) == Some(Template(w, es[i])))
    && (SwitchedIn(w, l) ==> SwitchedIn(w', l))
    && (forall x :: x in w.shared ==> x in w'.shared && w'.shared[x].deps == w.shared[x].deps)
    && (forall i {:trigger es[i]} :: 0 <= i < |es| && es[i].found ==>
          es[i].id in w'.shared && w'.shared[es[i].id].deps == es[i].deps)
  }

  lemma FirstLoadable(w: World, l: nat, es: seq<Entry>)
    requires ListOk(w, l, es) && es != [] && es[0].found
    ensures Loadable(w, l, es[0])
  {
    assert DepsBefore(w, l, es, 0);
    var ds := es[0].deps;
    forall i | 0 <= i < |ds| ensures ds[i] in w.loaders[l].mods {
      assert ds[i] in ds;
      assert !Earlier(es, 0, ds[i]);
    }
  }

  lemma RestOk(w: World, w1: World, l: nat, es: seq<Entry>)
    requires ListOk(w, l, es) && es != []
    requires if es[0].found then EntryLoaded(w, w1, l, es[0]) else w1 == w
    ensures ListOk(w1, l, es[1..])
  {
    hide Inv, Priv, SwitchedIn;
    var r := es[1..];
    forall i {:trigger r[i]} | 0 <= i < |r| && r[i].found
      ensures DepsBefore(w1, l, r, i)
      ensures r[i].id in w1.shared ==> w1.shared[r[i].id].deps == r[i].deps
      ensures r[i].addr !in w1.mem
    {
      assert r[i] == es[i + 1];
      assert DepsBefore(w, l, es, i + 1);
      forall d | d in r[i].deps ensures HasMod(w1, l, d) || Earlier(r, i, d) {
        if HasMod(w, l, d) {
          assert HasMod(w1, l, d);
        } else {
          var j :| 0 <= j < i + 1 && es[j].found && es[j].id == d;
          if j > 0 {
            assert r[j - 1] == es[j];
          } else {
            assert HasMod(w1, l, d);
          }
        }
      }
      assert es[0].found ==> Consistent(es[0], es[i + 1]);
    }
    forall i, j | 0 <= i < j < |r| && r[i].found && r[j].found ensures Consistent(r[i], r[j]) {
      assert r[i] == es[i + 1] && r[j] == es[j + 1];
    }
  }

  lemma EarlierRest(es: seq<Entry>, x: Id)
    requires es != []
    ensures Earlier(es, |es|, x) <==> (es[0].found && es[0].id == x) || Earlier(es[1..], |es| - 1, x)
  {
    if Earlier(es, |es|, x) {
      var j :| 0 <= j < |es| && es[j].found && es[j].id == x;
      assert j > 0 ==> es[1..][j - 1] == es[j];
    }
    if Earlier(es[1..], |es| - 1, x) {
      var j :| 0 <= j < |es| - 1 && es[1..][j].found && es[1..][j].id == x;
      assert es[j + 1] == es[1..][j];
    }
  }

  lemma ListLoadedStep(w: World, w1: World, w': World, l: nat, es: seq<Entry>)
    requires ListOk(w, l, es) && es != []
    requires if es[0].found then EntryLoaded(w, w1, l, es[0]) else w1 == w
    requires ListLoaded(w1, w', l, es[1..])
    ensures ListLoaded(w, w', l, es)
  {
    hide Inv, Priv, SwitchedIn, DepsBefore, Earlier;
    forall x {:trigger HasMod(w', l, x)} ensures HasMod(w', l, x) <==> HasMod(w, l, x) || Earlier(es, |es|, x) {
      EarlierRest(es, x);
      assert HasMod(w1, l, x) <==> HasMod(w, l, x) || (es[0].found && x == es[0].id);
    }
    forall k: nat, x: Id {:trigger Priv(w', k, x)} | HasMod(w, k, x) ensures Priv(w', k, x) == Priv(w, k, x) {
      assert HasMod(w1, k, x);
      assert Priv(w1, k, x) == Priv(w, k, x);
    }
    forall i {:trigger es[i]} | 0 <= i < |es| && es[i].found && !HasMod(w, l, es[i].id)
      ensures Priv(w', l, es[i].id) == Some(Template(w, es[i]))
    {
      if i > 0 {
        assert es[1..][i - 1] == es[i];
        assert es[0].found ==> Consistent(es[0], es[i]);
        if es[0].found && es[0].id == es[i].id {
          assert HasMod(w1, l, es[i].id);
        } else {
          assert !HasMod(w1, l, es[i].id);
        }
      } else {
        assert HasMod(w1, l, es[0].id);
      }
    }
  }

  lemma ListLoadedNone(w: World, l: nat)
    requires Inv(w) && l < |w.loaders|
    ensures ListLoaded(w, w, l, [])
  {
    hide Inv, Priv, SwitchedIn;
  }

  lemma {:induction false} LoadEachSafe(w: World, l: nat, es: seq<Entry>)
    requires Inv(w) && ListOk(w, l, es)
    ensures ListLoaded(w, LoadEach(w, l, es), l, es)
    decreases |es|
  {
    hide Inv, ListLoaded, LoadEntry, DepsBefore, Consistent;
    if es == [] {
      ListLoadedNone(w, l);
    } else {
      var w1 := LoadEntry(w, l, es[0]);
      if es[0].found {
        FirstLoadable(w, l, es);
        LoadEntrySafe(w, l, es[0]);
        LoadedInv(w, w1, l, es[0]);
      } else {
        NotFound(w, l, es[0]);
      }
      RestOk(w, w1, l, es);
      LoadEachSafe(w1, l, es[1..]);
      ListLoadedStep(w, w1, LoadEach(w1, l, es[1..]), l, es);
    }
  }

  lemma LoadedInv(w: World, w': World, l: nat, e: Entry)
    requires EntryLoaded(w, w', l, e)
    ensures Inv(w')
  {
    hide Inv, Priv;
  }

  lemma NotFound(w: World, l: nat, e: Entry)
    requires l < |w.loaders| && !e.found
    ensures LoadEntry(w, l, e) == w
  {}

  // ----- The client's reference -----

  /** Entry `i` was found and no later one was. */
  ghost predicate FoundLast(es: seq<Entry>, i: nat) {
    i < |es| && es[i].found && forall j :: i < j < |es| ==> !es[j].found
  }

  /** The last entry that was found is one for `x`. */
  ghost predicate AnswersWith(es: seq<Entry>, x: Id) {
    exists i: nat :: FoundLast(es, i) && es[i].id == x
  }

  /** A load answers with the last of the files that were found, and with nothing exactly if none was. */
  lemma {:induction false} LastFoundIs(es: seq<Entry>)
    ensures forall x: Id :: LastFound(es) == Some(x) <==> AnswersWith(es, x)
    ensures LastFound(es) == None <==> forall i :: 0 <= i < |es| ==> !es[i].found
    ensures forall x: Id {:trigger AnswersWith(es, x)} :: AnswersWith(es, x) ==> Earlier(es, |es|, x)
  {
    if es == [] {
    } else if es[|es| - 1].found {
      assert FoundLast(es, |es| - 1);
    } else {
      var front := es[..|es| - 1];
      LastFoundIs(front);
      forall x: Id ensures AnswersWith(es, x) <==> AnswersWith(front, x) {
        if i: nat :| FoundLast(front, i) && front[i].id == x {
          assert FoundLast(es, i);
        }
        if i: nat :| FoundLast(es, i) && es[i].id == x {
          assert FoundLast(front, i);
        }
      }
      assert forall i :: 0 <= i < |front| ==> front[i] == es[i];
    }
  }

  /** The load itself: one more client reference to the module it answers with. */
  lemma ClaimOk(ld: Loader, x: Id)
    requires LoaderOk(ld) && x in ld.mods
    ensures LoaderOk(ld.(mods := ld.mods[x := ld.mods[x].(refcount := ld.mods[x].refcount + 1)],
                         clients := ld.clients[x := At(ld.clients, x) + 1],
                         claims := ld.claims[x := At(ld.claims, x) + 1]))
  {
    hide Present, Sorted, Covers, Counted, At;
    var mods' := ld.mods[x := ld.mods[x].(refcount := ld.mods[x].refcount + 1)];
    var clients', claims' := ld.clients[x := At(ld.clients, x) + 1], ld.claims[x := At(ld.claims, x) + 1];
    SameSerialsListed(ld.order, ld.mods, mods');
    ClaimCounted(ld, x);
    forall y: Id ensures At(clients', y) <= At(claims', y) {
      BumpAt(ld.clients, x, y);
      BumpAt(ld.claims, x, y);
      assert At(ld.clients, y) <= At(ld.claims, y);
    }
  }

  lemma BumpAt(m: Roots, x: Id, y: Id)
    ensures At(m[x := At(m, x) + 1], y) == At(m, y) + if y == x then 1 else 0
  {}

  lemma ClaimCounted(ld: Loader, x: Id)
    requires Counted(ld, []) && x in ld.mods
    ensures Counted(ld.(mods := ld.mods[x := ld.mods[x].(refcount := ld.mods[x].refcount + 1)],
                        clients := ld.clients[x := At(ld.clients, x) + 1],
                        claims := ld.claims[x := At(ld.claims, x) + 1]), [])
  {
    var mods' := ld.mods[x := ld.mods[x].(refcount := ld.mods[x].refcount + 1)];
    assert AllEdges(mods') == AllEdges(ld.mods);
  }

  lemma SameSerialsListed(order: seq<Id>, mods: Graph<Buf>, mods': Graph<Buf>)
    requires Present(order, mods) && Sorted(order, mods) && Covers(order, mods)
    requires mods'.Keys == mods.Keys && forall x :: x in mods ==> mods'[x].serial == mods[x].serial
    ensures Present(order, mods') && Sorted(order, mods') && Covers(order, mods')
  {
    forall x {:trigger x in mods'} | x in mods' ensures exists i :: 0 <= i < |order| && order[i] == x {
      assert x in mods;
    }
  }

  lemma ReferenceMemory(w: World, l: nat, ld': Loader)
    requires Memory(w, {}) && l < |w.loaders| && ld'.mods.Keys == w.loaders[l].mods.Keys
    requires forall x :: x in ld'.mods ==> ld'.mods[x] == w.loaders[l].mods[x].(refcount := ld'.mods[x].refcount)
    ensures var w' := w.(loaders := w.loaders[l := ld']);
            Memory(w', {}) && PrivKept(w, w') && (SwitchedIn(w, l) ==> SwitchedIn(w', l))
    ensures forall k, x {:trigger HasMod(w.(loaders := w.loaders[l := ld']), k, x)} ::
              HasMod(w.(loaders := w.loaders[l := ld']), k, x) <==> HasMod(w, k, x)
  {
    var w' := w.(loaders := w.loaders[l := ld']);
    RelistMemory(w, l, ld', {}, {});
    forall k, x {:trigger HasMod(w', k, x)} ensures HasMod(w', k, x) <==> HasMod(w, k, x) {}
    if SwitchedIn(w, l) {
      forall x {:trigger HasMod(w', l, x)} | HasMod(w', l, x)
        ensures x in w'.shared && w'.shared[x].body.current == Some(Mod(w', l, x).body)
      {
        assert HasMod(w, l, x);
      }
    }
  }

  /**
   * Loading a file leaves every existing module's bytes alone, gives the process a module for
   * every file found, new ones starting from the template, and keeps the process switched in.
   */
  lemma LoadSafe(w: World, l: nat, es: seq<Entry>)
    requires Inv(w) && ListOk(w, l, es)
    ensures var w' := Load(w, l, es);
            && Inv(w')
            && |w'.loaders| == |w.loaders|
            && (forall k :: 0 <= k < |w.loaders| && k != l ==> w'.loaders[k] == w.loaders[k])
            && (forall x {:trigger HasMod(w', l, x)} :: HasMod(w', l, x) <==> HasMod(w, l, x) || Earlier(es, |es|, x))
            && (forall k: nat, x: Id :: HasMod(w, k, x) ==> Priv(w', k, x) == Priv(w, k, x))
            && (forall i :: 0 <= i < |es| && es[i].found && !HasMod(w, l, es[i].id) ==>
                  Priv(w', l, es[i].id) == Some(Template(w, es[i])))
            && (SwitchedIn(w, l) ==> SwitchedIn(w', l))
            && (forall x: Id ::
                  && At(w'.loaders[l].clients, x) == At(w.loaders[l].clients, x) + (if AnswersWith(es, x) then 1 else 0)
                  && At(w'.loaders[l].claims, x) == At(w.loaders[l].claims, x) + (if AnswersWith(es, x) then 1 else 0))
            && (forall i {:trigger es[i]} :: 0 <= i < |es| && es[i].found ==>
                  es[i].id in w'.shared && w'.shared[es[i].id].deps == es[i].deps)
  {
    hide SharedCounted, Memory, Counted, Listed, Priv, SwitchedIn, ListOk, LoadEach, LastFound, AnswersWith;
    LoadEachSafe(w, l, es);
    LastFoundIs(es);
    var w1 := LoadEach(w, l, es);
    match LastFound(es) {
      case None =>
      case Some(x) =>
        var ld := w1.loaders[l];
        assert Earlier(es, |es|, x) && HasMod(w1, l, x);
        var ld' := ld.(mods := ld.mods[x := ld.mods[x].(refcount := ld.mods[x].refcount + 1)],
                       clients := ld.clients[x := At(ld.clients, x) + 1],
                       claims := ld.claims[x := At(ld.claims, x) + 1]);
        var w' := w1.(loaders := w1.loaders[l := ld']);
        assert Load(w, l, es) == w';
        assert LoaderOk(ld);
        ClaimOk(ld, x);
        OthersOk(w1, w', l);
        ReferenceMemory(w1, l, ld');
        CoreRelist(w1, l, ld', {});
        forall k: nat, y: Id | HasMod(w, k, y) ensures Priv(w', k, y) == Priv(w, k, y) {
          assert Priv(w1, k, y) == Priv(w, k, y);
          assert HasMod(w1, l, y) || k != l;
          assert HasMod(w', k, y);
        }
        forall i {:trigger es[i]} | 0 <= i < |es| && es[i].found && !HasMod(w, l, es[i].id)
          ensures Priv(w', l, es[i].id) == Some(Template(w, es[i]))
        {
          assert Earlier(es, |es|, es[i].id) && HasMod(w1, l, es[i].id);
          assert HasMod(w', l, es[i].id);
        }
    }
  }
}
