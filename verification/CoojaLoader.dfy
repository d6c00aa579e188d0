/** The loader that lets many virtual processes share one copy of each library. */
module CoojaLoader {
  import opened Basics
  import opened RefGraph

  // Every library has one physical data section.  A process that is not running keeps its bytes
  // of that section in a private buffer; the buffer of the process whose bytes are in the section
  // right now is recorded as `current`.  Bytes move only when a process is switched in and finds
  // somebody else's bytes in place.

  type Byte = bv8
  type Bytes = seq<Byte>
  type Buf = nat

  /** The part of a shared library record that is not about counting. */
  datatype Section = Section(template: Bytes, data: Bytes, current: Option<Buf>)

  /** An allocated private buffer; `bytes` is None until something is copied in. */
  datatype Cell = Cell(loader: nat, id: Id, bytes: Option<Bytes>)

  /**
   * One process's module list.  `order` is the list, `mods` the records it points to.
   * `clients` and `claims` are history: how many loads of each module the process has not
   * given back yet, and how many references nobody in the list accounts for.
   */
  datatype Loader = Loader(order: seq<Id>, mods: Graph<Buf>, clients: Roots, claims: Roots)

  const Empty: Loader := Loader([], map[], map[], map[])

  /** `ok` turns false on a null dereference, a use after free or a read of uninitialised bytes. */
  datatype World = World(
    shared: Graph<Section>,
    mem: map<Buf, Cell>,
    loaders: seq<Loader>,
    clock: nat,
    ok: bool)

  /** One line of the dependency list of a file, and the address malloc would answer with. */
  datatype Entry = Entry(found: bool, id: Id, deps: seq<Id>, image: Bytes, addr: Buf)

  // ----- Switching a process in -----

  /** Copy the live bytes of `id` back to the buffer they belong to. */
  ghost function SaveCurrent(w: World, id: Id): World
    requires id in w.shared
  {
    match w.shared[id].body.current
    case None => w
    case Some(b) =>
      if b in w.mem then w.(mem := w.mem[b := w.mem[b].(bytes := Some(w.shared[id].body.data))])
      else w.(ok := false)
  }

  ghost function SetSection(w: World, id: Id, s: Section): World
    requires id in w.shared
  {
    w.(shared := w.shared[id := w.shared[id].(body := s)])
  }

  ghost function SwapIn(w: World, id: Id, b: Buf): World {
    if id !in w.shared then w.(ok := false)
    else if w.shared[id].body.current == Some(b) then w
    else
      var w1 := SaveCurrent(w, id);
      if b in w1.mem && w1.mem[b].bytes.Some? then
        SetSection(w1, id, w1.shared[id].body.(data := w1.mem[b].bytes.value, current := Some(b)))
      else w1.(ok := false)
  }

  ghost function SwapEach(w: World, mods: Graph<Buf>, ids: seq<Id>): World
    decreases |ids|
  {
    if ids == [] then w
    else if ids[0] !in mods then w.(ok := false)
    else SwapEach(SwapIn(w, ids[0], mods[ids[0]].body), mods, ids[1..])
  }

  ghost function StartExecute(w: World, l: nat): World
    requires l < |w.loaders|
  {
    SwapEach(w, w.loaders[l].mods, w.loaders[l].order)
  }

  /** The running process stores one byte into a data section. */
  ghost function Store(w: World, id: Id, off: nat, v: Byte): World
    requires id in w.shared && off < |w.shared[id].body.data|
  {
    SetSection(w, id, w.shared[id].body.(data := w.shared[id].body.data[off := v]))
  }

  // ----- Loading -----

  /** Take one more reference on each id of `ds`. */
  ghost function RefEach<T>(g: Graph<T>, ds: seq<Id>): (Graph<T>, bool) {
    if ds == [] then (g, true)
    else if ds[0] !in g then (g, false)
    else RefEach(g[ds[0] := g[ds[0]].(refcount := g[ds[0]].refcount + 1)], ds[1..])
  }

  ghost function OpenShared(w: World, e: Entry): World {
    if e.id in w.shared then w
    else
      var r := RefEach(w.shared, e.deps);
      w.(shared := r.0[e.id := Node(e.deps, 0, w.clock, Section(e.image, e.image, None))],
         clock := w.clock + 1, ok := w.ok && r.1)
  }

  ghost function AddModule(w: World, l: nat, e: Entry): World
    requires l < |w.loaders| && e.id in w.shared
  {
    var n := w.shared[e.id];
    var w1 := SaveCurrent(w.(shared := w.shared[e.id := n.(refcount := n.refcount + 1)]), e.id);
    var w2 := SetSection(w1, e.id, w1.shared[e.id].body.(data := n.body.template, current := Some(e.addr)));
    var ld := w2.loaders[l];
    var r := RefEach(ld.mods, e.deps);
    w2.(mem := w2.mem[e.addr := Cell(l, e.id, None)],
        loaders := w2.loaders[l := ld.(order := ld.order + [e.id], mods := r.0[e.id := Node(e.deps, 0, w2.clock, e.addr)])],
        clock := w2.clock + 1, ok := w2.ok && r.1)
  }

  ghost function LoadEntry(w: World, l: nat, e: Entry): (w': World)
    requires l < |w.loaders|
    ensures |w'.loaders| == |w.loaders|
  {
    if !e.found then w
    else
      var w1 := OpenShared(w, e);
      if e.id in w1.loaders[l].mods then w1 else AddModule(w1, l, e)
  }

  ghost function LoadEach(w: World, l: nat, es: seq<Entry>): (w': World)
    requires l < |w.loaders|
    ensures |w'.loaders| == |w.loaders|
    decreases |es|
  {
    if es == [] then w else LoadEach(LoadEntry(w, l, es[0]), l, es[1..])
  }

  /** The module a load answers with: the last entry that was found. */
  function LastFound(es: seq<Entry>): Option<Id> {
    if es == [] then None
    else if es[|es| - 1].found then Some(es[|es| - 1].id)
    else LastFound(es[..|es| - 1])
  }

  ghost function Load(w: World, l: nat, es: seq<Entry>): World
    requires l < |w.loaders|
  {
    var w1 := LoadEach(w, l, es);
    match LastFound(es)
    case None => w1
    case Some(id) =>
      var ld := w1.loaders[l];
      if id !in ld.mods then w1.(ok := false)
      else w1.(loaders := w1.loaders[l := ld.(
        mods := ld.mods[id := ld.mods[id].(refcount := ld.mods[id].refcount + 1)],
        clients := ld.clients[id := At(ld.clients, id) + 1],
        claims := ld.claims[id := At(ld.claims, id) + 1])])
  }

  // ----- Fork -----

  /** Copy module `id` of loader `l` to the last loader. */
  ghost function CloneModule(w: World, l: nat, id: Id, addr: Buf): (w': World)
    requires l < |w.loaders|
    ensures |w'.loaders| == |w.loaders|
  {
    var from := w.loaders[l];
    if id !in from.mods || id !in w.shared then w.(ok := false)
    else
      var n, c := |w.loaders| - 1, from.mods[id].refcount;
      var clone := w.loaders[n];
      var r := RefEach(clone.mods, from.mods[id].deps);
      var clone' := Loader(
        clone.order + [id],
        r.0[id := Node(from.mods[id].deps, c, w.clock, addr)],
        clone.clients[id := At(from.clients, id)],
        clone.claims[id := c]);
      w.(shared := w.shared[id := w.shared[id].(refcount := w.shared[id].refcount + 1)],
         mem := w.mem[addr := Cell(n, id, Some(w.shared[id].body.data))],
         loaders := w.loaders[n := clone'],
         clock := w.clock + 1, ok := w.ok && r.1)
  }

  ghost function CloneEach(w: World, l: nat, ids: seq<Id>, addrs: seq<Buf>): (w': World)
    requires l < |w.loaders| && |addrs| == |ids|
    ensures |w'.loaders| == |w.loaders|
    decreases |ids|
  {
    if ids == [] then w else CloneEach(CloneModule(w, l, ids[0], addrs[0]), l, ids[1..], addrs[1..])
  }

  ghost function Clone(w: World, l: nat, addrs: seq<Buf>): World
    requires l < |w.loaders| && |addrs| == |w.loaders[l].order|
  {
    CloneEach(w.(loaders := w.loaders + [Empty]), l, w.loaders[l].order, addrs)
  }

  // ----- Unloading -----

  /** The end of a module: its bytes stop being current, its library loses a reference, its buffer goes. */
  ghost function Finish(w: World, id: Id, b: Buf): World {
    if id !in w.shared || b !in w.mem then w.(ok := false)
    else
      var w1 := if w.shared[id].body.current == Some(b) then SetSection(w, id, w.shared[id].body.(current := None)) else w;
      var r := Unref(w1.shared, id);
      w1.(shared := r.0, mem := w1.mem - {b}, ok := w1.ok && r.1)
  }

  /** `s` without the first occurrence of `x`. */
  ghost function Without(s: seq<Id>, x: Id): seq<Id> {
    if s == [] then [] else if s[0] == x then s[1..] else [s[0]] + Without(s[1..], x)
  }

  ghost function Dropped(ld: Loader, id: Id): Loader {
    ld.(order := Without(ld.order, id), mods := ld.mods - {id})
  }

  ghost function Unload(w: World, l: nat, id: Id): (w': World)
    requires l < |w.loaders|
    ensures |w'.loaders| == |w.loaders| && w'.loaders[l].mods.Keys <= w.loaders[l].mods.Keys
    decreases w.loaders[l].mods.Keys, 0, 0
  {
    var ld := w.loaders[l];
    if id !in ld.mods then w
    else if ld.mods[id].refcount == 0 then w.(ok := false)
    else if ld.mods[id].refcount > 1 then w.(loaders := w.loaders[l := ld.(mods := Decremented(ld.mods, id))])
    else
      var w1 := w.(loaders := w.loaders[l := Dropped(ld, id)]);
      assert id in ld.mods.Keys && id !in w1.loaders[l].mods.Keys;
      Finish(UnloadEach(w1, l, ld.mods[id].deps), id, ld.mods[id].body)
  }

  ghost function UnloadEach(w: World, l: nat, ds: seq<Id>): (w': World)
    requires l < |w.loaders|
    ensures |w'.loaders| == |w.loaders| && w'.loaders[l].mods.Keys <= w.loaders[l].mods.Keys
    decreases w.loaders[l].mods.Keys, 1, |ds|
  {
    if ds == [] then w else UnloadEach(Unload(w, l, ds[0]), l, ds[1..])
  }

  function Less(m: Roots, x: Id): Roots {
    m[x := if At(m, x) == 0 then 0 else At(m, x) - 1]
  }

  /** The client gives back one of its loads. */
  ghost function Release(w: World, l: nat, id: Id): World
    requires l < |w.loaders|
  {
    var ld := w.loaders[l];
    Unload(w.(loaders := w.loaders[l := ld.(clients := Less(ld.clients, id), claims := Less(ld.claims, id))]), l, id)
  }

  ghost function FinishEach(w: World, mods: Graph<Buf>, ids: seq<Id>): World
    decreases |ids|
  {
    if ids == [] then w
    else if ids[0] !in mods then w.(ok := false)
    else FinishEach(Finish(w, ids[0], mods[ids[0]].body), mods, ids[1..])
  }

  ghost function UnloadAll(w: World, l: nat): World
    requires l < |w.loaders|
  {
    var w1 := FinishEach(w, w.loaders[l].mods, w.loaders[l].order);
    w1.(loaders := if l < |w1.loaders| then w1.loaders[l := Empty] else w1.loaders)
  }
}
