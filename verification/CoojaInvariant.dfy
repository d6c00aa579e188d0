/**
 * What holds of the loader's tables between any two operations, and in the middle of an unload.
 *
 * `SharedCounted` is about the counts of the library table alone; `Memory` about who owns which
 * buffer and whose bytes are where; `LoaderOk` about each module list by itself.  An unload keeps
 * the first two and, for its own list, the counts short of the references still to be dropped; a
 * buffer whose module has left the list but is not freed yet is `dying`.
 */
module CoojaInvariant {
  import opened Basics
  import opened RefGraph
  import opened CoojaLoader

  // ----- The invariant -----

  /** The buffers of the modules that map library `x`, over all loaders. */
  ghost function Mapped(mem: map<Buf, Cell>, x: Id): set<Buf> {
    set b | b in mem && mem[b].id == x
  }

  /** How many modules map each library. */
  ghost function Mappings(mem: map<Buf, Cell>): Roots {
    map x | x in (set b | b in mem :: mem[b].id) :: |Mapped(mem, x)|
  }

  lemma MappingsAt(mem: map<Buf, Cell>, x: Id)
    ensures At(Mappings(mem), x) == |Mapped(mem, x)|
  {
    if x !in Mappings(mem) {
      assert Mapped(mem, x) == {};
    }
  }

  ghost predicate Present(order: seq<Id>, mods: Graph<Buf>) {
    forall i :: 0 <= i < |order| ==> order[i] in mods
  }

  ghost predicate Sorted(order: seq<Id>, mods: Graph<Buf>)
    requires Present(order, mods)
  {
    forall i, j :: 0 <= i < j < |order| ==> mods[order[i]].serial < mods[order[j]].serial
  }

  ghost predicate Covers(order: seq<Id>, mods: Graph<Buf>) {
    forall x {:trigger x in mods} :: x in mods ==> exists i :: 0 <= i < |order| && order[i] == x
  }

  /** The list and the table agree, and the list is in creation order. */
  ghost predicate Listed(ld: Loader) {
    Present(ld.order, ld.mods) && Sorted(ld.order, ld.mods) && Covers(ld.order, ld.mods)
  }

  /** `pending` are references about to be dropped. */
  ghost predicate Counted(ld: Loader, pending: seq<Id>) {
    && Exact(ld.mods, ld.claims, pending, AllEdges(ld.mods))
    && Downward(ld.mods, AllEdges(ld.mods))
    && Closed(ld.mods, ld.claims, pending)
  }

  ghost predicate LoaderOk(ld: Loader) {
    Counted(ld, []) && Listed(ld) && forall x :: At(ld.clients, x) <= At(ld.claims, x)
  }

  ghost predicate LoadersOk(w: World) {
    forall k :: 0 <= k < |w.loaders| ==> LoaderOk(w.loaders[k])
  }

  ghost predicate HasMod(w: World, k: int, x: Id) {
    0 <= k < |w.loaders| && x in w.loaders[k].mods
  }

  ghost function Mod(w: World, k: int, x: Id): Node<Buf>
    requires HasMod(w, k, x)
  {
    w.loaders[k].mods[x]
  }

  /** Every module owns the buffer it points to, and records its library's dependencies. */
  ghost predicate Owns(w: World) {
    forall k, x {:trigger HasMod(w, k, x)} :: HasMod(w, k, x) ==>
      var n := Mod(w, k, x);
      && n.body in w.mem && w.mem[n.body].loader == k && w.mem[n.body].id == x
      && x in w.shared && w.shared[x].deps == n.deps
      && n.serial < w.clock
  }

  /** Every allocated buffer belongs to a module in a list, except those in `dying`. */
  ghost predicate Owned(w: World, dying: set<Buf>) {
    forall b {:trigger w.mem[b]} :: b in w.mem && b !in dying ==>
      HasMod(w, w.mem[b].loader, w.mem[b].id) && Mod(w, w.mem[b].loader, w.mem[b].id).body == b
  }

  /** No listed module points to a dying buffer. */
  ghost predicate Unlisted(w: World, dying: set<Buf>) {
    forall k, x {:trigger HasMod(w, k, x)} :: HasMod(w, k, x) ==> Mod(w, k, x).body !in dying
  }

  /** A current buffer is allocated for that library. */
  ghost predicate CurrentAllocated(w: World) {
    forall x {:trigger w.shared[x]} :: x in w.shared && w.shared[x].body.current.Some? ==>
      var b := w.shared[x].body.current.value;
      b in w.mem && w.mem[b].id == x
  }

  /** A buffer whose bytes are not in it is the current one of its library. */
  ghost predicate Filled(w: World) {
    forall b {:trigger w.mem[b]} :: b in w.mem ==>
      w.mem[b].id in w.shared && (w.mem[b].bytes.Some? || w.shared[w.mem[b].id].body.current == Some(b))
  }

  ghost predicate Young(w: World) {
    forall x {:trigger w.shared[x]} :: x in w.shared ==> w.shared[x].serial < w.clock
  }

  /** The library table's own counts. */
  ghost predicate SharedCounted(w: World) {
    Sound(w.shared, Mappings(w.mem), []) && Zeros(w.shared) == {}
  }

  ghost predicate Memory(w: World, dying: set<Buf>) {
    w.ok && Owns(w) && Owned(w, dying) && Unlisted(w, dying) && CurrentAllocated(w) && Filled(w) && Young(w)
  }

  ghost predicate Core(w: World, dying: set<Buf>) {
    SharedCounted(w) && Memory(w, dying)
  }

  ghost predicate Inv(w: World) {
    Core(w, {}) && LoadersOk(w)
  }

  // ----- The simple view: every process has private bytes for each of its modules -----

  /** The bytes loader `l` sees in library `x`. */
  ghost function Priv(w: World, l: nat, x: Id): Option<Bytes> {
    if HasMod(w, l, x) && x in w.shared then
      var b := Mod(w, l, x).body;
      if w.shared[x].body.current == Some(b) then Some(w.shared[x].body.data)
      else if b in w.mem then w.mem[b].bytes
      else None
    else None
  }

  /** The data section of `x` holds loader `k`'s bytes right now. */
  ghost predicate LiveAt(w: World, k: int, x: Id)
    requires HasMod(w, k, x)
  {
    x in w.shared && w.shared[x].body.current == Some(Mod(w, k, x).body)
  }

  /** All of loader `l`'s bytes are in the data sections. */
  ghost predicate SwitchedIn(w: World, l: nat) {
    forall x {:trigger HasMod(w, l, x)} :: HasMod(w, l, x) ==> LiveAt(w, l, x)
  }

  ghost predicate SamePriv(w: World, w': World) {
    forall l: nat, x: Id :: Priv(w', l, x) == Priv(w, l, x)
  }

  /** Each module has bytes: none is uninitialised. */
  lemma PrivDefined(w: World, l: nat, x: Id)
    requires Memory(w, {})
    ensures Priv(w, l, x).Some? <==> HasMod(w, l, x)
  {
    if HasMod(w, l, x) {
      assert w.mem[Mod(w, l, x).body].id == x;
    }
  }

  // ----- Moving the invariant across changes that do not touch the counting -----

  lemma SoundSame<T>(g: Graph<T>, g': Graph<T>, r: Roots, r': Roots)
    requires Sound(g, r, []) && Zeros(g) == {}
    requires forall x :: At(r', x) == At(r, x)
    requires g'.Keys == g.Keys
    requires forall x :: x in g ==> g'[x] == g[x].(body := g'[x].body)
    ensures Sound(g', r', []) && Zeros(g') == {}
  {
    assert LiveEdges(g') == LiveEdges(g);
    assert forall x :: x in g' ==> x in g && x !in Zeros(g);
  }

  lemma MappedSame(m: map<Buf, Cell>, m': map<Buf, Cell>)
    requires m'.Keys == m.Keys && forall b :: b in m ==> m'[b].id == m[b].id
    ensures Mappings(m') == Mappings(m)
  {
    forall x ensures Mapped(m', x) == Mapped(m, x) {}
    assert Mappings(m').Keys == Mappings(m).Keys;
  }

  /** Only bytes and current buffers differ. */
  ghost predicate SameTables(w: World, w': World) {
    && w'.loaders == w.loaders && w'.clock == w.clock
    && w'.shared.Keys == w.shared.Keys
    && (forall x :: x in w.shared ==> w'.shared[x] == w.shared[x].(body := w'.shared[x].body))
    && w'.mem.Keys == w.mem.Keys
    && (forall b :: b in w.mem ==> w'.mem[b] == w.mem[b].(bytes := w'.mem[b].bytes))
  }

  lemma SameTablesCounted(w: World, w': World)
    requires SharedCounted(w) && SameTables(w, w')
    ensures SharedCounted(w')
  {
    MappedSame(w.mem, w'.mem);
    SoundSame(w.shared, w'.shared, Mappings(w.mem), Mappings(w'.mem));
  }

  // ----- Switching in -----

  lemma SaveCurrentSafe(w: World, x: Id, dying: set<Buf>)
    requires Memory(w, dying) && x in w.shared
    ensures var w' := SaveCurrent(w, x);
            SameTables(w, w') && Memory(w', dying) && w'.shared == w.shared
    ensures forall b :: b in w.mem && Some(b) != w.shared[x].body.current ==> SaveCurrent(w, x).mem[b] == w.mem[b]
    ensures forall b :: b in w.mem && Some(b) == w.shared[x].body.current ==>
              SaveCurrent(w, x).mem[b].bytes == Some(w.shared[x].body.data)
  {
    SameModules(w, SaveCurrent(w, x));
  }

  lemma SameModules(w: World, w': World)
    requires w'.loaders == w.loaders
    ensures forall k, x {:trigger HasMod(w', k, x)} :: HasMod(w', k, x) <==> HasMod(w, k, x)
    ensures forall k, x {:trigger Mod(w', k, x)} :: HasMod(w', k, x) ==> Mod(w', k, x) == Mod(w, k, x)
  {}

  lemma SaveCurrentPriv(w: World, x: Id, dying: set<Buf>)
    requires Memory(w, dying) && x in w.shared
    ensures SamePriv(w, SaveCurrent(w, x))
  {
    SaveCurrentSafe(w, x, dying);
    SameModules(w, SaveCurrent(w, x));
  }

  lemma RestoreSafe(w: World, l: nat, x: Id, dying: set<Buf>)
    requires Memory(w, dying) && HasMod(w, l, x)
    requires var b := Mod(w, l, x).body; w.mem[b].bytes.Some? && w.shared[x].body.current != Some(b)
    requires forall b :: Some(b) == w.shared[x].body.current ==> w.mem[b].bytes == Some(w.shared[x].body.data)
    ensures var b := Mod(w, l, x).body;
            var w' := SetSection(w, x, w.shared[x].body.(data := w.mem[b].bytes.value, current := Some(b)));
            SameTables(w, w') && Memory(w', dying) && SamePriv(w, w')
  {
    var b := Mod(w, l, x).body;
    var w' := SetSection(w, x, w.shared[x].body.(data := w.mem[b].bytes.value, current := Some(b)));
    SameModules(w, w');
    forall k: nat, y: Id ensures Priv(w', k, y) == Priv(w, k, y) {
      if HasMod(w, k, y) && y == x {
        assert k != l ==> Mod(w, k, y).body != b;
      }
    }
  }

  /** Swapping one section in moves bytes around but changes nobody's private view. */
  lemma SwapInSafe(w: World, l: nat, x: Id, dying: set<Buf>)
    requires Memory(w, dying) && HasMod(w, l, x)
    ensures var w' := SwapIn(w, x, Mod(w, l, x).body);
            && SameTables(w, w') && Memory(w', dying) && SamePriv(w, w')
            && w'.shared[x].body.current == Some(Mod(w, l, x).body)
            && forall y :: y in w.shared && y != x ==> w'.shared[y] == w.shared[y]
  {
    var b := Mod(w, l, x).body;
    if w.shared[x].body.current != Some(b) {
      SaveCurrentSafe(w, x, dying);
      SaveCurrentPriv(w, x, dying);
      var w1 := SaveCurrent(w, x);
      SameModules(w, w1);
      assert w.mem[b].bytes.Some?;
      RestoreSafe(w1, l, x, dying);
    }
  }
}
