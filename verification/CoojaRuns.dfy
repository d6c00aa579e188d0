/** Every run of the loader. */
module CoojaRuns {
  import opened Basics
  import opened RefGraph
  import opened CoojaLoader
  import opened CoojaInvariant
  import opened CoojaUnload
  import opened CoojaRelease
  import opened CoojaLoad
  import opened CoojaClone

  // The lazy scheme refines the obvious one, in which each process simply has its own copy of
  // every library it loaded: after any run, the bytes a process sees are the ones that scheme
  // would give it, nothing is ever read before it is written or after it is freed, and a library
  // is open exactly as long as some live module needs it.

  // ----- Runs -----

  /**
   * What can happen next.  All but `Start`, `SwitchTo` and `Drop` are done by the running
   * process to itself; `Drop` is an exit, or the deletion of some other process.
   */
  datatype Op =
    | Start
    | SwitchTo(l: nat)
    | StoreByte(x: Id, off: nat, v: Byte)
    | LoadFile(es: seq<Entry>)
    | Fork(addrs: seq<Buf>)
    | Close(x: Id)
    | Drop(l: nat)

  datatype Machine = Machine(w: World, running: Option<nat>)

  const Init: Machine := Machine(World(map[], map[], [], 0, true), None)

  ghost predicate HasRunning(m: Machine) {
    m.running.Some? && m.running.value < |m.w.loaders|
  }

  /** A library that is open was opened from the file that is being loaded again. */
  ghost predicate SameFiles(w: World, es: seq<Entry>) {
    forall i :: 0 <= i < |es| && es[i].found && es[i].id in w.shared ==> w.shared[es[i].id].body.template == es[i].image
  }

  ghost predicate Enabled(m: Machine, op: Op) {
    match op
    case Start => true
    case SwitchTo(l) => l < |m.w.loaders|
    case StoreByte(x, off, v) =>
      HasRunning(m) && HasMod(m.w, m.running.value, x) && x in m.w.shared && off < |m.w.shared[x].body.data|
    case LoadFile(es) => HasRunning(m) && ListOk(m.w, m.running.value, es) && SameFiles(m.w, es)
    case Fork(addrs) =>
      HasRunning(m) && |addrs| == |m.w.loaders[m.running.value].order| && FreshAddrs(m.w, addrs)
    case Close(x) => HasRunning(m) && At(m.w.loaders[m.running.value].clients, x) > 0
    case Drop(l) => l < |m.w.loaders|
  }

  ghost function Do(m: Machine, op: Op): Machine
    requires Enabled(m, op)
  {
    match op
    case Start => m.(w := m.w.(loaders := m.w.loaders + [Empty]))
    case SwitchTo(l) => Machine(StartExecute(m.w, l), Some(l))
    case StoreByte(x, off, v) => m.(w := Store(m.w, x, off, v))
    case LoadFile(es) => m.(w := Load(m.w, m.running.value, es))
    case Fork(addrs) => m.(w := Clone(m.w, m.running.value, addrs))
    case Close(x) => m.(w := Release(m.w, m.running.value, x))
    case Drop(l) => m.(w := UnloadAll(m.w, l))
  }

  ghost predicate Execution(ms: seq<Machine>, ops: seq<Op>) {
    && |ms| == |ops| + 1 && ms[0] == Init
    && forall i :: 0 <= i < |ops| ==> Enabled(ms[i], ops[i]) && ms[i + 1] == Do(ms[i], ops[i])
  }

  ghost predicate MachineInv(m: Machine) {
    && Inv(m.w)
    && (m.running.Some? ==> m.running.value < |m.w.loaders| && SwitchedIn(m.w, m.running.value))
  }

  // ----- The obvious scheme -----

  /** For every process, its own bytes of each library it has loaded. */
  type Private = seq<map<Id, Bytes>>

  function Put(m: map<Id, Bytes>, x: Id, b: Bytes): map<Id, Bytes> {
    m[x := b]
  }

  /** One step of the scheme in which nothing is shared. */
  ghost predicate PrivateNext(a: Private, r: Option<nat>, op: Op, a': Private) {
    match op
    case Start => a' == a + [map[]]
    case SwitchTo(l) => a' == a
    case StoreByte(x, off, v) =>
      r.Some? && r.value < |a| && x in a[r.value] && off < |a[r.value][x]| &&
      a' == a[r.value := Put(a[r.value], x, a[r.value][x][off := v])]
    case LoadFile(es) =>
      r.Some? && r.value < |a| == |a'| && a' == a[r.value := a'[r.value]] &&
      (forall x :: x in a'[r.value] <==> x in a[r.value] || Earlier(es, |es|, x)) &&
      (forall x :: x in a[r.value] ==> a'[r.value][x] == a[r.value][x]) &&
      (forall i :: 0 <= i < |es| && es[i].found && es[i].id !in a[r.value] ==> a'[r.value][es[i].id] == es[i].image)
    case Fork(_) => r.Some? && r.value < |a| && a' == a + [a[r.value]]
    case Close(_) =>
      r.Some? && r.value < |a| == |a'| && a' == a[r.value := a'[r.value]] &&
      forall x :: x in a'[r.value] ==> x in a[r.value] && a'[r.value][x] == a[r.value][x]
    case Drop(l) => l < |a| && a' == a[l := map[]]
  }

  /** What the loader's tables mean. */
  ghost function SeenBytes(w: World, l: nat, x: Id): Bytes {
    match Priv(w, l, x) case Some(b) => b case None => []
  }

  ghost function View(w: World, l: nat): map<Id, Bytes>
    requires l < |w.loaders|
  {
    map x | x in w.loaders[l].mods :: SeenBytes(w, l, x)
  }

  ghost function Abs(w: World): (a: Private)
    ensures |a| == |w.loaders| && forall l :: 0 <= l < |a| ==> a[l] == View(w, l)
  {
    seq(|w.loaders|, l requires 0 <= l < |w.loaders| => View(w, l))
  }

  // ----- Each step refines the obvious scheme -----

  lemma ViewSame(w: World, w': World, l: nat)
    requires l < |w.loaders| && l < |w'.loaders|
    requires forall x {:trigger HasMod(w', l, x)} :: HasMod(w', l, x) <==> HasMod(w, l, x)
    requires forall x :: HasMod(w, l, x) ==> Priv(w', l, x) == Priv(w, l, x)
    ensures View(w', l) == View(w, l)
  {
    hide Priv;
    forall x ensures x in w'.loaders[l].mods <==> x in w.loaders[l].mods {
      assert HasMod(w', l, x) <==> HasMod(w, l, x);
    }
    forall x | x in w.loaders[l].mods ensures SeenBytes(w', l, x) == SeenBytes(w, l, x) {
      assert HasMod(w, l, x);
    }
  }

  lemma SwitchRefines(m: Machine, l: nat)
    requires MachineInv(m) && l < |m.w.loaders|
    ensures var m' := Do(m, SwitchTo(l));
            MachineInv(m') && PrivateNext(Abs(m.w), m.running, SwitchTo(l), Abs(m'.w))
  {
    hide Inv, SwitchedIn, Priv, View, StartExecute;
    var w' := StartExecute(m.w, l);
    StartExecuteSafe(m.w, l);
    SameModules(m.w, w');
    forall k | 0 <= k < |m.w.loaders| ensures View(w', k) == View(m.w, k) {
      ViewSame(m.w, w', k);
    }
  }

  lemma StartRefines(m: Machine)
    requires MachineInv(m)
    ensures var m' := Do(m, Start);
            MachineInv(m') && PrivateNext(Abs(m.w), m.running, Start, Abs(m'.w))
  {
    hide Inv, SwitchedIn, Priv;
    var w' := Do(m, Start).w;
    NewLoaderInv(m.w);
    if m.running.Some? {
      NewLoaderSwitched(m.w, m.running.value);
    }
    forall k | 0 <= k < |m.w.loaders| ensures View(w', k) == View(m.w, k) {
      ViewSame(m.w, w', k);
    }
    assert View(w', |m.w.loaders|) == map[];
  }

  lemma StoreRefines(m: Machine, x: Id, off: nat, v: Byte)
    requires MachineInv(m) && Enabled(m, StoreByte(x, off, v))
    ensures var m' := Do(m, StoreByte(x, off, v));
            MachineInv(m') && PrivateNext(Abs(m.w), m.running, StoreByte(x, off, v), Abs(m'.w))
  {
    hide Inv, SwitchedIn, Priv, Store;
    var w, l := m.w, m.running.value;
    var w' := Store(w, x, off, v);
    StoreSafe(w, l, x, off, v);
    SameModules(w, w');
    forall k | 0 <= k < |w.loaders| && k != l ensures View(w', k) == View(w, k) {
      ViewSame(w, w', k);
    }
    forall y | y in w.loaders[l].mods && y != x ensures SeenBytes(w', l, y) == SeenBytes(w, l, y) {
      assert Priv(w', l, y) == Priv(w, l, y);
    }
    assert View(w', l) == Put(View(w, l), x, SeenBytes(w, l, x)[off := v]);
    assert Abs(w') == Abs(w)[l := View(w', l)];
  }

  lemma LoadRefines(m: Machine, es: seq<Entry>)
    requires MachineInv(m) && Enabled(m, LoadFile(es))
    ensures var m' := Do(m, LoadFile(es));
            MachineInv(m') && PrivateNext(Abs(m.w), m.running, LoadFile(es), Abs(m'.w))
  {
    hide Inv, SwitchedIn, Priv, Load, ListOk, Earlier;
    var w, l := m.w, m.running.value;
    var w' := Load(w, l, es);
    LoadSafe(w, l, es);
    forall k | 0 <= k < |w.loaders| && k != l ensures View(w', k) == View(w, k) {
      forall x {:trigger HasMod(w', k, x)} ensures HasMod(w', k, x) <==> HasMod(w, k, x) {}
      ViewSame(w, w', k);
    }
    assert Abs(w') == Abs(w)[l := View(w', l)];
    forall x ensures x in View(w', l) <==> x in View(w, l) || Earlier(es, |es|, x) {
      assert HasMod(w', l, x) <==> HasMod(w, l, x) || Earlier(es, |es|, x);
    }
    forall x | x in View(w, l) ensures View(w', l)[x] == View(w, l)[x] {
      assert HasMod(w, l, x) && HasMod(w', l, x);
    }
    forall i | 0 <= i < |es| && es[i].found && es[i].id !in View(w, l)
      ensures es[i].id in View(w', l) && View(w', l)[es[i].id] == es[i].image
    {
      EarlierSelf(es, i);
      assert !HasMod(w, l, es[i].id) && HasMod(w', l, es[i].id);
      assert Priv(w', l, es[i].id) == Some(Template(w, es[i]));
    }
  }

  lemma EarlierSelf(es: seq<Entry>, i: nat)
    requires i < |es| && es[i].found
    ensures Earlier(es, |es|, es[i].id)
  {}

  lemma ForkRefines(m: Machine, addrs: seq<Buf>)
    requires MachineInv(m) && Enabled(m, Fork(addrs))
    ensures var m' := Do(m, Fork(addrs));
            MachineInv(m') && PrivateNext(Abs(m.w), m.running, Fork(addrs), Abs(m'.w))
  {
    hide Inv, SwitchedIn, Priv, Clone, FreshAddrs;
    var w, l, n := m.w, m.running.value, |m.w.loaders|;
    var w' := Clone(w, l, addrs);
    CloneSafe(w, l, addrs);
    forall k | 0 <= k < n ensures View(w', k) == View(w, k) {
      assert w'.loaders[k] == w'.loaders[..n][k] == w.loaders[k];
      forall x {:trigger HasMod(w', k, x)} ensures HasMod(w', k, x) <==> HasMod(w, k, x) {}
      ViewSame(w, w', k);
    }
    CloneKeys(w, w', l);
    forall x | x in w.loaders[l].mods ensures SeenBytes(w', n, x) == SeenBytes(w, l, x) {
      assert Priv(w', n, x) == Priv(w, l, x);
    }
    assert View(w', n) == View(w, l);
  }

  lemma CloneKeys(w: World, w': World, l: nat)
    requires Inv(w) && Inv(w') && l < |w.loaders| < |w'.loaders|
    requires w'.loaders[|w.loaders|].order == w.loaders[l].order
    ensures w'.loaders[|w.loaders|].mods.Keys == w.loaders[l].mods.Keys
  {
    hide SharedCounted, Memory, Counted, Sorted;
    var a, b := w.loaders[l], w'.loaders[|w.loaders|];
    assert LoaderOk(a) && LoaderOk(b);
    forall x ensures x in a.mods <==> x in b.mods {
      if x in a.mods {
        var i := ListedAt(a, x);
        assert b.order[i] in b.mods;
      }
      if x in b.mods {
        var i := ListedAt(b, x);
        assert a.order[i] in a.mods;
      }
    }
  }

  lemma CloseRefines(m: Machine, x: Id)
    requires MachineInv(m) && Enabled(m, Close(x))
    ensures var m' := Do(m, Close(x));
            MachineInv(m') && PrivateNext(Abs(m.w), m.running, Close(x), Abs(m'.w))
  {
    hide Inv, SwitchedIn, Priv, Release, LiveAt;
    var w, l := m.w, m.running.value;
    var w' := Release(w, l, x);
    LoadClaims(w, l, x);
    ReleaseSafe(w, l, x);
    PrivKeptSwitched(w, w', l);
    forall k | 0 <= k < |w.loaders| && k != l ensures View(w', k) == View(w, k) {
      KeptView(w, w', k);
    }
    assert Abs(w') == Abs(w)[l := View(w', l)];
    forall y | y in View(w', l) ensures y in View(w, l) && View(w', l)[y] == View(w, l)[y] {
      assert HasMod(w', l, y);
    }
  }

  lemma KeptView(w: World, w': World, k: nat)
    requires PrivKept(w, w') && k < |w.loaders| && k < |w'.loaders| && w'.loaders[k] == w.loaders[k]
    ensures View(w', k) == View(w, k)
  {
    hide Priv, LiveAt;
    forall x {:trigger HasMod(w', k, x)} ensures HasMod(w', k, x) <==> HasMod(w, k, x) {}
    forall x | HasMod(w, k, x) ensures Priv(w', k, x) == Priv(w, k, x) {
      assert HasMod(w', k, x);
    }
    ViewSame(w, w', k);
  }

  lemma DropRefines(m: Machine, l: nat)
    requires MachineInv(m) && l < |m.w.loaders|
    ensures var m' := Do(m, Drop(l));
            MachineInv(m') && PrivateNext(Abs(m.w), m.running, Drop(l), Abs(m'.w))
  {
    hide Inv, SwitchedIn, Priv, UnloadAll, LiveAt;
    var w := m.w;
    var w' := UnloadAll(w, l);
    UnloadAllSafe(w, l);
    if m.running.Some? {
      PrivKeptSwitched(w, w', m.running.value);
    }
    forall k | 0 <= k < |w.loaders| && k != l ensures View(w', k) == View(w, k) {
      KeptView(w, w', k);
    }
    assert View(w', l) == map[];
  }

  /** Each step keeps the tables sound and does to the private bytes what the obvious scheme does. */
  lemma StepRefines(m: Machine, op: Op)
    requires MachineInv(m) && Enabled(m, op)
    ensures MachineInv(Do(m, op))
    ensures PrivateNext(Abs(m.w), m.running, op, Abs(Do(m, op).w))
  {
    hide MachineInv, Do, PrivateNext, Abs;
    match op
    case Start => StartRefines(m);
    case SwitchTo(l) => SwitchRefines(m, l);
    case StoreByte(x, off, v) => StoreRefines(m, x, off, v);
    case LoadFile(es) => LoadRefines(m, es);
    case Fork(addrs) => ForkRefines(m, addrs);
    case Close(x) => CloseRefines(m, x);
    case Drop(l) => DropRefines(m, l);
  }

  lemma InitInv()
    ensures MachineInv(Init) && Abs(Init.w) == []
  {
    var m: map<Buf, Cell> := map[];
    assert forall x :: At(Mappings(m), x) == 0;
    forall x ensures Occ([], x) == 0 {}
  }

  /** Over every run: no fault, sound tables, and a matching run of the obvious scheme. */
  lemma {:induction false} RunRefines(ms: seq<Machine>, ops: seq<Op>, i: nat)
    requires Execution(ms, ops) && i <= |ops|
    ensures MachineInv(ms[i]) && ms[i].w.ok
    ensures Abs(ms[0].w) == []
    ensures forall j :: 0 <= j < i ==> PrivateNext(Abs(ms[j].w), ms[j].running, ops[j], Abs(ms[j + 1].w))
  {
    hide Inv, SwitchedIn, Do, Enabled, PrivateNext, Abs;
    InitInv();
    if i > 0 {
      RunRefines(ms, ops, i - 1);
      assert Enabled(ms[i - 1], ops[i - 1]) && ms[i] == Do(ms[i - 1], ops[i - 1]);
      StepRefines(ms[i - 1], ops[i - 1]);
    }
    NoFault(ms[i]);
  }

  lemma NoFault(m: Machine)
    requires MachineInv(m)
    ensures m.w.ok
  {}

  // ----- What that gives a process when it is switched in -----

  /** After a switch, each data section of the process holds exactly what it last left there. */
  lemma RunSwitchRestores(ms: seq<Machine>, ops: seq<Op>, i: nat, x: Id)
    requires Execution(ms, ops) && i < |ops| && ops[i].SwitchTo?
    requires HasMod(ms[i].w, ops[i].l, x)
    ensures var w' := ms[i + 1].w;
            && x in w'.shared
            && ops[i].l < |Abs(ms[i].w)| && x in Abs(ms[i].w)[ops[i].l]
            && w'.shared[x].body.data == Abs(ms[i].w)[ops[i].l][x]
  {
    hide SharedCounted, Memory, LoadersOk;
    RunRefines(ms, ops, i);
    var w, l := ms[i].w, ops[i].l;
    StartExecuteSafe(w, l);
    assert Enabled(ms[i], ops[i]) && ms[i + 1] == Do(ms[i], ops[i]);
    SwitchedPriv(StartExecute(w, l), l, x);
    assert Priv(StartExecute(w, l), l, x) == Priv(w, l, x);
  }

  // ----- Reference counts over every run -----

  /** The processes that have library `x`. */
  ghost function Holders(w: World, x: Id): set<nat> {
    set l: nat | l < |w.loaders| && x in w.loaders[l].mods
  }

  lemma {:induction false} InjectiveCard(s: set<nat>, t: set<Buf>, f: map<nat, Buf>)
    requires f.Keys == s
    requires forall a, b :: a in s && b in s && f[a] == f[b] ==> a == b
    requires forall a :: a in s ==> f[a] in t
    requires forall b :: b in t ==> exists a :: a in s && f[a] == b
    ensures |s| == |t|
    decreases s
  {
    if a :| a in s {
      var t1 := t - {f[a]};
      forall b | b in t1 ensures exists c :: c in s - {a} && (f - {a})[c] == b {
        var c :| c in s && f[c] == b;
        assert c in s - {a} && (f - {a})[c] == b;
      }
      InjectiveCard(s - {a}, t1, f - {a});
    } else {
      assert s == {};
      assert t == {};
    }
  }

  lemma MappedHolders(w: World, x: Id)
    requires Memory(w, {})
    ensures |Mapped(w.mem, x)| == |Holders(w, x)|
  {
    hide CurrentAllocated, Filled, Young, Unlisted;
    var f: map<nat, Buf> := map l | l in Holders(w, x) :: w.loaders[l].mods[x].body;
    forall a | a in Holders(w, x) ensures f[a] in Mapped(w.mem, x) && w.mem[f[a]].loader == a {
      assert HasMod(w, a, x);
    }
    forall b | b in Mapped(w.mem, x) ensures exists a :: a in Holders(w, x) && f[a] == b {
      var l := w.mem[b].loader;
      assert HasMod(w, l, x);
      assert l in Holders(w, x) && f[l] == b;
    }
    InjectiveCard(Holders(w, x), Mapped(w.mem, x), f);
  }

  /**
   * In every reachable state a library's count is the number of processes that have it plus
   * the number of times open libraries list it as a dependency; and it is open exactly when
   * a chain of dependencies leads to it from a library some process has.
   */
  lemma RunCountsExact(ms: seq<Machine>, ops: seq<Op>, i: nat, x: Id)
    requires Execution(ms, ops) && i <= |ops|
    ensures var w := ms[i].w;
            && (x in w.shared ==>
                  w.shared[x].refcount == |Holders(w, x)| + Count(AllEdges(w.shared), x) && w.shared[x].refcount > 0)
            && (x in w.shared <==> Reachable(w.shared, Mappings(w.mem), x))
  {
    hide LoadersOk;
    RunRefines(ms, ops, i);
    CountsExact(ms[i].w, x);
  }

  lemma CountsExact(w: World, x: Id)
    requires Inv(w)
    ensures x in w.shared ==> w.shared[x].refcount == |Holders(w, x)| + Count(AllEdges(w.shared), x) && w.shared[x].refcount > 0
    ensures x in w.shared <==> Reachable(w.shared, Mappings(w.mem), x)
  {
    hide LoadersOk, Memory;
    MappedHolders(w, x);
    MappingsAt(w.mem, x);
    CountsOfSound(w.shared, Mappings(w.mem), x);
  }

  lemma CountsOfSound(g: Graph<Section>, roots: Roots, x: Id)
    requires Sound(g, roots, []) && Zeros(g) == {}
    ensures x in g ==> g[x].refcount == At(roots, x) + Count(AllEdges(g), x) && g[x].refcount > 0
    ensures x in g <==> Reachable(g, roots, x)
  {
    assert Occ([], x) == 0;
    forall y | y in g ensures y !in Zeros(g) {}
    assert LiveEdges(g) == AllEdges(g);
    if x in g {
      KeptIsReachable(g, roots, x);
    }
  }

  // ----- A fork pins what its modules depend on -----

  /** More claims on a module than loads that can be given back. */
  ghost predicate Pinned(ld: Loader, x: Id) {
    At(ld.claims, x) > At(ld.clients, x)
  }

  /** A fork pins in the clone exactly the modules with a dependent, and those pinned already. */
  lemma ForkPins(w: World, l: nat, addrs: seq<Buf>, x: Id)
    requires Inv(w) && l < |w.loaders| && SwitchedIn(w, l)
    requires |addrs| == |w.loaders[l].order| && FreshAddrs(w, addrs)
    ensures Pinned(Clone(w, l, addrs).loaders[|w.loaders|], x) <==>
              Count(AllEdges(w.loaders[l].mods), x) > 0 || Pinned(w.loaders[l], x)
  {
    hide SharedCounted, Memory, SwitchedIn, FreshAddrs, Clone;
    CloneSafe(w, l, addrs);
    assert LoaderOk(w.loaders[l]);
    assert At(w.loaders[l].clients, x) <= At(w.loaders[l].claims, x);
  }
}
