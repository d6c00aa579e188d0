/** What every run says about the counts and the order inside one loader. */
module CoojaClaims {
  import opened Basics
  import opened RefGraph
  import opened CoojaLoader
  import opened CoojaInvariant
  import opened CoojaUnload
  import opened CoojaRelease
  import opened CoojaLoad
  import opened CoojaClone
  import opened CoojaRuns

  // ----- Order and counts -----

  /**
   * In every reachable state the module list is in dependency order, every module's count is
   * its claims plus its dependents, and these are at least the loads the process has not given
   * back plus the dependents; so what is still needed is listed.
   */
  lemma RunModulesNeeded(ms: seq<Machine>, ops: seq<Op>, i: nat, l: nat, j: nat)
    requires Execution(ms, ops) && i <= |ops| && l < |ms[i].w.loaders| && j < |ms[i].w.loaders[l].order|
    ensures var ld := ms[i].w.loaders[l];
            var x := ld.order[j];
            && x in ld.mods
            && ld.mods[x].refcount == At(ld.claims, x) + Count(AllEdges(ld.mods), x)
            && ld.mods[x].refcount >= At(ld.clients, x) + Count(AllEdges(ld.mods), x)
            && forall d :: d in ld.mods[x].deps ==> exists k :: 0 <= k < j && ld.order[k] == d
  {
    hide SharedCounted, Memory, Enabled, Do;
    RunRefines(ms, ops, i);
    var ld := ms[i].w.loaders[l];
    assert LoaderOk(ld);
    ModuleNeeded(ld, j);
  }

  lemma ModuleNeeded(ld: Loader, j: nat)
    requires LoaderOk(ld) && j < |ld.order|
    ensures var x := ld.order[j];
            && x in ld.mods
            && ld.mods[x].refcount == At(ld.claims, x) + Count(AllEdges(ld.mods), x)
            && ld.mods[x].refcount >= At(ld.clients, x) + Count(AllEdges(ld.mods), x)
            && forall d :: d in ld.mods[x].deps ==> exists k :: 0 <= k < j && ld.order[k] == d
  {
    var x := ld.order[j];
    assert At(ld.clients, x) <= At(ld.claims, x);
    assert Occ([], x) == 0;
    forall d | d in ld.mods[x].deps ensures exists k :: 0 <= k < j && ld.order[k] == d {
      DependsEarlier(ld, j, d);
    }
  }

  lemma DependsEarlier(ld: Loader, j: nat, d: Id)
    requires Listed(ld) && Downward(ld.mods, AllEdges(ld.mods)) && j < |ld.order|
    requires ld.order[j] in ld.mods && d in ld.mods[ld.order[j]].deps
    ensures exists k :: 0 <= k < j && ld.order[k] == d
  {
    var e: Edges := AllEdges(ld.mods);
    assert d in e[ld.order[j]];
    var k := ListedAt(ld, d);
    assert ld.mods[ld.order[k]].serial < ld.mods[ld.order[j]].serial;
  }

  /** A data section is nobody's, or holds the bytes of exactly one process that has the library. */
  lemma RunCurrentLive(ms: seq<Machine>, ops: seq<Op>, i: nat, x: Id)
    requires Execution(ms, ops) && i <= |ops| && x in ms[i].w.shared && ms[i].w.shared[x].body.current.Some?
    ensures var w, b := ms[i].w, ms[i].w.shared[x].body.current.value;
            && b in w.mem && HasMod(w, w.mem[b].loader, x) && Mod(w, w.mem[b].loader, x).body == b
            && forall l: nat :: HasMod(w, l, x) && LiveAt(w, l, x) ==> l == w.mem[b].loader
  {
    hide SharedCounted, LoadersOk, Enabled, Do;
    RunRefines(ms, ops, i);
    var w, b := ms[i].w, ms[i].w.shared[x].body.current.value;
    assert b in w.mem && w.mem[b].id == x;
  }

  // ----- How loads and claims come and go -----

  /** What an operation makes of `had` loads of `x`, or claims on it, of process `k`. */
  ghost function After(m: Machine, op: Op, k: nat, x: Id, had: int): int {
    match op
    case LoadFile(es) => if m.running == Some(k) && AnswersWith(es, x) then had + 1 else had
    case Close(y) => if m.running == Some(k) && x == y then had - 1 else had
    case Drop(l) => if l == k then 0 else had
    case _ => had
  }

  /**
   * In every run a load adds one to the loads and to the claims of the running process on the last
   * file that was found, a close takes one back, the end of a process takes all of its own, and
   * nothing else changes them; a new process has none, and a clone the loads of its parent and a
   * claim more for every dependent.
   */
  lemma RunLoads(ms: seq<Machine>, ops: seq<Op>, i: nat, k: nat, x: Id)
    requires Execution(ms, ops) && i < |ops|
    ensures |ms[i + 1].w.loaders| == |ms[i].w.loaders| + if ops[i].Start? || ops[i].Fork? then 1 else 0
    ensures k < |ms[i].w.loaders| ==>
              && At(ms[i + 1].w.loaders[k].clients, x) == After(ms[i], ops[i], k, x, At(ms[i].w.loaders[k].clients, x))
              && At(ms[i + 1].w.loaders[k].claims, x) == After(ms[i], ops[i], k, x, At(ms[i].w.loaders[k].claims, x))
    ensures k == |ms[i].w.loaders| && ops[i].Start? ==>
              At(ms[i + 1].w.loaders[k].clients, x) == 0 && At(ms[i + 1].w.loaders[k].claims, x) == 0
    ensures k == |ms[i].w.loaders| && ops[i].Fork? ==>
              && HasRunning(ms[i])
              && At(ms[i + 1].w.loaders[k].clients, x) == At(ms[i].w.loaders[ms[i].running.value].clients, x)
              && At(ms[i + 1].w.loaders[k].claims, x) ==
                   At(ms[i].w.loaders[ms[i].running.value].claims, x) + Count(AllEdges(ms[i].w.loaders[ms[i].running.value].mods), x)
  {
    hide Inv, SwapEach, Load, Release, UnloadAll, Clone, SwitchedIn, ListOk, SameFiles, FreshAddrs, AnswersWith, Count, AllEdges;
    RunRefines(ms, ops, i);
    var m, m' := ms[i], ms[i + 1];
    assert Enabled(m, ops[i]) && m' == Do(m, ops[i]);
    match ops[i]
    case SwitchTo(l) => SwapEachLoaders(m.w, m.w.loaders[l].mods, m.w.loaders[l].order);
    case LoadFile(es) => LoadSafe(m.w, m.running.value, es);
    case Close(y) =>
      LoadClaims(m.w, m.running.value, y);
      ReleaseSafe(m.w, m.running.value, y);
    case Drop(l) => UnloadAllSafe(m.w, l);
    case Fork(addrs) =>
      CloneSafe(m.w, m.running.value, addrs);
      if k < |m.w.loaders| {
        assert m'.w.loaders[k] == m'.w.loaders[..|m.w.loaders|][k];
      }
    case _ =>
  }

  /** A load records the dependencies of every file that was found, as listed. */
  lemma RunDependencies(ms: seq<Machine>, ops: seq<Op>, i: nat, j: nat)
    requires Execution(ms, ops) && i < |ops| && ops[i].LoadFile? && j < |ops[i].es| && ops[i].es[j].found
    ensures var e := ops[i].es[j];
            && HasRunning(ms[i]) && HasMod(ms[i + 1].w, ms[i].running.value, e.id)
            && Mod(ms[i + 1].w, ms[i].running.value, e.id).deps == e.deps
            && e.id in ms[i + 1].w.shared && ms[i + 1].w.shared[e.id].deps == e.deps
  {
    hide LoadersOk, Load, SwitchedIn, ListOk, SameFiles, AnswersWith;
    RunRefines(ms, ops, i);
    RunRefines(ms, ops, i + 1);
    var m, l := ms[i], ms[i].running.value;
    assert Enabled(m, ops[i]) && ms[i + 1] == Do(m, ops[i]);
    LoadSafe(m.w, l, ops[i].es);
    EarlierSelf(ops[i].es, j);
    assert HasMod(ms[i + 1].w, l, ops[i].es[j].id);
    ModuleShared(ms[i + 1].w, l, ops[i].es[j].id, {});
  }

  // ----- Claims and loads agree until somebody forks -----

  /** No loader's loads or claims differ. */
  ghost predicate SameClaims(w: World, w': World) {
    && |w'.loaders| == |w.loaders|
    && forall k :: 0 <= k < |w.loaders| ==>
         w'.loaders[k].clients == w.loaders[k].clients && w'.loaders[k].claims == w.loaders[k].claims
  }

  lemma {:induction false} SwapEachLoaders(w: World, mods: Graph<Buf>, ids: seq<Id>)
    ensures SwapEach(w, mods, ids).loaders == w.loaders
    decreases |ids|
  {
    if ids != [] && ids[0] in mods {
      SwapEachLoaders(SwapIn(w, ids[0], mods[ids[0]].body), mods, ids[1..]);
    }
  }

  lemma LoadEntryClaims(w: World, l: nat, e: Entry)
    requires l < |w.loaders|
    ensures SameClaims(w, LoadEntry(w, l, e))
  {
    hide AddModule, RefEach;
    var w1 := OpenShared(w, e);
    if e.found && e.id !in w1.loaders[l].mods {
      AddModuleClaims(w1, l, e);
    }
  }

  lemma AddModuleClaims(w: World, l: nat, e: Entry)
    requires l < |w.loaders| && e.id in w.shared
    ensures SameClaims(w, AddModule(w, l, e))
  {
    hide RefEach;
  }

  lemma {:induction false} LoadEachClaims(w: World, l: nat, es: seq<Entry>)
    requires l < |w.loaders|
    ensures SameClaims(w, LoadEach(w, l, es))
    decreases |es|
  {
    hide LoadEntry;
    if es != [] {
      LoadEntryClaims(w, l, es[0]);
      LoadEachClaims(LoadEntry(w, l, es[0]), l, es[1..]);
    }
  }

  lemma FinishLoaders(w: World, id: Id, b: Buf)
    ensures Finish(w, id, b).loaders == w.loaders
  {
    hide Unref;
  }

  lemma {:induction false} FinishEachLoaders(w: World, mods: Graph<Buf>, ids: seq<Id>)
    ensures FinishEach(w, mods, ids).loaders == w.loaders
    decreases |ids|
  {
    hide Finish;
    if ids != [] && ids[0] in mods {
      FinishLoaders(w, ids[0], mods[ids[0]].body);
      FinishEachLoaders(Finish(w, ids[0], mods[ids[0]].body), mods, ids[1..]);
    }
  }

  lemma {:induction false} UnloadClaims(w: World, l: nat, id: Id)
    requires l < |w.loaders|
    ensures SameClaims(w, Unload(w, l, id))
    decreases w.loaders[l].mods.Keys, 0, 0
  {
    hide Finish, Without;
    var ld := w.loaders[l];
    if id in ld.mods && ld.mods[id].refcount == 1 {
      var w1 := w.(loaders := w.loaders[l := Dropped(ld, id)]);
      assert id in ld.mods.Keys && id !in w1.loaders[l].mods.Keys;
      UnloadEachClaims(w1, l, ld.mods[id].deps);
      FinishLoaders(UnloadEach(w1, l, ld.mods[id].deps), id, ld.mods[id].body);
    }
  }

  lemma {:induction false} UnloadEachClaims(w: World, l: nat, ds: seq<Id>)
    requires l < |w.loaders|
    ensures SameClaims(w, UnloadEach(w, l, ds))
    decreases w.loaders[l].mods.Keys, 1, |ds|
  {
    hide Unload;
    if ds != [] {
      UnloadClaims(w, l, ds[0]);
      UnloadEachClaims(Unload(w, l, ds[0]), l, ds[1..]);
    }
  }

  /** Every claim on a module is a load that has not been given back. */
  ghost predicate Even(ld: Loader) {
    forall x :: At(ld.claims, x) == At(ld.clients, x)
  }

  ghost predicate AllEven(w: World) {
    forall k :: 0 <= k < |w.loaders| ==> Even(w.loaders[k])
  }

  lemma SameClaimsEven(w: World, w': World)
    requires AllEven(w) && SameClaims(w, w')
    ensures AllEven(w')
  {
    forall k | 0 <= k < |w'.loaders| ensures Even(w'.loaders[k]) {
      assert Even(w.loaders[k]);
    }
  }

  lemma EvenChanged(ld: Loader, ld': Loader, id: Id)
    requires Even(ld)
    requires
      || (ld'.clients == ld.clients[id := At(ld.clients, id) + 1] && ld'.claims == ld.claims[id := At(ld.claims, id) + 1])
      || (ld'.clients == Less(ld.clients, id) && ld'.claims == Less(ld.claims, id))
    ensures Even(ld')
  {
    forall x ensures At(ld'.claims, x) == At(ld'.clients, x) {
      assert At(ld.claims, x) == At(ld.clients, x);
      assert At(ld.claims, id) == At(ld.clients, id);
    }
  }

  lemma AllEvenBut(w: World, w': World, l: nat)
    requires AllEven(w) && l < |w.loaders| && |w'.loaders| == |w.loaders| && Even(w'.loaders[l])
    requires forall k :: 0 <= k < |w.loaders| && k != l ==> w'.loaders[k] == w.loaders[k]
    ensures AllEven(w')
  {
    hide Even;
  }

  lemma LoadEven(w: World, l: nat, es: seq<Entry>)
    requires AllEven(w) && l < |w.loaders|
    ensures AllEven(Load(w, l, es))
  {
    hide LoadEach;
    LoadEachClaims(w, l, es);
    SameClaimsEven(w, LoadEach(w, l, es));
    var w1, w' := LoadEach(w, l, es), Load(w, l, es);
    if LastFound(es).Some? && LastFound(es).value in w1.loaders[l].mods {
      EvenChanged(w1.loaders[l], w'.loaders[l], LastFound(es).value);
      AllEvenBut(w1, w', l);
    }
  }

  lemma ReleaseEven(w: World, l: nat, x: Id)
    requires AllEven(w) && l < |w.loaders|
    ensures AllEven(Release(w, l, x))
  {
    hide Unload, Less;
    var ld := w.loaders[l];
    var w1 := w.(loaders := w.loaders[l := ld.(clients := Less(ld.clients, x), claims := Less(ld.claims, x))]);
    EvenChanged(ld, w1.loaders[l], x);
    AllEvenBut(w, w1, l);
    UnloadClaims(w1, l, x);
    SameClaimsEven(w1, Unload(w1, l, x));
  }

  lemma StepEven(m: Machine, op: Op)
    requires AllEven(m.w) && Enabled(m, op) && !op.Fork?
    ensures AllEven(Do(m, op).w)
  {
    hide SwapEach, Load, Release, FinishEach, Inv;
    match op
    case SwitchTo(l) => SwapEachLoaders(m.w, m.w.loaders[l].mods, m.w.loaders[l].order);
    case LoadFile(es) => LoadEven(m.w, m.running.value, es);
    case Close(x) => ReleaseEven(m.w, m.running.value, x);
    case Drop(l) => FinishEachLoaders(m.w, m.w.loaders[l].mods, m.w.loaders[l].order);
    case _ =>
  }

  /**
   * Until the first fork a module's count is exactly its loads plus its dependents.
   * `ForkPins` shows how a fork makes it larger in the clone.
   */
  lemma {:induction false} RunEvenUntilFork(ms: seq<Machine>, ops: seq<Op>, i: nat)
    requires Execution(ms, ops) && i <= |ops| && forall j :: 0 <= j < i ==> !ops[j].Fork?
    ensures AllEven(ms[i].w)
  {
    hide Do, Enabled;
    if i > 0 {
      RunEvenUntilFork(ms, ops, i - 1);
      assert Enabled(ms[i - 1], ops[i - 1]) && ms[i] == Do(ms[i - 1], ops[i - 1]);
      StepEven(ms[i - 1], ops[i - 1]);
    }
  }

  // ----- What is pinned stays -----

  /** The claims beyond the loads. */
  ghost function Excess(w: World, k: nat, x: Id): int
    requires k < |w.loaders|
  {
    At(w.loaders[k].claims, x) - At(w.loaders[k].clients, x)
  }

  lemma SameClaimsExcess(w: World, w': World, k: nat, x: Id)
    requires SameClaims(w, w') && k < |w.loaders|
    ensures Excess(w', k, x) == Excess(w, k, x)
  {}

  lemma LoadExcess(w: World, l: nat, es: seq<Entry>, k: nat, x: Id)
    requires l < |w.loaders| && k < |w.loaders|
    ensures |Load(w, l, es).loaders| == |w.loaders| && Excess(Load(w, l, es), k, x) == Excess(w, k, x)
  {
    hide LoadEach;
    LoadEachClaims(w, l, es);
    SameClaimsExcess(w, LoadEach(w, l, es), k, x);
  }

  lemma ReleaseExcess(w: World, l: nat, y: Id, k: nat, x: Id)
    requires l < |w.loaders| && k < |w.loaders| && LoaderOk(w.loaders[l]) && At(w.loaders[l].clients, y) > 0
    ensures |Release(w, l, y).loaders| == |w.loaders| && Excess(Release(w, l, y), k, x) == Excess(w, k, x)
  {
    hide Unload, Less, Counted, Listed;
    var ld := w.loaders[l];
    var w1 := w.(loaders := w.loaders[l := ld.(clients := Less(ld.clients, y), claims := Less(ld.claims, y))]);
    assert At(ld.clients, y) <= At(ld.claims, y);
    LessAt(ld.clients, y, x);
    LessAt(ld.claims, y, x);
    UnloadClaims(w1, l, y);
    SameClaimsExcess(w1, Unload(w1, l, y), k, x);
  }

  /** Nothing but the end of the process changes how far a module's claims exceed its loads. */
  lemma StepExcess(m: Machine, op: Op, k: nat, x: Id)
    requires MachineInv(m) && Enabled(m, op) && k < |m.w.loaders| && op != Drop(k)
    ensures var m' := Do(m, op); k < |m'.w.loaders| && Excess(m'.w, k, x) == Excess(m.w, k, x)
  {
    hide SwapEach, Load, Release, FinishEach, Clone, Counted, Listed, SharedCounted, Memory, SwitchedIn, ListOk, SameFiles, FreshAddrs;
    match op
    case SwitchTo(l) => SwapEachLoaders(m.w, m.w.loaders[l].mods, m.w.loaders[l].order);
    case LoadFile(es) => LoadExcess(m.w, m.running.value, es, k, x);
    case Close(y) => ReleaseExcess(m.w, m.running.value, y, k, x);
    case Drop(l) => FinishEachLoaders(m.w, m.w.loaders[l].mods, m.w.loaders[l].order);
    case Fork(addrs) =>
      CloneSafe(m.w, m.running.value, addrs);
      var w' := Clone(m.w, m.running.value, addrs);
      assert w'.loaders[k] == w'.loaders[..|m.w.loaders|][k];
    case _ =>
  }

  /** A pinned module stays pinned, and listed, whatever is loaded and closed, until its process ends. */
  lemma {:induction false} RunPinned(ms: seq<Machine>, ops: seq<Op>, i: nat, j: nat, k: nat, x: Id)
    requires Execution(ms, ops) && i <= j <= |ops| && k < |ms[i].w.loaders|
    requires forall n :: i <= n < j ==> ops[n] != Drop(k)
    ensures k < |ms[j].w.loaders|
    ensures Pinned(ms[j].w.loaders[k], x) <==> Pinned(ms[i].w.loaders[k], x)
    ensures Excess(ms[j].w, k, x) == Excess(ms[i].w, k, x)
    ensures Pinned(ms[i].w.loaders[k], x) ==> x in ms[j].w.loaders[k].mods
    decreases j
  {
    hide Do, Enabled, SharedCounted, Memory, SwitchedIn, Listed;
    if j > i {
      RunPinned(ms, ops, i, j - 1, k, x);
      RunRefines(ms, ops, j - 1);
      assert Enabled(ms[j - 1], ops[j - 1]) && ms[j] == Do(ms[j - 1], ops[j - 1]);
      StepExcess(ms[j - 1], ops[j - 1], k, x);
    }
    RunRefines(ms, ops, j);
    assert LoaderOk(ms[j].w.loaders[k]);
  }

  /** What keeps a module listed when every load has been given back: a pin, or that nobody ever took a reference on it. */
  ghost function Leftovers(ld: Loader): Roots {
    map x | x in ld.claims.Keys + ld.mods.Keys :: if Pinned(ld, x) || x in Zeros(ld.mods) then 1 else 0
  }

  lemma ClosedOut(ld: Loader, x: Id)
    requires LoaderOk(ld) && forall y :: At(ld.clients, y) == 0
    ensures x in ld.mods <==> Reachable(ld.mods, Leftovers(ld), x)
  {
    hide Listed, Reachable;
    var roots := Leftovers(ld);
    LeftoversMean(ld);
    if x in ld.mods {
      ListedReachable(ld, ld.mods, roots, x);
    }
    if Reachable(ld.mods, roots, x) {
      var p := PathOf(ld.mods, roots, x);
      PathListed(ld, ld.mods, roots, p, |p| - 1);
    }
  }

  lemma LeftoversMean(ld: Loader)
    requires Counted(ld, []) && forall y :: At(ld.clients, y) == 0
    ensures forall z :: z in ld.mods && (At(ld.claims, z) > 0 || ld.mods[z].refcount == 0) ==> At(Leftovers(ld), z) > 0
    ensures forall z :: At(Leftovers(ld), z) > 0 ==> z in ld.mods
  {
    forall z | z in ld.mods && ld.mods[z].refcount == 0 ensures z in Zeros(ld.mods) {}
  }

  /**
   * In every reachable state in which a process has given back all its loads, a module is still in
   * its list exactly if a pinned module, or one never referenced, reaches it through dependencies.
   */
  lemma RunClosedOut(ms: seq<Machine>, ops: seq<Op>, i: nat, k: nat, x: Id)
    requires Execution(ms, ops) && i <= |ops| && k < |ms[i].w.loaders|
    requires forall y :: At(ms[i].w.loaders[k].clients, y) == 0
    ensures var ld := ms[i].w.loaders[k]; x in ld.mods <==> Reachable(ld.mods, Leftovers(ld), x)
  {
    hide SharedCounted, Memory, LoaderOk, Reachable, SwitchedIn;
    RunRefines(ms, ops, i);
    ClosedOut(ms[i].w.loaders[k], x);
  }

  // A library 2 that depends on a library 1 is loaded, and the process forks.

  const First: Entry := Entry(true, 1, [], [], 10)
  const Second: Entry := Entry(true, 2, [1], [], 11)

  const Fresh: World := World(map[], map[], [Empty], 0, true)

  const OneLoaded: World := World(
    map[1 := Node([], 1, 0, Section([], [], Some(10)))],
    map[10 := Cell(0, 1, None)],
    [Loader([1], map[1 := Node([], 0, 1, 10)], map[], map[])], 2, true)

  const BothLoaded: World := World(
    map[1 := Node([], 2, 0, Section([], [], Some(10))), 2 := Node([1], 1, 2, Section([], [], Some(11)))],
    map[10 := Cell(0, 1, None), 11 := Cell(0, 2, None)],
    [Loader([1, 2], map[1 := Node([], 1, 1, 10), 2 := Node([1], 0, 3, 11)], map[], map[])], 4, true)

  const Loaded: World := BothLoaded.(loaders := [Loader([1, 2],
    map[1 := Node([], 1, 1, 10), 2 := Node([1], 1, 3, 11)], map[2 := 1], map[2 := 1])])

  lemma LoadFirst()
    ensures LoadEntry(Fresh, 0, First) == OneLoaded
  {
    var w1 := OpenShared(Fresh, First);
    assert w1.shared == map[1 := Node([], 0, 0, Section([], [], None))];
    var a := AddModule(w1, 0, First);
    assert a.shared == OneLoaded.shared && a.mem == OneLoaded.mem;
    assert a.loaders[0].order == [1] && a.loaders[0].mods == map[1 := Node([], 0, 1, 10)];
    assert a.loaders == OneLoaded.loaders;
  }

  lemma LoadSecond()
    ensures LoadEntry(OneLoaded, 0, Second) == BothLoaded
  {
    RefOne(OneLoaded.shared, 1);
    RefOne(OneLoaded.loaders[0].mods, 1);
    var w1 := OpenShared(OneLoaded, Second);
    assert w1.shared == map[1 := Node([], 2, 0, Section([], [], Some(10))), 2 := Node([1], 0, 2, Section([], [], None))];
    var a := AddModule(w1, 0, Second);
    assert a.shared == BothLoaded.shared && a.mem == BothLoaded.mem;
    assert a.loaders[0].order == [1, 2] && a.loaders[0].mods == BothLoaded.loaders[0].mods;
    assert a.loaders == BothLoaded.loaders;
  }

  lemma RefOne<T>(g: Graph<T>, d: Id)
    requires d in g
    ensures RefEach(g, [d]) == (g[d := g[d].(refcount := g[d].refcount + 1)], true)
  {
    assert [d][1..] == [];
  }

  lemma LoadBoth()
    ensures Load(Fresh, 0, [First, Second]) == Loaded
  {
    hide LoadEntry;
    LoadFirst();
    LoadSecond();
    var es := [First, Second];
    assert es[1..] == [Second] && [Second][1..] == [];
    assert LoadEach(OneLoaded, 0, [Second]) == BothLoaded;
    assert LoadEach(Fresh, 0, es) == BothLoaded;
    assert LastFound(es) == Some(2);
    var w := Load(Fresh, 0, es);
    assert w.loaders[0].mods == Loaded.loaders[0].mods && w.loaders[0].claims == map[2 := 1];
    assert w.loaders == Loaded.loaders;
  }

  lemma CanLoad()
    ensures ListOk(Fresh, 0, [First, Second]) && SameFiles(Fresh, [First, Second])
  {
    var es := [First, Second];
    EarlierSelf(es[..1], 0);
    assert Earlier(es, 1, 1);
  }

  lemma LoadedRun() returns (ms: seq<Machine>, ops: seq<Op>)
    ensures Execution(ms, ops) && |ops| == 3 && ms[3] == Machine(Loaded, Some(0))
  {
    hide Load, StartExecute, ListOk, SameFiles;
    LoadBoth();
    CanLoad();
    NothingToSwap();
    var m1, m2 := Machine(Fresh, None), Machine(Fresh, Some(0));
    assert Do(Init, Start) == m1 && Do(m1, SwitchTo(0)) == m2;
    assert Do(m2, LoadFile([First, Second])) == Machine(Loaded, Some(0));
    ms, ops := [Init, m1, m2, Machine(Loaded, Some(0))], [Start, SwitchTo(0), LoadFile([First, Second])];
  }

  lemma RunExtends(ms: seq<Machine>, ops: seq<Op>, op: Op)
    requires Execution(ms, ops) && Enabled(ms[|ops|], op)
    ensures Execution(ms + [Do(ms[|ops|], op)], ops + [op])
  {
    hide Enabled, Do;
    var ms', ops' := ms + [Do(ms[|ops|], op)], ops + [op];
    forall i | 0 <= i < |ops'| ensures Enabled(ms'[i], ops'[i]) && ms'[i + 1] == Do(ms'[i], ops'[i]) {
      if i < |ops| {
        assert ms'[i] == ms[i] && ms'[i + 1] == ms[i + 1] && ops'[i] == ops[i];
      }
    }
  }

  lemma ForkedRun() returns (ms: seq<Machine>, ops: seq<Op>)
    ensures Execution(ms, ops) && |ops| == 4 && ops[3].Fork?
    ensures var ld := ms[4].w.loaders;
            |ld| == 2 && (forall x :: At(ld[1].clients, x) == if x == 2 then 1 else 0) && Pinned(ld[1], 1)
  {
    hide Clone, Inv, Pinned, SwitchedIn, Execution;
    ms, ops := LoadedRun();
    LoadedState(ms, ops);
    assert AllEdges(Loaded.loaders[0].mods)[2] == [1];
    CountHeld(AllEdges(Loaded.loaders[0].mods), 2, 1);
    CloneSafe(Loaded, 0, [20, 21]);
    ForkPins(Loaded, 0, [20, 21], 1);
    RunExtends(ms, ops, Fork([20, 21]));
    ms, ops := ms + [Do(ms[3], Fork([20, 21]))], ops + [Fork([20, 21])];
  }

  lemma LoadedState(ms: seq<Machine>, ops: seq<Op>)
    requires Execution(ms, ops) && |ops| == 3 && ms[3] == Machine(Loaded, Some(0))
    ensures |ms| == 4 && Inv(Loaded) && SwitchedIn(Loaded, 0)
  {
    hide Inv, SwitchedIn;
    RunRefines(ms, ops, 3);
  }

  /** The clone closes all it inherited, and a library is still in its list. */
  lemma PinnedRun() returns (ms: seq<Machine>, ops: seq<Op>)
    ensures Execution(ms, ops) && |ops| == 6 && ops[3].Fork? && ops[5] == Close(2)
    ensures var ld := ms[6].w.loaders;
            |ld| == 2 && (forall x :: At(ld[1].clients, x) == 0) && 1 in ld[1].mods
  {
    hide StartExecute, Release, Inv, Pinned, Counted, SwitchedIn, PrivKept;
    ms, ops := ForkedRun();
    RunRefines(ms, ops, 4);
    var m4 := ms[4];
    StartExecuteSafe(m4.w, 1);
    RunExtends(ms, ops, SwitchTo(1));
    var m5 := Do(m4, SwitchTo(1));
    ms, ops := ms + [m5], ops + [SwitchTo(1)];
    RunExtends(ms, ops, Close(2));
    LoadClaims(m5.w, 1, 2);
    ReleaseSafe(m5.w, 1, 2);
    forall x ensures At(Do(m5, Close(2)).w.loaders[1].clients, x) == 0 {
      LessAt(m5.w.loaders[1].clients, 2, x);
    }
    ms, ops := ms + [Do(m5, Close(2))], ops + [Close(2)];
    RunPinned(ms, ops, 4, 6, 1, 1);
  }

  lemma NothingToSwap()
    ensures StartExecute(Fresh, 0) == Fresh
  {}

  /** In every reachable state each module has bytes: none is ever uninitialised. */
  lemma RunBytesDefined(ms: seq<Machine>, ops: seq<Op>, i: nat, l: nat, x: Id)
    requires Execution(ms, ops) && i <= |ops|
    ensures Priv(ms[i].w, l, x).Some? <==> HasMod(ms[i].w, l, x)
  {
    hide SharedCounted, LoadersOk, Enabled, Do;
    RunRefines(ms, ops, i);
    PrivDefined(ms[i].w, l, x);
  }
}
