/**
 * The loader as it runs: one object holding the table of shared libraries, the allocated
 * private buffers and every process's module list, changed in place by loops and recursion.
 *
 * Each method leaves the tables as the corresponding function of `CoojaLoader` says; the
 * theorems of `CoojaRuns` are about those functions.  Where the code would dereference a null
 * or freed record the object raises `fault` instead and stops there.
 */
module CoojaTable {
  import opened Basics
  import opened RefGraph
  import opened CoojaLoader
  import opened CoojaInvariant
  import opened CoojaUnload
  import opened CoojaLoad

  class LoaderTable {
    var shared: Graph<Section>
    var mem: map<Buf, Cell>
    var loaders: seq<Loader>
    var clock: nat
    var fault: bool

    ghost function State(): World
      reads this
    {
      World(shared, mem, loaders, clock, !fault)
    }

    constructor ()
      ensures State() == World(map[], map[], [], 0, true)
    {
      shared, mem, loaders, clock, fault := map[], map[], [], 0, false;
    }

    method NewLoader() returns (l: nat)
      modifies this
      ensures l == old(|loaders|)
      ensures State() == old(State()).(loaders := old(loaders) + [Empty])
    {
      l := |loaders|;
      loaders := loaders + [Empty];
    }

    /** Save the live bytes of `id` in the buffer they belong to. */
    method SaveLive(id: Id)
      requires id in shared
      modifies this`mem, this`fault
      ensures State() == SaveCurrent(old(State()), id)
    {
      var s := shared[id].body;
      if s.current.Some? {
        var b := s.current.value;
        if b in mem {
          mem := mem[b := mem[b].(bytes := Some(s.data))];
        } else {
          fault := true;
        }
      }
    }

    method NotifyStartExecute(l: nat)
      requires l < |loaders|
      modifies this
      ensures State() == StartExecute(old(State()), l)
    {
      var order, mods := loaders[l].order, loaders[l].mods;
      var i := 0;
      while i < |order|
        invariant i <= |order|
        invariant SwapEach(State(), mods, order[i..]) == SwapEach(old(State()), mods, order)
      {
        var id := order[i];
        assert order[i..][0] == id && order[i..][1..] == order[i + 1..];
        if id !in mods {
          fault := true;
          return;
        }
        SwapModule(id, mods[id].body);
        i := i + 1;
      }
    }

    /** Make `b` the live buffer of library `id`. */
    method SwapModule(id: Id, b: Buf)
      modifies this
      ensures State() == SwapIn(old(State()), id, b)
    {
      if id !in shared {
        fault := true;
      } else if shared[id].body.current != Some(b) {
        SaveLive(id);
        if b in mem && mem[b].bytes.Some? {
          shared := shared[id := shared[id].(body := shared[id].body.(data := mem[b].bytes.value, current := Some(b)))];
        } else {
          fault := true;
        }
      }
    }

    /** The running process writes one byte of a data section. */
    method WriteByte(id: Id, off: nat, v: Byte)
      requires id in shared && off < |shared[id].body.data|
      modifies this
      ensures State() == Store(old(State()), id, off, v)
    {
      var s := shared[id].body;
      shared := shared[id := shared[id].(body := s.(data := s.data[off := v]))];
    }

    /** Count one more reference to each library or module of `ds`. */
    static method RefDeps<T>(g: Graph<T>, ds: seq<Id>) returns (g': Graph<T>, good: bool)
      ensures (g', good) == RefEach(g, ds)
    {
      g', good := g, true;
      var i := 0;
      while i < |ds|
        invariant i <= |ds|
        invariant good && RefEach(g, ds) == RefEach(g', ds[i..])
      {
        var d := ds[i];
        assert ds[i..][0] == d && ds[i..][1..] == ds[i + 1..];
        if d !in g' {
          return g', false;
        }
        g' := g'[d := g'[d].(refcount := g'[d].refcount + 1)];
        i := i + 1;
      }
    }

    method OpenLibrary(e: Entry)
      modifies this
      ensures State() == OpenShared(old(State()), e)
    {
      if e.id !in shared {
        var g, good := RefDeps(shared, e.deps);
        shared := g[e.id := Node(e.deps, 0, clock, Section(e.image, e.image, None))];
        clock := clock + 1;
        fault := fault || !good;
      }
    }

    method NewModule(l: nat, e: Entry)
      requires l < |loaders| && e.id in shared
      modifies this
      ensures State() == AddModule(old(State()), l, e)
    {
      shared := shared[e.id := shared[e.id].(refcount := shared[e.id].refcount + 1)];
      SaveLive(e.id);
      var s := shared[e.id].body;
      shared := shared[e.id := shared[e.id].(body := s.(data := s.template, current := Some(e.addr)))];
      mem := mem[e.addr := Cell(l, e.id, None)];
      var ld := loaders[l];
      var mods, good := RefDeps(ld.mods, e.deps);
      loaders := loaders[l := ld.(order := ld.order + [e.id], mods := mods[e.id := Node(e.deps, 0, clock, e.addr)])];
      clock := clock + 1;
      fault := fault || !good;
    }

    /** Go through the dependency list of a file; answer the last module that was found. */
    method LoadModule(l: nat, es: seq<Entry>) returns (r: Option<Id>)
      requires l < |loaders|
      modifies this
      ensures State() == LoadEach(old(State()), l, es)
      ensures r == LastFound(es) && forall x: Id :: r == Some(x) <==> AnswersWith(es, x)
    {
      r := None;
      var i := 0;
      while i < |es|
        invariant i <= |es| && l < |loaders|
        invariant r == LastFound(es[..i])
        invariant LoadEach(State(), l, es[i..]) == LoadEach(old(State()), l, es)
      {
        assert es[i..][0] == es[i] && es[i..][1..] == es[i + 1..];
        assert es[..i + 1][..i] == es[..i];
        if es[i].found {
          OpenLibrary(es[i]);
          if es[i].id !in loaders[l].mods {
            NewModule(l, es[i]);
          }
          r := Some(es[i].id);
        }
        i := i + 1;
      }
      assert es[..i] == es;
      LastFoundIs(es);
    }

    method LoadFile(l: nat, es: seq<Entry>) returns (r: Option<Id>)
      requires l < |loaders|
      modifies this
      ensures State() == Load(old(State()), l, es)
      ensures r == LastFound(es) && forall x: Id :: r == Some(x) <==> AnswersWith(es, x)
    {
      r := LoadModule(l, es);
      if r.Some? {
        var id, ld := r.value, loaders[l];
        if id !in ld.mods {
          fault := true;
        } else {
          loaders := loaders[l := ld.(
            mods := ld.mods[id := ld.mods[id].(refcount := ld.mods[id].refcount + 1)],
            clients := ld.clients[id := At(ld.clients, id) + 1],
            claims := ld.claims[id := At(ld.claims, id) + 1])];
        }
      }
    }

    method CopyModule(l: nat, id: Id, addr: Buf)
      requires l < |loaders|
      modifies this
      ensures State() == CloneModule(old(State()), l, id, addr)
    {
      var from := loaders[l];
      if id !in from.mods || id !in shared {
        fault := true;
        return;
      }
      var n, c := |loaders| - 1, from.mods[id].refcount;
      shared := shared[id := shared[id].(refcount := shared[id].refcount + 1)];
      mem := mem[addr := Cell(n, id, Some(shared[id].body.data))];
      var clone := loaders[n];
      var mods, good := RefDeps(clone.mods, from.mods[id].deps);
      loaders := loaders[n := Loader(
        clone.order + [id],
        mods[id := Node(from.mods[id].deps, c, clock, addr)],
        clone.clients[id := At(from.clients, id)],
        clone.claims[id := c])];
      clock := clock + 1;
      fault := fault || !good;
    }

    /** `addrs` are the buffers malloc answers with. */
    method CloneLoader(l: nat, addrs: seq<Buf>) returns (n: nat)
      requires l < |loaders| && |addrs| == |loaders[l].order|
      modifies this
      ensures n == old(|loaders|)
      ensures State() == Clone(old(State()), l, addrs)
    {
      var order := loaders[l].order;
      n := NewLoader();
      var i := 0;
      ghost var w := State();
      while i < |order|
        invariant i <= |order| && l < |loaders|
        invariant CloneEach(State(), l, order[i..], addrs[i..]) == CloneEach(w, l, order, addrs)
      {
        assert order[i..][1..] == order[i + 1..] && addrs[i..][1..] == addrs[i + 1..];
        CopyModule(l, order[i], addrs[i]);
        i := i + 1;
      }
    }

    /** Drop one reference to a library, and at zero the references it holds, then the library. */
    method UnrefSharedModule(id: Id)
      modifies this`shared, this`fault
      ensures (shared, !fault) == (Unref(old(shared), id).0, !old(fault) && Unref(old(shared), id).1)
      decreases Live(shared)
    {
      if id !in shared {
        return;
      }
      if shared[id].refcount == 0 {
        fault := true;
        return;
      }
      shared := shared[id := shared[id].(refcount := shared[id].refcount - 1)];
      if shared[id].refcount == 0 {
        var ds := shared[id].deps;
        ghost var g1, f := shared, fault;
        assert id !in Live(g1) && id in Live(old(shared));
        var i := 0;
        while i < |ds|
          invariant i <= |ds|
          invariant Live(shared) <= Live(g1)
          invariant UnrefEach(g1, ds).0 == UnrefEach(shared, ds[i..]).0
          invariant (!f && UnrefEach(g1, ds).1) == (!fault && UnrefEach(shared, ds[i..]).1)
        {
          assert ds[i..][0] == ds[i] && ds[i..][1..] == ds[i + 1..];
          UnrefSharedModule(ds[i]);
          i := i + 1;
        }
        shared := shared - {id};
      }
    }

    /** The end of a module: forget its bytes, drop its library, free its buffer. */
    method FreeModule(id: Id, b: Buf)
      modifies this
      ensures State() == Finish(old(State()), id, b)
    {
      if id !in shared || b !in mem {
        fault := true;
        return;
      }
      if shared[id].body.current == Some(b) {
        shared := shared[id := shared[id].(body := shared[id].body.(current := None))];
      }
      UnrefSharedModule(id);
      mem := mem - {b};
    }

    method UnloadModule(l: nat, id: Id)
      requires l < |loaders|
      modifies this
      ensures State() == Unload(old(State()), l, id)
      decreases loaders[l].mods.Keys
    {
      var ld := loaders[l];
      if id !in ld.mods {
        return;
      }
      var n := ld.mods[id];
      if n.refcount == 0 {
        fault := true;
        return;
      }
      if n.refcount > 1 {
        loaders := loaders[l := ld.(mods := ld.mods[id := n.(refcount := n.refcount - 1)])];
        return;
      }
      var order := EraseFirst(ld.order, id);
      loaders := loaders[l := ld.(order := order, mods := ld.mods - {id})];
      ghost var w := State();
      assert id in ld.mods.Keys && id !in w.loaders[l].mods.Keys;
      var i := 0;
      while i < |n.deps|
        invariant i <= |n.deps| && l < |loaders|
        invariant loaders[l].mods.Keys <= w.loaders[l].mods.Keys
        invariant UnloadEach(State(), l, n.deps[i..]) == UnloadEach(w, l, n.deps)
      {
        assert n.deps[i..][0] == n.deps[i] && n.deps[i..][1..] == n.deps[i + 1..];
        UnloadModule(l, n.deps[i]);
        i := i + 1;
      }
      FreeModule(id, n.body);
    }

    /** Erase the first occurrence of `x`. */
    static method EraseFirst(s: seq<Id>, x: Id) returns (r: seq<Id>)
      ensures r == Without(s, x)
    {
      hide Without;
      var i := 0;
      assert s[..0] + Without(s[0..], x) == Without(s, x) by {
        assert s[0..] == s;
      }
      while i < |s| && s[i] != x
        invariant i <= |s|
        invariant Without(s, x) == s[..i] + Without(s[i..], x)
      {
        WithoutOther(s, x, i);
        i := i + 1;
      }
      WithoutHere(s, x, i);
      return if i == |s| then s else s[..i] + s[i + 1..];
    }

    static lemma WithoutOther(s: seq<Id>, x: Id, i: nat)
      requires i < |s| && s[i] != x
      ensures s[..i] + Without(s[i..], x) == s[..i + 1] + Without(s[i + 1..], x)
    {
      assert s[i..][1..] == s[i + 1..];
      assert Without(s[i..], x) == [s[i]] + Without(s[i + 1..], x);
    }

    static lemma WithoutHere(s: seq<Id>, x: Id, i: nat)
      requires i <= |s| && (i < |s| ==> s[i] == x)
      ensures s[..i] + Without(s[i..], x) == if i == |s| then s else s[..i] + s[i + 1..]
    {
      assert i < |s| ==> s[i..][1..] == s[i + 1..];
    }

    /** The client closes one of its loads. */
    method ReleaseModule(l: nat, id: Id)
      requires l < |loaders|
      modifies this
      ensures State() == Release(old(State()), l, id)
    {
      var ld := loaders[l];
      loaders := loaders[l := ld.(clients := Less(ld.clients, id), claims := Less(ld.claims, id))];
      UnloadModule(l, id);
    }

    method UnloadEverything(l: nat)
      requires l < |loaders|
      modifies this
      ensures State() == UnloadAll(old(State()), l)
    {
      var order, mods := loaders[l].order, loaders[l].mods;
      var i := 0;
      while i < |order|
        invariant i <= |order| && loaders == old(loaders)
        invariant FinishEach(State(), mods, order[i..]) == FinishEach(old(State()), mods, order)
      {
        assert order[i..][0] == order[i] && order[i..][1..] == order[i + 1..];
        if order[i] !in mods {
          fault := true;
          break;
        }
        FreeModule(order[i], mods[order[i]].body);
        i := i + 1;
      }
      loaders := loaders[l := Empty];
    }
  }
}
