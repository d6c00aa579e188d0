/**
 * The two passes over the netlink messages, and the netmask loop, as they run on arrays.  `At` ties
 * a position of the nested loops to a position in the flat list of wanted messages.
 */
module NetdbTable {
  import opened Basics
  import opened IfAddr
  import opened Netdb

  /** After `i` responses and `j` messages of the next, `n` of the wanted messages have been met. */
  ghost predicate At(rs: seq<Response>, i: nat, msgs: seq<Msg>, j: nat, n: nat) {
    && i < |rs| && j <= |msgs| && n <= |AllWanted(rs)|
    && AllWanted(rs)[n..] == Wanted(msgs[j..]) + AllWanted(rs[i + 1..])
  }

  lemma AtFirst(rs: seq<Response>, i: nat, n: nat)
    requires i < |rs| && rs[i].present && n <= |AllWanted(rs)| && AllWanted(rs)[n..] == AllWanted(rs[i..])
    ensures At(rs, i, rs[i].msgs, 0, n)
  {
    assert rs[i..][1..] == rs[i + 1..] && rs[i].msgs[0..] == rs[i].msgs;
  }

  lemma HeadAt(w: seq<Msg>, n: nat, x: Msg, rest: seq<Msg>)
    requires n <= |w| && w[n..] == [x] + rest
    ensures n < |w| && w[n] == x && w[n + 1..] == rest
  {
    assert w[n] == w[n..][0];
    assert w[n + 1..] == w[n..][1..];
  }

  lemma AtWanted(rs: seq<Response>, i: nat, msgs: seq<Msg>, j: nat, n: nat)
    requires At(rs, i, msgs, j, n) && j < |msgs| && msgs[j] != Foreign && msgs[j] != Finished
    ensures n < |AllWanted(rs)| && AllWanted(rs)[n] == msgs[j] && At(rs, i, msgs, j + 1, n + 1)
  {
    hide AllWanted;
    var m, r := msgs[j..], AllWanted(rs[i + 1..]);
    assert m[0] == msgs[j] && m[1..] == msgs[j + 1..];
    assert Wanted(m) == [m[0]] + Wanted(m[1..]);
    assert ([m[0]] + Wanted(m[1..])) + r == [m[0]] + (Wanted(m[1..]) + r);
    HeadAt(AllWanted(rs), n, msgs[j], Wanted(msgs[j + 1..]) + r);
  }

  lemma AtForeign(rs: seq<Response>, i: nat, msgs: seq<Msg>, j: nat, n: nat)
    requires At(rs, i, msgs, j, n) && j < |msgs| && msgs[j] == Foreign
    ensures At(rs, i, msgs, j + 1, n)
  {
    assert msgs[j..][1..] == msgs[j + 1..];
  }

  lemma AtEnd(rs: seq<Response>, i: nat, msgs: seq<Msg>, j: nat, n: nat)
    requires At(rs, i, msgs, j, n) && (j == |msgs| || msgs[j] == Finished)
    ensures n <= |AllWanted(rs)| && AllWanted(rs)[n..] == AllWanted(rs[i + 1..])
  {
    assert Wanted(msgs[j..]) == [];
  }

  lemma AtAbsent(rs: seq<Response>, i: nat, n: nat)
    requires i < |rs| && !rs[i].present && n <= |AllWanted(rs)| && AllWanted(rs)[n..] == AllWanted(rs[i..])
    ensures AllWanted(rs)[n..] == AllWanted(rs[i + 1..])
  {
    assert rs[i..][1..] == rs[i + 1..];
  }

  lemma AtStart(rs: seq<Response>)
    ensures AllWanted(rs)[0..] == AllWanted(rs[0..])
  {
    assert rs[0..] == rs;
  }

  lemma NoneLeft(rs: seq<Response>, n: nat)
    requires n <= |AllWanted(rs)| && AllWanted(rs)[n..] == AllWanted(rs[|rs|..])
    ensures n == |AllWanted(rs)|
  {
    assert AllWanted(rs[|rs|..]) == [];
    assert |AllWanted(rs)[n..]| == |AllWanted(rs)| - n;
  }

  // ----- The first pass -----

  method StatsSize(attrs: seq<Attr>) returns (size: nat)
    ensures size == FirstStats(attrs)
  {
    var i := 0;
    while i < |attrs|
      invariant i <= |attrs| && FirstStats(attrs) == FirstStats(attrs[i..])
    {
      assert attrs[i..][0] == attrs[i] && attrs[i..][1..] == attrs[i + 1..];
      if attrs[i].Stats? {
        return attrs[i].size;
      }
      i := i + 1;
    }
    return 0;
  }

  method Count(rs: seq<Response>) returns (links: nat, addrs: nat, data: nat)
    ensures var ms := AllWanted(rs);
            links == LinkCount(ms, |ms|) && addrs == AddrCount(ms, |ms|) && data == DataCounted(ms, |ms|)
  {
    hide At, AllWanted;
    AtStart(rs);
    ghost var ms, n := AllWanted(rs), 0;
    links, addrs, data := 0, 0, 0;
    var i := 0;
    while i < |rs|
      invariant i <= |rs| && n <= |ms| && ms[n..] == AllWanted(rs[i..])
      invariant links == LinkCount(ms, n) && addrs == AddrCount(ms, n) && data == DataCounted(ms, n)
    {
      if !rs[i].present {
        AtAbsent(rs, i, n);
        i := i + 1;
        continue;
      }
      var msgs, j := rs[i].msgs, 0;
      AtFirst(rs, i, n);
      while j < |msgs| && msgs[j] != Finished
        invariant j <= |msgs| && n <= |ms| && At(rs, i, msgs, j, n)
        invariant links == LinkCount(ms, n) && addrs == AddrCount(ms, n) && data == DataCounted(ms, n)
      {
        if msgs[j] == Foreign {
          AtForeign(rs, i, msgs, j, n);
          j := j + 1;
          continue;
        }
        AtWanted(rs, i, msgs, j, n);
        if msgs[j].Link? {
          var size := StatsSize(msgs[j].attrs);
          data := data + size;
          links := links + 1;
        } else if msgs[j].Addr? {
          addrs := addrs + 1;
        }
        n := n + 1;
        j := j + 1;
      }
      AtEnd(rs, i, msgs, j, n);
      i := i + 1;
    }
    NoneLeft(rs, n);
  }

  // ----- The second pass -----

  ghost function State(ifas: array<Entry>, slots: array<int>, addrs: nat, used: nat): Asm
    reads ifas, slots
  {
    Asm(ifas[..], slots[..], addrs, used)
  }

  /** The slot of a kernel index less one; a new link takes the first free slot. */
  method FindSlot(index: int, ifas: array<Entry>, slots: array<int>) returns (s: nat)
    requires slots.Length <= ifas.Length && Slot(slots[..], index, 0) < slots.Length
    modifies ifas, slots
    ensures s == Slot(old(slots[..]), index, 0)
    ensures forall addrs: nat, used: nat :: State(ifas, slots, addrs, used) == MapNewlink(old(State(ifas, slots, addrs, used)), index)
  {
    s := 0;
    while slots[s] != -1 && slots[s] != index
      invariant s < slots.Length && Slot(slots[..], index, 0) == Slot(slots[..], index, s)
      decreases slots.Length - s
    {
      s := s + 1;
    }
    if slots[s] == -1 {
      slots[s] := index;
      if s > 0 {
        ifas[s - 1] := ifas[s - 1].(next := s);
      }
    }
  }

  method FillLink(ifas: array<Entry>, slots: array<int>, addrs: nat, used: nat, index: int, flags: nat, attrs: seq<Attr>)
    returns (used': nat)
    requires slots.Length <= ifas.Length && Slot(slots[..], index - 1, 0) < slots.Length
    modifies ifas, slots
    ensures State(ifas, slots, addrs, used') == StepLink(old(State(ifas, slots, addrs, used)), index, flags, attrs)
  {
    ghost var a := State(ifas, slots, addrs, used);
    var s := FindSlot(index - 1, ifas, slots);
    ghost var a1 := MapNewlink(a, index - 1);
    assert State(ifas, slots, addrs, used) == a1;
    ifas[s] := ifas[s].(flags := flags);
    used' := used;
    var i := 0;
    while i < |attrs|
      invariant i <= |attrs| && slots[..] == a1.slots
      invariant ifas[..] == a1.ifas[s := ifas[s]]
      invariant LinkAttrs(ifas[s], s, used', attrs[i..]) == LinkAttrs(a1.ifas[s].(flags := flags), s, used, attrs)
    {
      assert attrs[i..][0] == attrs[i] && attrs[i..][1..] == attrs[i + 1..];
      match attrs[i] {
        case Name(n) =>
          if |n| + 1 <= NAME_SIZE {
            ifas[s] := ifas[s].(buffer := n, name := s);
          }
        case Stats(size) =>
          ifas[s] := ifas[s].(data := Some((used', size)));
          used' := used' + size;
        case _ =>
      }
      i := i + 1;
    }
  }

  /** The loop over the attributes of an address message; `aborted` says that it met a label that is too long. */
  method FillAddrAttrs(ifas: array<Entry>, e: nat, index: int, family: nat, attrs: seq<Attr>) returns (aborted: bool)
    requires e < ifas.Length
    modifies ifas
    ensures aborted <==> TooLong(attrs)
    ensures !aborted ==> ifas[..] == old(ifas[..])[e := AddrAttrs(old(ifas[e]), e, attrs, family, index)]
  {
    hide Apply;
    var i := 0;
    while i < |attrs|
      invariant i <= |attrs|
      invariant ifas[..] == old(ifas[..])[e := ifas[e]]
      invariant AddrAttrs(ifas[e], e, attrs[i..], family, index) == AddrAttrs(old(ifas[e]), e, attrs, family, index)
      invariant forall k :: 0 <= k < i && attrs[k].Name? ==> |attrs[k].name| + 1 <= NAME_SIZE
    {
      assert attrs[i..][0] == attrs[i] && attrs[i..][1..] == attrs[i + 1..];
      if attrs[i].Name? {
        if |attrs[i].name| + 1 <= NAME_SIZE {
          ifas[e] := ifas[e].(buffer := attrs[i].name, name := e);
        } else {
          return true;
        }
      } else {
        ifas[e] := ifas[e].(sockets := Apply(ifas[e].sockets, attrs[i], family, index));
      }
      i := i + 1;
    }
    return false;
  }

  /** `aborted` says that the process ended at a label that is too long. */
  method FillAddr(ifas: array<Entry>, slots: array<int>, addrs: nat, used: nat,
      index: int, family: nat, prefix: nat, attrs: seq<Attr>)
    returns (aborted: bool)
    requires slots.Length + addrs < ifas.Length && Slot(slots[..], index - 1, 0) < slots.Length
    requires index >= 1 && slots[Slot(slots[..], index - 1, 0)] == index - 1
    modifies ifas, slots
    ensures aborted <==> TooLong(attrs)
    ensures !aborted ==> State(ifas, slots, addrs + 1, used) == StepAddr(old(State(ifas, slots, addrs, used)), index, family, prefix, attrs)
  {
    hide AddrAttrs, TooLong, HasMask, MaskOf;
    ghost var a := State(ifas, slots, addrs, used);
    var e := slots.Length + addrs;
    var s := FindSlot(index - 1, ifas, slots);
    ghost var a1 := MapNewlink(a, index - 1);
    assert State(ifas, slots, addrs, used) == a1 && a1 == a;
    ifas[e] := ifas[e].(flags := ifas[s].flags);
    if e > 0 {
      ifas[e - 1] := ifas[e - 1].(next := e);
    }
    ghost var f2 := ifas[..];
    aborted := FillAddrAttrs(ifas, e, index, family, attrs);
    if aborted {
      return;
    }
    ghost var x := ifas[e];
    assert x == AddrAttrs(f2[e], e, attrs, family, index);
    ShareName(ifas, slots, e, index);
    ghost var y := if x.name == -1 then x.(name := f2[s].name) else x;
    assert ifas[..] == f2[e := y];
    SetMask(ifas, e, prefix);
    assert ifas[..] == f2[e := if HasMask(y.sockets) then y.(mask := MaskOf(y.sockets, prefix)) else y];
  }

  /** An entry without a name points to the one of its link. */
  method ShareName(ifas: array<Entry>, slots: array<int>, e: nat, index: int)
    requires slots.Length <= e < ifas.Length && Slot(slots[..], index - 1, 0) < slots.Length
    requires index >= 1 && slots[Slot(slots[..], index - 1, 0)] == index - 1
    modifies ifas, slots
    ensures slots[..] == old(slots[..])
    ensures var x, s := old(ifas[e]), Slot(old(slots[..]), index - 1, 0);
            ifas[..] == old(ifas[..])[e := if x.name == -1 then x.(name := old(ifas[..])[s].name) else x]
  {
    if ifas[e].name == -1 {
      ghost var b := State(ifas, slots, 0, 0);
      assert MapNewlink(b, index - 1) == b;
      var s := FindSlot(index - 1, ifas, slots);
      assert State(ifas, slots, 0, 0) == b;
      ifas[e] := ifas[e].(name := ifas[s].name);
    }
  }

  method SetMask(ifas: array<Entry>, e: nat, prefix: nat)
    requires e < ifas.Length
    modifies ifas
    ensures var y := old(ifas[e]);
            ifas[..] == old(ifas[..])[e := if HasMask(y.sockets) then y.(mask := MaskOf(y.sockets, prefix)) else y]
  {
    if HasMask(ifas[e].sockets) {
      var bits := MaskBits(prefix, ifas[e].sockets.addr.family);
      ifas[e] := ifas[e].(mask := Some(Mask(ifas[e].sockets.addr.family, bits)));
    }
  }

  /** The bytes of a netmask; a family without a known address has none. */
  method MaskBits(prefix: nat, family: nat) returns (bits: seq<bv8>)
    ensures bits == MaskBytes(prefix, MaxPrefix(family))
  {
    var max := MaxPrefix(family);
    if max == 0 {
      return [];
    }
    var cp := new bv8[max / 8 + 1](_ => 0);
    FillNetmask(cp, prefix, max);
    bits := cp[..max / 8];
  }

  /** The slots of the messages that are still to come can always be found. */
  lemma Findable(ms: seq<Msg>, n: nat)
    requires Orderly(ms) && n < |ms|
    ensures var a := Assemble(ms, n);
            && (ms[n].Link? ==> Slot(a.slots, ms[n].index - 1, 0) < |a.slots|)
            && (ms[n].Addr? ==>
                  && ms[n].index >= 1 && Slot(a.slots, ms[n].index - 1, 0) < |a.slots|
                  && a.slots[Slot(a.slots, ms[n].index - 1, 0)] == ms[n].index - 1
                  && |a.slots| + a.addrs < |a.ifas|)
  {
    hide Orderly, Tabled, Shape, Proper, Slot, Assemble;
    AssembleShape(ms, n);
    LinksFacts(ms, n);
    LinksFacts(ms, n + 1);
    CountsGrow(ms, n, |ms|);
    CountsGrow(ms, n + 1, |ms|);
    var a, l := Assemble(ms, n), Links(ms, n);
    if ms[n].Link? {
      PositiveIndex(ms, n);
      SlotFound(a.slots, l, ms[n].index, 0);
      TabledSize(a.slots, l);
    }
    if ms[n].Addr? {
      SeenIndex(ms, n);
      ProperAt(l, ms[n].index);
      SlotFound(a.slots, l, ms[n].index, 0);
      TabledAt(a.slots, l, Slot(a.slots, ms[n].index - 1, 0));
    }
  }

  lemma ProperAt(l: seq<int>, x: int)
    requires Proper(l) && x in l
    ensures x >= 1
  {}

  lemma TabledAt(m: seq<int>, l: seq<int>, s: nat)
    requires Tabled(m, l) && s < |l|
    ensures s < |m| && m[s] == l[s] - 1
  {}

  /** Some address among the first `n` messages has a label that is too long. */
  ghost predicate Aborts(ms: seq<Msg>, n: nat)
    requires n <= |ms|
  {
    exists p :: 0 <= p < n && ms[p].Addr? && TooLong(ms[p].attrs)
  }

  lemma AbortsNext(ms: seq<Msg>, n: nat)
    requires n < |ms|
    ensures Aborts(ms, n + 1) <==> Aborts(ms, n) || (ms[n].Addr? && TooLong(ms[n].attrs))
    ensures Aborts(ms, n + 1) ==> Aborts(ms, |ms|)
  {
    if ms[n].Addr? && TooLong(ms[n].attrs) {
      assert n < n + 1 && ms[n].Addr?;
    }
  }

  method Fill(rs: seq<Response>, ifas: array<Entry>, slots: array<int>) returns (addrs: nat, used: nat, aborted: bool)
    requires Orderly(AllWanted(rs)) && ifas != slots as object
    requires State(ifas, slots, 0, 0) == Assemble(AllWanted(rs), 0)
    modifies ifas, slots
    ensures aborted <==> Aborts(AllWanted(rs), |AllWanted(rs)|)
    ensures !aborted ==> State(ifas, slots, addrs, used) == Assemble(AllWanted(rs), |AllWanted(rs)|)
  {
    hide At, AllWanted, Orderly, Slot, StepLink, StepAddr, Aborts, TooLong;
    AtStart(rs);
    ghost var ms, n := AllWanted(rs), 0;
    addrs, used := 0, 0;
    NoAbort(ms);
    var i := 0;
    while i < |rs|
      invariant i <= |rs| && n <= |ms| && ms[n..] == AllWanted(rs[i..])
      invariant State(ifas, slots, addrs, used) == Assemble(ms, n) && !Aborts(ms, n)
    {
      if !rs[i].present {
        AtAbsent(rs, i, n);
        i := i + 1;
        continue;
      }
      var msgs, j := rs[i].msgs, 0;
      AtFirst(rs, i, n);
      while j < |msgs| && msgs[j] != Finished
        invariant j <= |msgs| && n <= |ms| && At(rs, i, msgs, j, n)
        invariant State(ifas, slots, addrs, used) == Assemble(ms, n) && !Aborts(ms, n)
      {
        if msgs[j] == Foreign {
          AtForeign(rs, i, msgs, j, n);
          j := j + 1;
          continue;
        }
        AtWanted(rs, i, msgs, j, n);
        Findable(ms, n);
        AbortsNext(ms, n);
        match msgs[j] {
          case Link(index, flags, attrs) =>
            used := FillLink(ifas, slots, addrs, used, index, flags, attrs);
          case Addr(index, family, prefix, attrs) =>
            aborted := FillAddr(ifas, slots, addrs, used, index, family, prefix, attrs);
            if aborted {
              return;
            }
            addrs := addrs + 1;
          case _ =>
        }
        n := n + 1;
        j := j + 1;
      }
      AtEnd(rs, i, msgs, j, n);
      i := i + 1;
    }
    NoneLeft(rs, n);
    aborted := false;
  }

  lemma NoAbort(ms: seq<Msg>)
    ensures !Aborts(ms, 0)
  {}

  // ----- The whole call -----

  /** The entries before unused slots are made to lead behind them. */
  method SkipUnused(ifas: array<Entry>, slots: array<int>)
    requires slots.Length <= ifas.Length && ifas != slots as object
    modifies ifas
    ensures ifas[..] == FixHoles(old(ifas[..]), slots[..], 0)
  {
    var i := 0;
    while i < slots.Length
      invariant i <= slots.Length && FixHoles(old(ifas[..]), slots[..], 0) == FixHoles(ifas[..], slots[..], i)
    {
      if slots[i] == -1 && i > 0 {
        ifas[i - 1] := ifas[i - 1].(next := slots.Length);
      }
      i := i + 1;
    }
  }

  /** `inside` is the assertion about the statistics at the end of the second pass. */
  method Getifaddrs(rs: seq<Response>) returns (r: Option<array<Entry>>, inside: bool, aborted: bool)
    requires Orderly(AllWanted(rs))
    ensures var ms := AllWanted(rs); aborted <==> Aborts(ms, |ms|)
    ensures var ms := AllWanted(rs); !aborted ==> (inside <==> DataStored(ms, |ms|) <= DataCounted(ms, |ms|))
    ensures var ms := AllWanted(rs);
            !aborted ==>
              if LinkCount(ms, |ms|) + AddrCount(ms, |ms|) == 0 then r == None
              else r.Some? && fresh(r.value) && r.value[..] == Result(ms)
  {
    hide AllWanted, Orderly, Step, LinkCount, AddrCount, DataStored, DataCounted, Tabled, Shape, TooLong, FixHoles, Aborts;
    ghost var ms := AllWanted(rs);
    var links, addrs, data := Count(rs);
    if links + addrs == 0 {
      NoMessages(ms, |ms|);
      return None, true, false;
    }
    var ifas := new Entry[links + addrs](_ => Zeroed);
    var slots := new int[links](_ => -1);
    assert ifas[..] == Start(links, addrs).ifas && slots[..] == Start(links, addrs).slots;
    var filled, used, ended := Fill(rs, ifas, slots);
    if ended {
      return None, false, true;
    }
    AssembleShape(ms, |ms|);
    if filled > 0 {
      SkipUnused(ifas, slots);
    }
    return Some(ifas), used <= data, false;
  }

  lemma {:induction false} NoMessages(ms: seq<Msg>, n: nat)
    requires n <= |ms| && LinkCount(ms, n) + AddrCount(ms, n) == 0
    ensures DataStored(ms, n) == 0 && !Aborts(ms, n)
  {
    if n > 0 {
      NoMessages(ms, n - 1);
    }
  }

  // ----- The netmask -----

  /**
   * `mask` is the memory from the address on; it extends beyond the address, because a full
   * prefix writes the byte that follows.  `max` is 32 or 128.
   */
  method FillNetmask(mask: array<bv8>, prefixlen: nat, max: nat)
    requires (max == 32 || max == 128) && max / 8 < mask.Length
    requires forall i :: 0 <= i < mask.Length ==> mask[i] == 0
    modifies mask
    ensures forall k :: 0 <= k < max ==> BitOf(mask[..], k) == if k < prefixlen then 1 else 0
    ensures forall i :: max / 8 <= i < mask.Length ==> mask[i] == 0
    ensures mask[..max / 8] == MaskBytes(prefixlen, max)
  {
    var preflen := if max > 0 && prefixlen > max then max else prefixlen;
    WithinMask(preflen, max);
    var i := 0;
    while i < preflen / 8
      invariant i <= preflen / 8
      invariant forall k :: 0 <= k < mask.Length ==> mask[k] == if k < i then 0xff else 0
    {
      mask[i] := 0xff;
      i := i + 1;
    }
    mask[i] := Partial(preflen % 8);
    forall k | 0 <= k < max ensures BitOf(mask[..], k) == if k < prefixlen then 1 else 0 {
      MaskBit(mask[..], preflen, k);
    }
  }
}
