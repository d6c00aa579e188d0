/**
 * Assembling the list of interfaces and addresses from netlink messages: the two passes, the order
 * of the list and what its entries say.
 */
module Netdb {
  import opened Basics
  import opened IfAddr

  // One pass counts what there is, one array is allocated, and a second pass fills it: links in
  // its front part, addresses behind, threaded by next pointers that are patched as entries
  // appear and once more at the end.

  /** `Foreign` is a message for somebody else: another port id or sequence number. */
  datatype Msg =
    | Foreign
    | Finished
    | Link(index: int, flags: nat, attrs: seq<Attr>)
    | Addr(index: int, family: nat, prefix: nat, attrs: seq<Attr>)
    | OtherMsg

  /** One response read from the socket; some hold nothing. */
  datatype Response = Response(present: bool, msgs: seq<Msg>)

  /**
   * `buffer` is the entry's own space for a name; `name` and `next` point to the entry whose buffer
   * holds its name and to the entry that follows it, or are -1; `data` is where the statistics are
   * and how long; `sockets` and `mask` are the addresses and the netmask of an address entry.
   */
  datatype Entry = Entry(
    flags: nat,
    buffer: string,
    name: int,
    data: Option<(nat, nat)>,
    next: int,
    sockets: Sockets,
    mask: Option<Mask>)

  const Zeroed: Entry := Entry(0, "", -1, None, -1, NOWHERE, None)

  /** What a reader of the list finds when it follows the name pointer. */
  ghost function NameOf(ifas: seq<Entry>, x: nat): Option<string>
    requires x < |ifas|
  {
    if 0 <= ifas[x].name < |ifas| then Some(ifas[ifas[x].name].buffer) else None
  }

  const NAME_SIZE: nat := 17

  // ----- The messages both passes look at -----

  /** Those of one response: not foreign, and before the end marker. */
  ghost function Wanted(msgs: seq<Msg>): seq<Msg> {
    if msgs == [] then []
    else if msgs[0] == Foreign then Wanted(msgs[1..])
    else if msgs[0] == Finished then []
    else [msgs[0]] + Wanted(msgs[1..])
  }

  ghost function AllWanted(rs: seq<Response>): seq<Msg> {
    if rs == [] then []
    else (if rs[0].present then Wanted(rs[0].msgs) else []) + AllWanted(rs[1..])
  }

  // ----- What the first pass counts -----

  ghost function LinkCount(ms: seq<Msg>, n: nat): nat
    requires n <= |ms|
  {
    if n == 0 then 0 else LinkCount(ms, n - 1) + if ms[n - 1].Link? then 1 else 0
  }

  ghost function AddrCount(ms: seq<Msg>, n: nat): nat
    requires n <= |ms|
  {
    if n == 0 then 0 else AddrCount(ms, n - 1) + if ms[n - 1].Addr? then 1 else 0
  }

  /** The size of the first statistics attribute. */
  function FirstStats(attrs: seq<Attr>): nat {
    if attrs == [] then 0
    else if attrs[0].Stats? then attrs[0].size
    else FirstStats(attrs[1..])
  }

  function AllStats(attrs: seq<Attr>): nat {
    if attrs == [] then 0 else (if attrs[0].Stats? then attrs[0].size else 0) + AllStats(attrs[1..])
  }

  ghost function DataCounted(ms: seq<Msg>, n: nat): nat
    requires n <= |ms|
  {
    if n == 0 then 0 else DataCounted(ms, n - 1) + if ms[n - 1].Link? then FirstStats(ms[n - 1].attrs) else 0
  }

  ghost function DataStored(ms: seq<Msg>, n: nat): nat
    requires n <= |ms|
  {
    if n == 0 then 0 else DataStored(ms, n - 1) + if ms[n - 1].Link? then AllStats(ms[n - 1].attrs) else 0
  }

  // ----- The second pass -----

  /** The array, the table from slots to kernel indices less one, and how much is used so far. */
  datatype Asm = Asm(ifas: seq<Entry>, slots: seq<int>, addrs: nat, used: nat)

  /** Where the table is free or has the index. */
  ghost function Slot(m: seq<int>, index: int, i: nat): (s: nat)
    requires i <= |m|
    ensures i <= s <= |m|
    decreases |m| - i
  {
    if i == |m| || m[i] == -1 || m[i] == index then i else Slot(m, index, i + 1)
  }

  ghost function SetNext(ifas: seq<Entry>, i: nat, j: int): seq<Entry>
    requires i < |ifas|
  {
    ifas[i := ifas[i].(next := j)]
  }

  /** Find the slot of a link, taking a free one and threading it if the link is new. */
  ghost function MapNewlink(a: Asm, index: int): (a': Asm)
    requires |a.slots| <= |a.ifas|
    ensures |a'.slots| == |a.slots| && |a'.ifas| == |a.ifas| && a'.addrs == a.addrs && a'.used == a.used
  {
    var i := Slot(a.slots, index, 0);
    if i == |a.slots| || a.slots[i] != -1 then a
    else a.(slots := a.slots[i := index], ifas := if i > 0 then SetNext(a.ifas, i - 1, i) else a.ifas)
  }

  /** The attributes of a link message, for the entry `self`. */
  ghost function LinkAttrs(e: Entry, self: nat, used: nat, attrs: seq<Attr>): (Entry, nat)
    decreases |attrs|
  {
    if attrs == [] then (e, used)
    else match attrs[0]
      case Name(n) => LinkAttrs(if |n| + 1 <= NAME_SIZE then e.(buffer := n, name := self) else e, self, used, attrs[1..])
      case Stats(size) => LinkAttrs(e.(data := Some((used, size))), self, used + size, attrs[1..])
      case _ => LinkAttrs(e, self, used, attrs[1..])
  }

  /** A label of an address that is too long for the buffer ends the process. */
  predicate TooLong(attrs: seq<Attr>) {
    exists i :: 0 <= i < |attrs| && attrs[i].Name? && |attrs[i].name| + 1 > NAME_SIZE
  }

  /** One attribute of an address message, for the entry `self`. */
  ghost function AddrAttr(e: Entry, self: nat, a: Attr, family: nat, index: int): Entry {
    match a
    case Name(n) => if |n| + 1 <= NAME_SIZE then e.(buffer := n, name := self) else e
    case _ => e.(sockets := Apply(e.sockets, a, family, index))
  }

  ghost function AddrAttrs(e: Entry, self: nat, attrs: seq<Attr>, family: nat, index: int): Entry
    decreases |attrs|
  {
    if attrs == [] then e else AddrAttrs(AddrAttr(e, self, attrs[0], family, index), self, attrs[1..], family, index)
  }

  ghost function StepLink(a: Asm, index: int, flags: nat, attrs: seq<Attr>): (a': Asm)
    requires |a.slots| <= |a.ifas|
    ensures |a'.slots| == |a.slots| && |a'.ifas| == |a.ifas|
  {
    var s := Slot(a.slots, index - 1, 0);
    if s == |a.slots| then a
    else
      var a1 := MapNewlink(a, index - 1);
      var r := LinkAttrs(a1.ifas[s].(flags := flags), s, a1.used, attrs);
      a1.(ifas := a1.ifas[s := r.0], used := r.1)
  }

  ghost function StepAddr(a: Asm, index: int, family: nat, prefix: nat, attrs: seq<Attr>): (a': Asm)
    requires |a.slots| <= |a.ifas|
    ensures |a'.slots| == |a.slots| && |a'.ifas| == |a.ifas|
  {
    var s, e := Slot(a.slots, index - 1, 0), |a.slots| + a.addrs;
    if s == |a.slots| || e >= |a.ifas| then a
    else
      var a1 := MapNewlink(a, index - 1);
      var f1 := a1.ifas[e := a1.ifas[e].(flags := a1.ifas[s].flags)];
      var f2 := if e > 0 then SetNext(f1, e - 1, e) else f1;
      var x := AddrAttrs(f2[e], e, attrs, family, index);
      var y := if x.name == -1 then x.(name := f2[s].name) else x;
      var z := if HasMask(y.sockets) then y.(mask := MaskOf(y.sockets, prefix)) else y;
      a1.(ifas := f2[e := z], addrs := a1.addrs + 1)
  }

  ghost function Step(a: Asm, m: Msg): (a': Asm)
    requires |a.slots| <= |a.ifas|
    ensures |a'.slots| == |a.slots| && |a'.ifas| == |a.ifas|
  {
    match m
    case Link(index, flags, attrs) => StepLink(a, index, flags, attrs)
    case Addr(index, family, prefix, attrs) => StepAddr(a, index, family, prefix, attrs)
    case _ => a
  }

  ghost function Start(links: nat, addrs: nat): Asm {
    Asm(seq(links + addrs, _ => Zeroed), seq(links, _ => -1), 0, 0)
  }

  /** After the first `n` messages. */
  ghost function Assemble(ms: seq<Msg>, n: nat): (a: Asm)
    requires n <= |ms|
    ensures |a.slots| == LinkCount(ms, |ms|) && |a.ifas| == LinkCount(ms, |ms|) + AddrCount(ms, |ms|)
  {
    if n == 0 then Start(LinkCount(ms, |ms|), AddrCount(ms, |ms|)) else Step(Assemble(ms, n - 1), ms[n - 1])
  }

  /** Unused slots of the front part are jumped over. */
  ghost function FixHoles(ifas: seq<Entry>, m: seq<int>, i: nat): (r: seq<Entry>)
    requires |m| <= |ifas| && i <= |m|
    ensures |r| == |ifas|
    decreases |m| - i
  {
    if i == |m| then ifas
    else FixHoles(if m[i] == -1 && i > 0 then SetNext(ifas, i - 1, |m|) else ifas, m, i + 1)
  }

  ghost function Result(ms: seq<Msg>): seq<Entry> {
    var a := Assemble(ms, |ms|);
    if a.addrs > 0 then FixHoles(a.ifas, a.slots, 0) else a.ifas
  }

  // ----- What the kernel promises -----

  /** The links seen so far, each once, in the order in which they were first seen. */
  ghost function Links(ms: seq<Msg>, n: nat): seq<int>
    requires n <= |ms|
  {
    if n == 0 then []
    else
      var l, m := Links(ms, n - 1), ms[n - 1];
      if m.Link? && m.index !in l then l + [m.index] else l
  }

  /** Kernel indices are positive and an address comes after its link. */
  ghost predicate Orderly(ms: seq<Msg>) {
    && (forall n :: 0 <= n < |ms| && ms[n].Link? ==> ms[n].index >= 1)
    && (forall n :: 0 <= n < |ms| && ms[n].Addr? ==> ms[n].index in Links(ms, n))
  }

  // ----- The shape of the list -----

  /** NoDup positive indices. */
  ghost predicate Proper(l: seq<int>) {
    NoDup(l) && forall j :: 0 <= j < |l| ==> l[j] >= 1
  }

  lemma ProperAppend(l: seq<int>, x: int)
    requires Proper(l) && x !in l && x >= 1
    ensures Proper(l + [x])
  {
    var m := l + [x];
    forall i, j | 0 <= i < j < |m| ensures m[i] != m[j] {
      if j == |l| {
        assert l[i] in l;
      }
    }
  }

  lemma PositiveIndex(ms: seq<Msg>, n: nat)
    requires Orderly(ms) && n < |ms| && ms[n].Link?
    ensures ms[n].index >= 1
  {}

  lemma SeenIndex(ms: seq<Msg>, n: nat)
    requires Orderly(ms) && n < |ms| && ms[n].Addr?
    ensures ms[n].index in Links(ms, n)
  {}

  lemma {:induction false} LinksFacts(ms: seq<Msg>, n: nat)
    requires n <= |ms| && Orderly(ms)
    ensures Proper(Links(ms, n)) && |Links(ms, n)| <= LinkCount(ms, n)
  {
    hide Orderly, Proper;
    if n == 0 {
      EmptyProper();
    } else {
      LinksFacts(ms, n - 1);
      var l, m := Links(ms, n - 1), ms[n - 1];
      if m.Link? && m.index !in l {
        PositiveIndex(ms, n - 1);
        ProperAppend(l, m.index);
      }
    }
  }

  lemma EmptyProper()
    ensures Proper([])
  {}

  lemma {:induction false} CountsGrow(ms: seq<Msg>, n: nat, k: nat)
    requires n <= k <= |ms|
    ensures LinkCount(ms, n) <= LinkCount(ms, k) && AddrCount(ms, n) <= AddrCount(ms, k)
    ensures n < k && ms[n].Link? ==> LinkCount(ms, n) < LinkCount(ms, k)
    ensures n < k && ms[n].Addr? ==> AddrCount(ms, n) < AddrCount(ms, k)
  {
    if n < k {
      CountsGrow(ms, n, k - 1);
    }
  }

  /** The table holds the links seen so far, then free slots. */
  ghost predicate Tabled(m: seq<int>, l: seq<int>) {
    && |l| <= |m|
    && (forall j :: 0 <= j < |l| ==> m[j] == l[j] - 1)
    && (forall j :: |l| <= j < |m| ==> m[j] == -1)
  }

  lemma {:induction false} SlotFound(m: seq<int>, l: seq<int>, x: int, i: nat)
    requires Tabled(m, l) && Proper(l) && x >= 1
    requires i <= |l| && forall j :: 0 <= j < i ==> l[j] != x
    ensures var s := Slot(m, x - 1, i);
            if x in l then s < |l| && l[s] == x else s == |l|
    decreases |l| - i
  {
    if i < |l| && l[i] != x {
      SlotFound(m, l, x, i + 1);
    }
  }

  /** Where an entry must lead while links `0..k` and `a` addresses are in an array with room for `n` links. */
  ghost function NextOf(i: nat, k: nat, n: nat, a: nat): int {
    if i + 1 < k then i + 1
    else if i + 1 < n then -1
    else if i + 1 < n + a then i + 1
    else -1
  }

  ghost predicate Shape(a: Asm, k: nat) {
    && k <= |a.slots| && |a.slots| + a.addrs <= |a.ifas|
    && forall i :: 0 <= i < |a.ifas| ==> a.ifas[i].next == NextOf(i, k, |a.slots|, a.addrs)
  }

  lemma {:induction false} LinkAttrsNext(e: Entry, self: nat, used: nat, attrs: seq<Attr>)
    ensures var r := LinkAttrs(e, self, used, attrs);
            r.0.next == e.next && r.0.flags == e.flags && r.1 == used + AllStats(attrs)
    decreases |attrs|
  {
    if attrs != [] {
      match attrs[0]
      case Name(n) => LinkAttrsNext(if |n| + 1 <= NAME_SIZE then e.(buffer := n, name := self) else e, self, used, attrs[1..]);
      case Stats(size) => LinkAttrsNext(e.(data := Some((used, size))), self, used + size, attrs[1..]);
      case _ => LinkAttrsNext(e, self, used, attrs[1..]);
    }
  }

  lemma {:induction false} AddrAttrsNext(e: Entry, self: nat, attrs: seq<Attr>, family: nat, index: int)
    ensures var r := AddrAttrs(e, self, attrs, family, index);
            && r.next == e.next && r.flags == e.flags && r.data == e.data && r.mask == e.mask
            && r.sockets == ApplyAll(e.sockets, attrs, family, index)
    decreases |attrs|
  {
    if attrs != [] {
      AddrAttrsNext(AddrAttr(e, self, attrs[0], family, index), self, attrs[1..], family, index);
    }
  }

  lemma LinkShape(a: Asm, l: seq<int>, index: int, flags: nat, attrs: seq<Attr>)
    requires Tabled(a.slots, l) && Proper(l) && index >= 1
    requires Shape(a, |l|) && (index in l || |l| < |a.slots|)
    ensures var a', l' := StepLink(a, index, flags, attrs), if index in l then l else l + [index];
            && Tabled(a'.slots, l') && Shape(a', |l'|) && a'.addrs == a.addrs && a'.used == a.used + AllStats(attrs)
  {
    SlotFound(a.slots, l, index, 0);
    var a1 := MapNewlink(a, index - 1);
    var s := Slot(a.slots, index - 1, 0);
    LinkAttrsNext(a1.ifas[s].(flags := flags), s, a1.used, attrs);
  }

  lemma AddrShape(a: Asm, l: seq<int>, index: int, family: nat, prefix: nat, attrs: seq<Attr>)
    requires Tabled(a.slots, l) && Proper(l)
    requires Shape(a, |l|) && index in l && |a.slots| + a.addrs < |a.ifas|
    ensures var a' := StepAddr(a, index, family, prefix, attrs);
            && a'.slots == a.slots && Shape(a', |l|) && a'.addrs == a.addrs + 1 && a'.used == a.used
  {
    SlotFound(a.slots, l, index, 0);
    var s, e := Slot(a.slots, index - 1, 0), |a.slots| + a.addrs;
    var f1 := a.ifas[e := a.ifas[e].(flags := a.ifas[s].flags)];
    AddrAttrsNext(SetNext(f1, e - 1, e)[e], e, attrs, family, index);
  }

  /** After any prefix of the messages: nothing outside the array was ever needed, and the pointers are right. */
  lemma {:induction false} AssembleShape(ms: seq<Msg>, n: nat)
    requires n <= |ms| && Orderly(ms)
    ensures var a := Assemble(ms, n);
            && Tabled(a.slots, Links(ms, n)) && Shape(a, |Links(ms, n)|)
            && a.addrs == AddrCount(ms, n) && a.used == DataStored(ms, n)
  {
    hide Orderly, Tabled, Shape, Proper, StepLink, StepAddr;
    if n == 0 {
      StartShape(LinkCount(ms, |ms|), AddrCount(ms, |ms|));
    } else {
      AssembleShape(ms, n - 1);
      LinksFacts(ms, n - 1);
      LinksFacts(ms, n);
      CountsGrow(ms, n - 1, |ms|);
      CountsGrow(ms, n, |ms|);
      var a, l := Assemble(ms, n - 1), Links(ms, n - 1);
      match ms[n - 1]
      case Link(index, flags, attrs) =>
        PositiveIndex(ms, n - 1);
        LinkShape(a, l, index, flags, attrs);
      case Addr(index, family, prefix, attrs) =>
        SeenIndex(ms, n - 1);
        AddrShape(a, l, index, family, prefix, attrs);
      case _ =>
    }
  }

  lemma StartShape(links: nat, addrs: nat)
    ensures Tabled(Start(links, addrs).slots, []) && Shape(Start(links, addrs), 0)
  {}

  // ----- Following the pointers -----

  /** The pointers lead along `path` and end there. */
  ghost predicate Chain(ifas: seq<Entry>, path: seq<nat>) {
    && path != []
    && (forall i :: 0 <= i < |path| ==> path[i] < |ifas|)
    && (forall i :: 0 <= i < |path| - 1 ==> ifas[path[i]].next == path[i + 1])
    && ifas[path[|path| - 1]].next == -1
  }

  /** Slots 0 to k - 1, then the `a` slots from `n` on. */
  function Visit(k: nat, n: nat, a: nat): seq<nat> {
    seq(k + a, i requires 0 <= i => if i < k then i else n + (i - k))
  }

  /** What the last loop does to each entry. */
  lemma {:induction false} FixHolesAt(ifas: seq<Entry>, m: seq<int>, k: nat, i: nat, x: nat)
    requires i <= |m| <= |ifas| && x < |ifas| && k <= |m|
    requires forall j :: 0 <= j < |m| ==> (m[j] == -1 <==> k <= j)
    ensures FixHoles(ifas, m, i)[x] == ifas[x].(next := if i <= x + 1 && k <= x + 1 < |m| then |m| else ifas[x].next)
    decreases |m| - i
  {
    if i < |m| {
      FixHolesAt(if m[i] == -1 && i > 0 then SetNext(ifas, i - 1, |m|) else ifas, m, k, i + 1, x);
    }
  }

  lemma {:induction false} SomeLink(ms: seq<Msg>, n: nat)
    requires n <= |ms| && Orderly(ms) && (LinkCount(ms, n) > 0 || AddrCount(ms, n) > 0)
    ensures |Links(ms, n)| > 0
  {
    if ms[n - 1].Addr? {
      SeenIndex(ms, n - 1);
    } else if !ms[n - 1].Link? {
      SomeLink(ms, n - 1);
    }
  }

  /**
   * The list visits each link once, in the order in which they were first seen, then every
   * address in message order, and ends.
   */
  lemma ResultChain(ms: seq<Msg>)
    requires Orderly(ms) && LinkCount(ms, |ms|) + AddrCount(ms, |ms|) > 0
    ensures Chain(Result(ms), Visit(|Links(ms, |ms|)|, LinkCount(ms, |ms|), AddrCount(ms, |ms|)))
  {
    var n := |ms|;
    AssembleShape(ms, n);
    LinksFacts(ms, n);
    SomeLink(ms, n);
    var a, l := Assemble(ms, n), Links(ms, n);
    ShapeChain(a, l, Result(ms));
  }

  lemma ShapeChain(a: Asm, l: seq<int>, r: seq<Entry>)
    requires Tabled(a.slots, l) && Proper(l) && Shape(a, |l|) && |l| > 0 && |a.ifas| == |a.slots| + a.addrs
    requires r == if a.addrs > 0 then FixHoles(a.ifas, a.slots, 0) else a.ifas
    ensures Chain(r, Visit(|l|, |a.slots|, a.addrs))
  {
    var path := Visit(|l|, |a.slots|, a.addrs);
    forall x | 0 <= x < |a.ifas|
      ensures r[x].next == if a.addrs > 0 && |l| <= x + 1 < |a.slots| then |a.slots| else a.ifas[x].next
    {
      if a.addrs > 0 {
        FixHolesAt(a.ifas, a.slots, |l|, 0, x);
      }
    }
    forall i | 0 <= i < |path| - 1 ensures r[path[i]].next == path[i + 1] {}
  }

  // ----- What the entries say -----

  function NameIn(attrs: seq<Attr>, name: Option<string>): Option<string> {
    if attrs == [] then name
    else NameIn(attrs[1..], if attrs[0].Name? && |attrs[0].name| <= 16 then Some(attrs[0].name) else name)
  }

  /**
   * An address ends the process exactly if it has a label that would not be kept; otherwise its last
   * label is the one that is kept, and there is none exactly if it has no label.
   */
  lemma {:induction false} LabelsKept(attrs: seq<Attr>, name: Option<string>)
    ensures TooLong(attrs) <==> exists i :: 0 <= i < |attrs| && attrs[i].Name? && |attrs[i].name| >= 17
    ensures !TooLong(attrs) && (forall i :: 0 <= i < |attrs| ==> !attrs[i].Name?) ==> NameIn(attrs, name) == name
    ensures forall k :: 0 <= k < |attrs| && attrs[k].Name? && !TooLong(attrs) && NoLabel(attrs, k + 1) ==> NameIn(attrs, name) == Some(attrs[k].name)
  {
    if attrs != [] {
      var rest := attrs[1..];
      var n1 := if attrs[0].Name? && |attrs[0].name| <= 16 then Some(attrs[0].name) else name;
      LabelsKept(rest, n1);
      forall k | 0 <= k < |attrs| && attrs[k].Name? && !TooLong(attrs) && NoLabel(attrs, k + 1)
        ensures NameIn(attrs, name) == Some(attrs[k].name)
      {
        if k > 0 {
          assert rest[k - 1] == attrs[k] && NoLabel(rest, k);
        }
      }
    }
  }

  /** There is no label from attribute `k` on. */
  ghost predicate NoLabel(attrs: seq<Attr>, k: nat) {
    forall i :: k <= i < |attrs| ==> !attrs[i].Name?
  }

  /** Where the last statistics are and how long, if those of this message begin at `used`. */
  function StatsIn(attrs: seq<Attr>, used: nat, last: Option<(nat, nat)>): Option<(nat, nat)> {
    if attrs == [] then last
    else if attrs[0].Stats? then StatsIn(attrs[1..], used + attrs[0].size, Some((used, attrs[0].size)))
    else StatsIn(attrs[1..], used, last)
  }

  /** The flags, the name and the statistics that the messages so far give to link `x`. */
  ghost function LastFlags(ms: seq<Msg>, n: nat, x: int): nat
    requires n <= |ms|
  {
    if n == 0 then 0
    else if ms[n - 1].Link? && ms[n - 1].index == x then ms[n - 1].flags
    else LastFlags(ms, n - 1, x)
  }

  ghost function LastName(ms: seq<Msg>, n: nat, x: int): Option<string>
    requires n <= |ms|
  {
    if n == 0 then None
    else if ms[n - 1].Link? && ms[n - 1].index == x then NameIn(ms[n - 1].attrs, LastName(ms, n - 1, x))
    else LastName(ms, n - 1, x)
  }

  ghost function LastStats(ms: seq<Msg>, n: nat, x: int): Option<(nat, nat)>
    requires n <= |ms|
  {
    if n == 0 then None
    else if ms[n - 1].Link? && ms[n - 1].index == x then StatsIn(ms[n - 1].attrs, DataStored(ms, n - 1), LastStats(ms, n - 1, x))
    else LastStats(ms, n - 1, x)
  }

  lemma {:induction false} NameInStays(attrs: seq<Attr>, name: Option<string>)
    ensures name.Some? ==> NameIn(attrs, name).Some?
  {
    if attrs != [] {
      NameInStays(attrs[1..], if attrs[0].Name? && |attrs[0].name| + 1 <= NAME_SIZE then Some(attrs[0].name) else name);
    }
  }

  lemma {:induction false} NameStays(ms: seq<Msg>, p: nat, n: nat, x: int)
    requires p <= n <= |ms| && LastName(ms, p, x).Some?
    ensures LastName(ms, n, x).Some?
  {
    if p < n {
      NameStays(ms, p, n - 1, x);
      if ms[n - 1].Link? {
        NameInStays(ms[n - 1].attrs, LastName(ms, n - 1, x));
      }
    }
  }

  lemma {:induction false} UnseenBlank(ms: seq<Msg>, n: nat, x: int)
    requires n <= |ms| && x !in Links(ms, n)
    ensures LastFlags(ms, n, x) == 0 && LastName(ms, n, x) == None && LastStats(ms, n, x) == None
  {
    if n > 0 {
      UnseenBlank(ms, n - 1, x);
    }
  }

  /** The entry's own buffer holds its name, if it has one. */
  ghost predicate Named(e: Entry, self: nat, name: Option<string>) {
    if name == None then e.name == -1 else e.name == self && e.buffer == name.value
  }

  lemma {:induction false} LinkAttrsSay(e: Entry, self: nat, used: nat, attrs: seq<Attr>, name: Option<string>)
    requires Named(e, self, name)
    ensures Named(LinkAttrs(e, self, used, attrs).0, self, NameIn(attrs, name))
    decreases |attrs|
  {
    if attrs != [] {
      match attrs[0]
      case Name(n) =>
        if |n| + 1 <= NAME_SIZE {
          LinkAttrsSay(e.(buffer := n, name := self), self, used, attrs[1..], Some(n));
        } else {
          LinkAttrsSay(e, self, used, attrs[1..], name);
        }
      case Stats(size) => LinkAttrsSay(e.(data := Some((used, size))), self, used + size, attrs[1..], name);
      case _ => LinkAttrsSay(e, self, used, attrs[1..], name);
    }
  }

  lemma {:induction false} AddrAttrsSay(e: Entry, self: nat, attrs: seq<Attr>, family: nat, index: int, name: Option<string>)
    requires Named(e, self, name)
    ensures Named(AddrAttrs(e, self, attrs, family, index), self, NameIn(attrs, name))
    decreases |attrs|
  {
    if attrs != [] {
      var named := if attrs[0].Name? && |attrs[0].name| + 1 <= NAME_SIZE then Some(attrs[0].name) else name;
      AddrAttrsSay(AddrAttr(e, self, attrs[0], family, index), self, attrs[1..], family, index, named);
    }
  }

  /** The entry of a link, or one that is still free. */
  ghost predicate LinkSays(a: Asm, ms: seq<Msg>, n: nat, j: nat)
    requires n <= |ms|
  {
    && j < |a.ifas|
    && (if j < |Links(ms, n)| then
          var x := Links(ms, n)[j];
          && a.ifas[j].flags == LastFlags(ms, n, x) && Named(a.ifas[j], j, LastName(ms, n, x))
          && a.ifas[j].data == LastStats(ms, n, x)
        else Unused(a.ifas[j]))
  }

  ghost predicate Unused(e: Entry) {
    e.flags == 0 && e.name == -1 && e.data == None && e.sockets == NOWHERE && e.mask == None
  }

  /** The entry of an address: its label is its own; otherwise it points where its link pointed. */
  ghost predicate AddrPoints(ifas: seq<Entry>, ms: seq<Msg>, l: seq<int>, p: nat)
    requires p < |ms| && ms[p].Addr?
  {
    var e, own := LinkCount(ms, |ms|) + AddrCount(ms, p), NameIn(ms[p].attrs, None);
    && e < |ifas| && ifas[e].flags == LastFlags(ms, p, ms[p].index) && ifas[e].data == None
    && ifas[e].sockets == ApplyAll(NOWHERE, ms[p].attrs, ms[p].family, ms[p].index)
    && ifas[e].mask == MaskOf(ifas[e].sockets, ms[p].prefix)
    && (if own.Some? || LastName(ms, p, ms[p].index) == None then Named(ifas[e], e, own)
        else 0 <= ifas[e].name < |l| && l[ifas[e].name] == ms[p].index)
  }

  ghost predicate Says(a: Asm, ms: seq<Msg>, n: nat)
    requires n <= |ms|
  {
    && (forall j :: 0 <= j < |a.slots| ==> LinkSays(a, ms, n, j))
    && (forall p :: 0 <= p < n && ms[p].Addr? ==> AddrPoints(a.ifas, ms, Links(ms, n), p))
    && (forall e :: |a.slots| + a.addrs <= e < |a.ifas| ==> Unused(a.ifas[e]))
  }

  /** Only the entry `s`, and of the others at most their next pointers, differ. */
  ghost predicate OnlyAt(ifas: seq<Entry>, ifas': seq<Entry>, s: nat) {
    && |ifas'| == |ifas|
    && forall x :: 0 <= x < |ifas| && x != s ==> ifas'[x] == ifas[x].(next := ifas'[x].next)
  }

  /** What a link message does to the entry of its link, which had the name `name`. */
  ghost predicate LinkFilled(e: Entry, e': Entry, s: nat, used: nat, flags: nat, attrs: seq<Attr>) {
    && e'.flags == flags && e'.data == StatsIn(attrs, used, e.data)
    && forall name :: Named(e, s, name) ==> Named(e', s, NameIn(attrs, name))
  }

  lemma LinkStepSays(a: Asm, l: seq<int>, index: int, flags: nat, attrs: seq<Attr>)
    requires Tabled(a.slots, l) && Proper(l) && index >= 1 && |a.slots| <= |a.ifas| && (index in l || |l| < |a.slots|)
    ensures var a', s := StepLink(a, index, flags, attrs), Slot(a.slots, index - 1, 0);
            && s < |a.slots| && (if index in l then s < |l| && l[s] == index else s == |l|)
            && OnlyAt(a.ifas, a'.ifas, s) && LinkFilled(a.ifas[s], a'.ifas[s], s, a.used, flags, attrs)
            && a'.addrs == a.addrs
  {
    SlotFound(a.slots, l, index, 0);
    var a1, s := MapNewlink(a, index - 1), Slot(a.slots, index - 1, 0);
    var e := a1.ifas[s].(flags := flags);
    LinkAttrsNext(e, s, a1.used, attrs);
    forall name | Named(a.ifas[s], s, name)
      ensures Named(LinkAttrs(e, s, a1.used, attrs).0, s, NameIn(attrs, name))
    {
      LinkAttrsSay(e, s, a1.used, attrs, name);
    }
    LinkAttrsStats(e, s, a1.used, attrs);
  }

  lemma {:induction false} LinkAttrsStats(e: Entry, self: nat, used: nat, attrs: seq<Attr>)
    ensures LinkAttrs(e, self, used, attrs).0.data == StatsIn(attrs, used, e.data)
    decreases |attrs|
  {
    if attrs != [] {
      match attrs[0]
      case Name(n) => LinkAttrsStats(if |n| + 1 <= NAME_SIZE then e.(buffer := n, name := self) else e, self, used, attrs[1..]);
      case Stats(size) => LinkAttrsStats(e.(data := Some((used, size))), self, used + size, attrs[1..]);
      case _ => LinkAttrsStats(e, self, used, attrs[1..]);
    }
  }

  /** What an address message does to the entry that was free. */
  ghost predicate AddrFilled(e': Entry, e: nat, link: Entry, index: int, family: nat, prefix: nat, attrs: seq<Attr>) {
    && e'.flags == link.flags && e'.data == None
    && e'.sockets == ApplyAll(NOWHERE, attrs, family, index) && e'.mask == MaskOf(e'.sockets, prefix)
    && if NameIn(attrs, None) == None then e'.name == link.name else Named(e', e, NameIn(attrs, None))
  }

  lemma AddrStepSays(a: Asm, l: seq<int>, index: int, family: nat, prefix: nat, attrs: seq<Attr>)
    requires Tabled(a.slots, l) && Proper(l) && index in l && |a.slots| + a.addrs < |a.ifas|
    requires Unused(a.ifas[|a.slots| + a.addrs])
    ensures var a', s, e := StepAddr(a, index, family, prefix, attrs), Slot(a.slots, index - 1, 0), |a.slots| + a.addrs;
            && s < |l| && l[s] == index && a'.addrs == a.addrs + 1
            && OnlyAt(a.ifas, a'.ifas, e) && AddrFilled(a'.ifas[e], e, a.ifas[s], index, family, prefix, attrs)
  {
    SlotFound(a.slots, l, index, 0);
    var s, e := Slot(a.slots, index - 1, 0), |a.slots| + a.addrs;
    var f1 := a.ifas[e := a.ifas[e].(flags := a.ifas[s].flags)];
    AddrAttrsSay(SetNext(f1, e - 1, e)[e], e, attrs, family, index, None);
    AddrAttrsNext(SetNext(f1, e - 1, e)[e], e, attrs, family, index);
  }

  lemma LinkSaysKept(a: Asm, a': Asm, ms: seq<Msg>, n: nat)
    requires 0 < n <= |ms| && Says(a, ms, n - 1) && Proper(Links(ms, n)) && |a'.slots| == |a.slots| && a'.addrs == a.addrs
    requires ms[n - 1].Link? && LinkCount(ms, |ms|) == |a.slots| <= |a.ifas| && a.used == DataStored(ms, n - 1)
    requires var l, m := Links(ms, n - 1), ms[n - 1];
             var s := Slot(a.slots, m.index - 1, 0);
             && s < |a.slots| && (if m.index in l then s < |l| && l[s] == m.index else s == |l|)
             && OnlyAt(a.ifas, a'.ifas, s) && LinkFilled(a.ifas[s], a'.ifas[s], s, a.used, m.flags, m.attrs)
    ensures Says(a', ms, n)
  {
    var l, m := Links(ms, n - 1), ms[n - 1];
    var s := Slot(a.slots, m.index - 1, 0);
    forall j | 0 <= j < |a'.slots| ensures LinkSays(a', ms, n, j) {
      assert LinkSays(a, ms, n - 1, j);
      if j == s {
        if m.index !in l {
          UnseenBlank(ms, n - 1, m.index);
        }
        assert Named(a.ifas[s], s, LastName(ms, n - 1, m.index));
      }
    }
    forall p | 0 <= p < n && ms[p].Addr? ensures AddrPoints(a'.ifas, ms, Links(ms, n), p) {
      assert AddrPoints(a.ifas, ms, l, p);
    }
  }

  lemma AddrSaysKept(a: Asm, a': Asm, ms: seq<Msg>, n: nat)
    requires 0 < n <= |ms| && Says(a, ms, n - 1) && |a'.slots| == |a.slots| && a'.addrs == a.addrs + 1
    requires ms[n - 1].Addr? && LinkCount(ms, |ms|) == |a.slots| && a.addrs == AddrCount(ms, n - 1) && |a.slots| + a.addrs < |a.ifas|
    requires var l, m, e := Links(ms, n - 1), ms[n - 1], |a.slots| + a.addrs;
             var s := Slot(a.slots, m.index - 1, 0);
             && s < |l| && s < |a.slots| && l[s] == m.index
             && OnlyAt(a.ifas, a'.ifas, e) && AddrFilled(a'.ifas[e], e, a.ifas[s], m.index, m.family, m.prefix, m.attrs)
    ensures Says(a', ms, n)
  {
    hide NameIn, ApplyAll, MaskOf, Slot, AddrFilled;
    var l, m, e := Links(ms, n - 1), ms[n - 1], |a.slots| + a.addrs;
    var s := Slot(a.slots, m.index - 1, 0);
    assert LinkSays(a, ms, n - 1, s);
    forall j | 0 <= j < |a'.slots| ensures LinkSays(a', ms, n, j) {
      assert LinkSays(a, ms, n - 1, j);
    }
    forall p | 0 <= p < n && ms[p].Addr? ensures AddrPoints(a'.ifas, ms, l, p) {
      if p < n - 1 {
        assert AddrPoints(a.ifas, ms, l, p);
        CountsGrow(ms, p, n - 1);
      } else {
        NewAddrPoints(a.ifas, a'.ifas, ms, l, p, s);
      }
    }
  }

  /** The entry of the address that has just come. */
  lemma NewAddrPoints(ifas: seq<Entry>, ifas': seq<Entry>, ms: seq<Msg>, l: seq<int>, p: nat, s: nat)
    requires p < |ms| && ms[p].Addr? && s < |l| && s < |ifas| && l[s] == ms[p].index
    requires ifas[s].flags == LastFlags(ms, p, ms[p].index) && Named(ifas[s], s, LastName(ms, p, ms[p].index))
    requires var e := LinkCount(ms, |ms|) + AddrCount(ms, p);
             e < |ifas'| && AddrFilled(ifas'[e], e, ifas[s], ms[p].index, ms[p].family, ms[p].prefix, ms[p].attrs)
    ensures AddrPoints(ifas', ms, l, p)
  {
    hide NameIn, ApplyAll, MaskOf, LastFlags, LastName, LinkCount, AddrCount;
  }

  lemma {:induction false} AssembleSays(ms: seq<Msg>, n: nat)
    requires n <= |ms| && Orderly(ms)
    ensures Says(Assemble(ms, n), ms, n)
  {
    hide Orderly, StepLink, StepAddr, Says;
    if n == 0 {
      StartSays(ms);
    } else {
      AssembleSays(ms, n - 1);
      if ms[n - 1].Link? {
        LinkComes(ms, n);
      } else if ms[n - 1].Addr? {
        AddrComes(ms, n);
      } else {
        OtherSays(Assemble(ms, n - 1), ms, n);
      }
    }
  }

  lemma LinkComes(ms: seq<Msg>, n: nat)
    requires 0 < n <= |ms| && Orderly(ms) && ms[n - 1].Link? && Says(Assemble(ms, n - 1), ms, n - 1)
    ensures Says(Assemble(ms, n), ms, n)
  {
    hide Orderly, Tabled, Shape, Proper, StepLink, Says, NameIn, OnlyAt, LinkFilled;
    AssembleShape(ms, n - 1);
    LinksFacts(ms, n - 1);
    LinksFacts(ms, n);
    CountsGrow(ms, n, |ms|);
    var a, l, m := Assemble(ms, n - 1), Links(ms, n - 1), ms[n - 1];
    PositiveIndex(ms, n - 1);
    TabledSize(a.slots, l);
    LinkStepSays(a, l, m.index, m.flags, m.attrs);
    LinkSaysKept(a, StepLink(a, m.index, m.flags, m.attrs), ms, n);
  }

  lemma AddrComes(ms: seq<Msg>, n: nat)
    requires 0 < n <= |ms| && Orderly(ms) && ms[n - 1].Addr? && Says(Assemble(ms, n - 1), ms, n - 1)
    ensures Says(Assemble(ms, n), ms, n)
  {
    hide Orderly, Tabled, Shape, Proper, StepAddr, Says, NameIn, OnlyAt, AddrFilled;
    AssembleShape(ms, n - 1);
    LinksFacts(ms, n - 1);
    CountsGrow(ms, n - 1, |ms|);
    var a, l, m := Assemble(ms, n - 1), Links(ms, n - 1), ms[n - 1];
    SeenIndex(ms, n - 1);
    NextBlank(a, ms, n - 1);
    TabledSize(a.slots, l);
    AddrStepSays(a, l, m.index, m.family, m.prefix, m.attrs);
    AddrSaysKept(a, StepAddr(a, m.index, m.family, m.prefix, m.attrs), ms, n);
  }

  lemma TabledSize(m: seq<int>, l: seq<int>)
    requires Tabled(m, l)
    ensures |l| <= |m|
  {}

  lemma StartSays(ms: seq<Msg>)
    ensures Says(Assemble(ms, 0), ms, 0)
  {}

  lemma NextBlank(a: Asm, ms: seq<Msg>, n: nat)
    requires n <= |ms| && Says(a, ms, n) && |a.slots| + a.addrs < |a.ifas|
    ensures Unused(a.ifas[|a.slots| + a.addrs])
  {}

  lemma OtherSays(a: Asm, ms: seq<Msg>, n: nat)
    requires 0 < n <= |ms| && Says(a, ms, n - 1) && !ms[n - 1].Link? && !ms[n - 1].Addr?
    ensures Says(a, ms, n)
  {
    forall j | 0 <= j < |a.slots| ensures LinkSays(a, ms, n, j) {
      assert LinkSays(a, ms, n - 1, j);
    }
    forall p | 0 <= p < n && ms[p].Addr? ensures AddrPoints(a.ifas, ms, Links(ms, n), p) {
      assert AddrPoints(a.ifas, ms, Links(ms, n - 1), p);
    }
  }

  /** The last loop changes nothing but next pointers. */
  lemma ResultEntries(ms: seq<Msg>)
    requires Orderly(ms)
    ensures var r, ifas := Result(ms), Assemble(ms, |ms|).ifas;
            |r| == |ifas| && forall x :: 0 <= x < |ifas| ==> r[x] == ifas[x].(next := r[x].next)
  {
    hide Orderly;
    AssembleShape(ms, |ms|);
    LinksFacts(ms, |ms|);
    var a, l := Assemble(ms, |ms|), Links(ms, |ms|);
    forall x | 0 <= x < |a.ifas| ensures Result(ms)[x] == a.ifas[x].(next := Result(ms)[x].next) {
      if a.addrs > 0 {
        FixHolesAt(a.ifas, a.slots, |l|, 0, x);
      }
    }
  }

  /** The name by which an address without a label goes: its link's, if that had one when the address came. */
  ghost function SharedName(ms: seq<Msg>, p: nat): Option<string>
    requires p < |ms| && ms[p].Addr?
  {
    if LastName(ms, p, ms[p].index) == None then None else LastName(ms, |ms|, ms[p].index)
  }

  ghost predicate LinkReports(r: seq<Entry>, ms: seq<Msg>, j: nat)
    requires j < |Links(ms, |ms|)|
  {
    var n, x := |ms|, Links(ms, |ms|)[j];
    j < |r| && r[j].flags == LastFlags(ms, n, x) && NameOf(r, j) == LastName(ms, n, x) && r[j].data == LastStats(ms, n, x)
  }

  ghost predicate AddrReports(r: seq<Entry>, ms: seq<Msg>, p: nat)
    requires p < |ms| && ms[p].Addr?
  {
    var e, own := LinkCount(ms, |ms|) + AddrCount(ms, p), NameIn(ms[p].attrs, None);
    && e < |r| && r[e].flags == LastFlags(ms, p, ms[p].index) && r[e].data == None
    && Traced(ms[p].attrs, r[e].sockets, ms[p].family, ms[p].index)
    && (Once(Addresses(ms[p].attrs)) ==> Settles(Addresses(ms[p].attrs), r[e].sockets, ms[p].family, ms[p].index))
    && MaskRight(r[e].mask, r[e].sockets, ms[p].prefix)
    && NameOf(r, e) == if own.Some? then own else SharedName(ms, p)
  }

  /**
   * Slot j holds the j-th link with the flags, the name and the statistics its messages gave it
   * last.  The entry of an address has the flags its link had when the address came; it goes by its
   * label, or else, if its link had a name by then, by the name that link ends with; its socket
   * addresses are settled by its own message, and its netmask has as many ones as the prefix says.
   */
  lemma ResultSays(ms: seq<Msg>)
    requires Orderly(ms)
    ensures forall j :: 0 <= j < |Links(ms, |ms|)| ==> LinkReports(Result(ms), ms, j)
    ensures forall p :: 0 <= p < |ms| && ms[p].Addr? ==> AddrReports(Result(ms), ms, p)
  {
    hide Orderly, Result, LinkReports, AddrReports;
    forall j | 0 <= j < |Links(ms, |ms|)| ensures LinkReports(Result(ms), ms, j) {
      LinkReported(ms, j);
    }
    forall p | 0 <= p < |ms| && ms[p].Addr? ensures AddrReports(Result(ms), ms, p) {
      AddrReported(ms, p);
    }
  }

  lemma LinkReported(ms: seq<Msg>, j: nat)
    requires Orderly(ms) && j < |Links(ms, |ms|)|
    ensures LinkReports(Result(ms), ms, j)
  {
    hide Orderly, Tabled, Shape, Result, AddrPoints;
    AssembleSays(ms, |ms|);
    AssembleShape(ms, |ms|);
    ResultEntries(ms);
    TabledSize(Assemble(ms, |ms|).slots, Links(ms, |ms|));
    assert LinkSays(Assemble(ms, |ms|), ms, |ms|, j);
  }

  lemma AddrReported(ms: seq<Msg>, p: nat)
    requires Orderly(ms) && p < |ms| && ms[p].Addr?
    ensures AddrReports(Result(ms), ms, p)
  {
    hide Orderly, Tabled, Shape, Result, ApplyAll, Addresses, Settles, Traced, MaskOf, MaskRight;
    var n, m := |ms|, ms[p];
    AssembleSays(ms, n);
    AssembleShape(ms, n);
    ResultEntries(ms);
    var a, l := Assemble(ms, n), Links(ms, n);
    TabledSize(a.slots, l);
    assert AddrPoints(a.ifas, ms, l, p);
    AllTraced(m.attrs, m.family, m.index);
    if Once(Addresses(m.attrs)) {
      PointToPoint(m.attrs, m.family, m.index);
    }
    MaskOfRight(ApplyAll(NOWHERE, m.attrs, m.family, m.index), m.prefix);
    if NameIn(m.attrs, None) == None && LastName(ms, p, m.index).Some? {
      NameStays(ms, p, n, m.index);
      assert LinkSays(a, ms, n, a.ifas[LinkCount(ms, n) + AddrCount(ms, p)].name);
    }
  }

  /** An address that came under its link's first name is found under the name the link got afterwards. */
  lemma RenamedLater()
    ensures var ms := [Link(1, 0, [Name("a")]), Addr(1, AF_INET, 24, []), Link(1, 0, [Name("b")])];
            Orderly(ms) && LastName(ms, 1, 1) == Some("a") && |Result(ms)| == 3 && NameOf(Result(ms), 2) == Some("b")
  {
    var ms := [Link(1, 0, [Name("a")]), Addr(1, AF_INET, 24, []), Link(1, 0, [Name("b")])];
    assert Links(ms, 0) == [] && Links(ms, 1) == [1];
    OneName("a", None);
    OneName("b", Some("a"));
    assert LastName(ms, 0, 1) == None && LastName(ms, 1, 1) == Some("a") && LastName(ms, 2, 1) == Some("a");
    assert LastName(ms, 3, 1) == Some("b");
    LinkAndAddr(ms);
    ResultSays(ms);
    assert AddrReports(Result(ms), ms, 1);
  }

  lemma LinkAndAddr(ms: seq<Msg>)
    requires |ms| == 3 && ms[0].Link? && ms[1].Addr? && ms[2].Link?
    ensures LinkCount(ms, 3) == 2 && AddrCount(ms, 1) == 0 && AddrCount(ms, 3) == 1
  {
    assert LinkCount(ms, 0) == 0 && AddrCount(ms, 0) == 0;
    assert LinkCount(ms, 1) == 1 && AddrCount(ms, 1) == 0;
    assert LinkCount(ms, 2) == 1 && AddrCount(ms, 2) == 1;
  }

  lemma OneName(x: string, name: Option<string>)
    requires |x| == 1
    ensures NameIn([Name(x)], name) == Some(x)
  {
    assert [Name(x)][1..] == [];
  }

  // ----- Room for the statistics -----

  lemma {:induction false} StatsMore(attrs: seq<Attr>)
    ensures FirstStats(attrs) <= AllStats(attrs)
  {
    if attrs != [] {
      StatsMore(attrs[1..]);
    }
  }

  /**
   * The statistics stay inside what the first pass allocated exactly if no link message has a
   * non-empty statistics attribute after its first: the first pass counts one per message.
   */
  lemma {:induction false} StatsFit(ms: seq<Msg>, n: nat)
    requires n <= |ms|
    ensures DataCounted(ms, n) <= DataStored(ms, n)
    ensures DataStored(ms, n) <= DataCounted(ms, n) <==>
              forall k :: 0 <= k < n && ms[k].Link? ==> AllStats(ms[k].attrs) == FirstStats(ms[k].attrs)
  {
    if n > 0 {
      StatsFit(ms, n - 1);
      if ms[n - 1].Link? {
        StatsMore(ms[n - 1].attrs);
      }
    }
  }

  lemma {:induction false} StatsInRange(attrs: seq<Attr>, used: nat, last: Option<(nat, nat)>)
    ensures var d := StatsIn(attrs, used, last);
            d == last || (d.Some? && used <= d.value.0 && d.value.0 + d.value.1 <= used + AllStats(attrs))
  {
    if attrs != [] {
      if attrs[0].Stats? {
        StatsInRange(attrs[1..], used + attrs[0].size, Some((used, attrs[0].size)));
      } else {
        StatsInRange(attrs[1..], used, last);
      }
    }
  }

  ghost predicate Apart(d: Option<(nat, nat)>, e: Option<(nat, nat)>) {
    d.Some? && e.Some? ==> d.value.0 + d.value.1 <= e.value.0 || e.value.0 + e.value.1 <= d.value.0
  }

  /** The statistics of each link lie within what is stored, and those of different links apart. */
  lemma {:induction false} StatsApart(ms: seq<Msg>, n: nat, x: int, y: int)
    requires n <= |ms|
    ensures LastStats(ms, n, x).Some? ==> LastStats(ms, n, x).value.0 + LastStats(ms, n, x).value.1 <= DataStored(ms, n)
    ensures x != y ==> Apart(LastStats(ms, n, x), LastStats(ms, n, y))
  {
    if n > 0 {
      StatsApart(ms, n - 1, x, y);
      StatsApart(ms, n - 1, y, x);
      if ms[n - 1].Link? {
        StatsInRange(ms[n - 1].attrs, DataStored(ms, n - 1), LastStats(ms, n - 1, ms[n - 1].index));
      }
    }
  }

  /** One link with two statistics attributes is stored beyond the space that was counted. */
  lemma StatsOverrun()
    ensures var ms := [Link(1, 0, [Stats(4), Stats(4)])];
            Orderly(ms) && DataCounted(ms, 1) == 4 && DataStored(ms, 1) == 8
            && LastStats(ms, 1, 1) == Some((4, 4))
  {
    var ms := [Link(1, 0, [Stats(4), Stats(4)])];
    var attrs := ms[0].attrs;
    assert attrs[1..] == [Stats(4)] && [Stats(4)][1..] == [];
    assert AllStats([Stats(4)]) == 4 && StatsIn([Stats(4)], 4, Some((0, 4))) == Some((4, 4));
    assert DataCounted(ms, 0) == 0 && DataStored(ms, 0) == 0;
  }

  // ----- What both passes look at, by position -----

  /** A message the passes look at: for us, and with no end marker at or before it in its response. */
  ghost predicate Ours(r: Response, j: nat) {
    r.present && j < |r.msgs| && r.msgs[j] != Foreign && forall k :: 0 <= k <= j ==> r.msgs[k] != Finished
  }

  ghost predicate Before(a: (nat, nat), b: (nat, nat)) {
    a.0 < b.0 || (a.0 == b.0 && a.1 < b.1)
  }

  /** `at` lists, in order, the positions of exactly our messages. */
  ghost predicate Positions(rs: seq<Response>, at: seq<(nat, nat)>) {
    && (forall n :: 0 <= n < |at| ==> at[n].0 < |rs| && Ours(rs[at[n].0], at[n].1))
    && (forall m, n :: 0 <= m < n < |at| ==> Before(at[m], at[n]))
    && (forall i: nat, j: nat {:trigger Ours(rs[i], j)} :: i < |rs| && Ours(rs[i], j) ==> (i, j) in at)
  }

  ghost predicate MessagesAt(rs: seq<Response>, at: seq<(nat, nat)>, ms: seq<Msg>) {
    && |ms| == |at|
    && forall n :: 0 <= n < |at| ==> at[n].0 < |rs| && at[n].1 < |rs[at[n].0].msgs| && ms[n] == rs[at[n].0].msgs[at[n].1]
  }

  /** The positions in one response, from its `j`-th message on. */
  ghost predicate Within(msgs: seq<Msg>, j: nat, at: seq<nat>) {
    && (forall n :: 0 <= n < |at| ==> j <= at[n] < |msgs| && Clear(msgs, j, at[n]))
    && (forall m, n :: 0 <= m < n < |at| ==> at[m] < at[n])
    && (forall k: nat {:trigger Clear(msgs, j, k)} :: j <= k < |msgs| && Clear(msgs, j, k) ==> k in at)
  }

  ghost predicate Clear(msgs: seq<Msg>, j: nat, k: nat) {
    k < |msgs| && msgs[k] != Foreign && forall i :: j <= i <= k ==> msgs[i] != Finished
  }

  lemma ClearNext(msgs: seq<Msg>, j: nat, k: nat)
    requires j < k && j < |msgs| && msgs[j] != Finished
    ensures Clear(msgs, j, k) <==> Clear(msgs, j + 1, k)
  {}

  lemma WithinNone(msgs: seq<Msg>, j: nat)
    requires j <= |msgs| && (j < |msgs| ==> msgs[j] == Finished)
    ensures Within(msgs, j, [])
  {}

  lemma WithinSkip(msgs: seq<Msg>, j: nat, rest: seq<nat>)
    requires j < |msgs| && msgs[j] == Foreign && Within(msgs, j + 1, rest)
    ensures Within(msgs, j, rest)
  {
    hide Clear;
    forall k: nat {:trigger Clear(msgs, j, k)} | j < k ensures Clear(msgs, j, k) <==> Clear(msgs, j + 1, k) {
      ClearNext(msgs, j, k);
    }
    NotClear(msgs, j);
  }

  lemma NotClear(msgs: seq<Msg>, j: nat)
    requires j < |msgs|
    ensures Clear(msgs, j, j) <==> msgs[j] != Foreign && msgs[j] != Finished
  {}

  lemma WithinMore(msgs: seq<Msg>, j: nat, rest: seq<nat>)
    requires j < |msgs| && msgs[j] != Foreign && msgs[j] != Finished && Within(msgs, j + 1, rest)
    ensures Within(msgs, j, [j] + rest)
  {
    hide Clear;
    var at := [j] + rest;
    NotClear(msgs, j);
    forall k: nat {:trigger Clear(msgs, j, k)} | j < k ensures Clear(msgs, j, k) <==> Clear(msgs, j + 1, k) {
      ClearNext(msgs, j, k);
    }
    forall k: nat {:trigger Clear(msgs, j, k)} | j <= k < |msgs| && Clear(msgs, j, k) ensures k in at {
      if k == j {
        assert at[0] == j;
      } else {
        assert k in rest;
      }
    }
  }

  /** `ms` are the messages of `msgs` at the positions `at`. */
  ghost predicate Picked(msgs: seq<Msg>, at: seq<nat>, ms: seq<Msg>) {
    |ms| == |at| && forall n :: 0 <= n < |at| ==> at[n] < |msgs| && ms[n] == msgs[at[n]]
  }

  lemma {:induction false} WantedWithin(msgs: seq<Msg>, j: nat) returns (at: seq<nat>)
    requires j <= |msgs|
    ensures Within(msgs, j, at) && Picked(msgs, at, Wanted(msgs[j..]))
    decreases |msgs| - j
  {
    hide Within;
    if j == |msgs| || msgs[j] == Finished {
      at := [];
      WithinNone(msgs, j);
    } else {
      assert msgs[j..][0] == msgs[j] && msgs[j..][1..] == msgs[j + 1..];
      at := WantedWithin(msgs, j + 1);
      if msgs[j] == Foreign {
        WithinSkip(msgs, j, at);
      } else {
        WithinMore(msgs, j, at);
        at := [j] + at;
      }
    }
  }

  ghost function Pairs(i: nat, here: seq<nat>): (r: seq<(nat, nat)>)
    ensures |r| == |here| && forall n :: 0 <= n < |r| ==> r[n] == (i, here[n])
  {
    if here == [] then [] else [(i, here[0])] + Pairs(i, here[1..])
  }

  /** The messages that both passes look at are exactly ours, response after response and in order. */
  lemma {:induction false} OursExactly(rs: seq<Response>) returns (at: seq<(nat, nat)>)
    ensures Positions(rs, at) && MessagesAt(rs, at, AllWanted(rs))
  {
    hide Within, Positions, Wanted;
    if rs == [] {
      at := [];
      NoPositions();
    } else {
      var n := |rs| - 1;
      var before := OursExactly(rs[..n]);
      AllWantedLast(rs);
      var here: seq<nat> := [];
      if rs[n].present {
        here := WantedWithin(rs[n].msgs, 0);
        assert rs[n].msgs[0..] == rs[n].msgs;
      }
      at := before + Pairs(n, here);
      PositionsMore(rs, before, here);
      MessagesMore(rs, before, here);
    }
  }

  lemma NoPositions()
    ensures Positions([], [])
  {}

  lemma MessagesMore(rs: seq<Response>, before: seq<(nat, nat)>, here: seq<nat>)
    requires rs != [] && MessagesAt(rs[..|rs| - 1], before, AllWanted(rs[..|rs| - 1]))
    requires if rs[|rs| - 1].present then Picked(rs[|rs| - 1].msgs, here, Wanted(rs[|rs| - 1].msgs)) else here == []
    ensures MessagesAt(rs, before + Pairs(|rs| - 1, here), AllWanted(rs))
  {
    hide Wanted, AllWanted;
    AllWantedLast(rs);
    var last := |rs| - 1;
    var at := before + Pairs(last, here);
    forall n | 0 <= n < |at|
      ensures at[n].0 < |rs| && at[n].1 < |rs[at[n].0].msgs| && AllWanted(rs)[n] == rs[at[n].0].msgs[at[n].1]
    {
      if n < |before| {
        assert rs[..last][before[n].0] == rs[before[n].0];
      }
    }
  }

  lemma {:induction false} AllWantedLast(rs: seq<Response>)
    requires rs != []
    ensures var n := |rs| - 1;
            AllWanted(rs) == AllWanted(rs[..n]) + if rs[n].present then Wanted(rs[n].msgs) else []
  {
    if |rs| > 1 {
      AllWantedLast(rs[1..]);
      assert rs[1..][..|rs| - 2] == rs[..|rs| - 1][1..];
    }
  }

  lemma PositionsMore(rs: seq<Response>, before: seq<(nat, nat)>, here: seq<nat>)
    requires rs != [] && Positions(rs[..|rs| - 1], before)
    requires if rs[|rs| - 1].present then Within(rs[|rs| - 1].msgs, 0, here) else here == []
    ensures Positions(rs, before + Pairs(|rs| - 1, here))
  {
    var last := |rs| - 1;
    var tail := Pairs(last, here);
    var at := before + tail;
    forall n | 0 <= n < |at| ensures at[n].0 < |rs| && Ours(rs[at[n].0], at[n].1) {
      if n < |before| {
        assert rs[..last][before[n].0] == rs[before[n].0];
      } else {
        assert Clear(rs[last].msgs, 0, here[n - |before|]);
      }
    }
    forall m, n | 0 <= m < n < |at| ensures Before(at[m], at[n]) {
      if m < |before| && n >= |before| {
        assert before[m].0 < last;
      }
    }
    forall i: nat, j: nat {:trigger Ours(rs[i], j)} | i < |rs| && Ours(rs[i], j) ensures (i, j) in at {
      if i < last {
        assert Ours(rs[..last][i], j);
        assert (i, j) in before;
      } else {
        assert Clear(rs[last].msgs, 0, j);
        var n :| 0 <= n < |here| && here[n] == j;
        assert tail[n] == (i, j);
      }
    }
  }

  ghost function LinksAmong(ms: seq<Msg>, n: nat): set<nat>
    requires n <= |ms|
  {
    set k: nat | k < n && ms[k].Link?
  }

  ghost function AddrsAmong(ms: seq<Msg>, n: nat): set<nat>
    requires n <= |ms|
  {
    set k: nat | k < n && ms[k].Addr?
  }

  lemma AmongMore(ms: seq<Msg>, n: nat)
    requires 0 < n <= |ms|
    ensures LinksAmong(ms, n) == if ms[n - 1].Link? then LinksAmong(ms, n - 1) + {n - 1} else LinksAmong(ms, n - 1)
    ensures AddrsAmong(ms, n) == if ms[n - 1].Addr? then AddrsAmong(ms, n - 1) + {n - 1} else AddrsAmong(ms, n - 1)
    ensures n - 1 !in LinksAmong(ms, n - 1) && n - 1 !in AddrsAmong(ms, n - 1)
  {}

  /** What the first pass counts is the number of link messages and of address messages. */
  lemma {:induction false} CountsExactly(ms: seq<Msg>, n: nat)
    requires n <= |ms|
    ensures LinkCount(ms, n) == |LinksAmong(ms, n)| && AddrCount(ms, n) == |AddrsAmong(ms, n)|
  {
    if n == 0 {
      assert LinksAmong(ms, 0) == {} && AddrsAmong(ms, 0) == {};
    } else {
      hide LinksAmong, AddrsAmong;
      CountsExactly(ms, n - 1);
      AmongMore(ms, n);
    }
  }

  /** For a link message it counts the size of the first statistics attribute. */
  lemma {:induction false} FirstStatsExactly(attrs: seq<Attr>) returns (i: nat)
    ensures i <= |attrs| && forall k :: 0 <= k < i ==> !attrs[k].Stats?
    ensures if i < |attrs| then attrs[i].Stats? && FirstStats(attrs) == attrs[i].size else FirstStats(attrs) == 0
  {
    if attrs == [] || attrs[0].Stats? {
      i := 0;
    } else {
      var k := FirstStatsExactly(attrs[1..]);
      i := k + 1;
    }
  }
}
