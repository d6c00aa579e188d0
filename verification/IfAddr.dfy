/**
 * The addresses of one interface entry: what each attribute of an address message stores, what that
 * comes to for every order of the attributes, and the netmask.
 */
module IfAddr {
  import opened Basics

  // An address message carries a destination, a local and a broadcast address in any order.  The
  // entry has two socket addresses, and which attribute ends up in which depends on what came before.

  datatype Attr =
    | Name(name: string)
    | Stats(size: nat)
    | Dest(bytes: seq<bv8>)
    | Local(bytes: seq<bv8>)
    | Broadcast(bytes: seq<bv8>)
    | OtherAttr

  const AF_UNSPEC: nat := 0
  const AF_INET: nat := 2
  const AF_INET6: nat := 10
  const AF_PACKET: nat := 17

  /** The space for an address of a family that is not known here. */
  const ROOM: nat := 36

  datatype Sock = Sock(family: nat, bytes: seq<bv8>, scope: int)

  const BLANK: Sock := Sock(AF_UNSPEC, [], 0)

  /** The two socket addresses of an entry, and whether its pointers to them are set. */
  datatype Sockets = Sockets(addr: Sock, hasAddr: bool, broad: Sock, hasBroad: bool)

  const NOWHERE: Sockets := Sockets(BLANK, false, BLANK, false)

  /** Link-local unicast or multicast. */
  function LinkLocal(bytes: seq<bv8>): bool
    requires |bytes| == 16
  {
    (bytes[0] == 0xfe && bytes[1] & 0xc0 == 0x80) || (bytes[0] == 0xff && bytes[1] & 0x0f == 0x02)
  }

  /** Store a payload over what is there; one of the wrong size changes the family only. */
  function Put(was: Sock, family: nat, index: int, p: seq<bv8>): Sock {
    var s := was.(family := family);
    if family == AF_INET then if |p| == 4 then s.(bytes := p) else s
    else if family == AF_INET6 then
      if |p| == 16 then s.(bytes := p, scope := if LinkLocal(p) then index else s.scope) else s
    else if |p| <= ROOM then s.(bytes := p + if |p| < |s.bytes| then s.bytes[|p|..] else [])
    else s
  }

  function Apply(z: Sockets, a: Attr, family: nat, index: int): Sockets {
    match a
    case Dest(p) =>
      if z.hasAddr then z.(broad := Put(z.broad, family, index, p), hasBroad := true)
      else z.(addr := Put(z.addr, family, index, p), hasAddr := true)
    case Local(p) =>
      var z1 := if z.hasAddr then z.(broad := z.addr, hasBroad := true, addr := BLANK) else z;
      z1.(addr := Put(z1.addr, family, index, p), hasAddr := true)
    case Broadcast(p) =>
      z.(broad := Put(if z.hasBroad then BLANK else z.broad, family, index, p), hasBroad := true)
    case _ => z
  }

  function ApplyAll(z: Sockets, attrs: seq<Attr>, family: nat, index: int): Sockets
    decreases |attrs|
  {
    if attrs == [] then z else ApplyAll(Apply(z, attrs[0], family, index), attrs[1..], family, index)
  }

  // ----- What is stored -----

  /** fe80:: to febf:ffff:..., or a multicast address whose scope digit is 2. */
  ghost predicate InLinkRange(p: seq<bv8>)
    requires |p| == 16
  {
    || (p[0] == 0xfe && 0x80 <= p[1] <= 0xbf)
    || (p[0] == 0xff && p[1] in {0x02, 0x12, 0x22, 0x32, 0x42, 0x52, 0x62, 0x72, 0x82, 0x92, 0xa2, 0xb2, 0xc2, 0xd2, 0xe2, 0xf2})
  }

  /** Payload `p` was stored over `was`: only one of the right size for its family gets there. */
  ghost predicate Stored(was: Sock, now: Sock, family: nat, index: int, p: seq<bv8>) {
    && now.family == family
    && (family == AF_INET ==> now.bytes == (if |p| == 4 then p else was.bytes) && now.scope == was.scope)
    && (family == AF_INET6 ==>
          && now.bytes == (if |p| == 16 then p else was.bytes)
          && now.scope == (if |p| == 16 && InLinkRange(p) then index else was.scope))
    && (family != AF_INET && family != AF_INET6 ==>
          && now.scope == was.scope
          && (|p| > 36 ==> now.bytes == was.bytes)
          && (|p| <= 36 ==>
                && |now.bytes| == (if |p| < |was.bytes| then |was.bytes| else |p|)
                && forall i :: 0 <= i < |now.bytes| ==> now.bytes[i] == if i < |p| then p[i] else was.bytes[i]))
  }

  lemma LinkRange(p: seq<bv8>)
    requires |p| == 16
    ensures LinkLocal(p) <==> InLinkRange(p)
  {
    UnicastBits(p[1]);
    MulticastBits(p[1]);
  }

  lemma UnicastBits(b: bv8)
    ensures b & 0xc0 == 0x80 <==> 0x80 <= b <= 0xbf
  {}

  lemma MulticastBits(b: bv8)
    ensures b & 0x0f == 0x02 <==>
              b in {0x02, 0x12, 0x22, 0x32, 0x42, 0x52, 0x62, 0x72, 0x82, 0x92, 0xa2, 0xb2, 0xc2, 0xd2, 0xe2, 0xf2}
  {}

  lemma PutStores(was: Sock, family: nat, index: int, p: seq<bv8>)
    ensures Stored(was, Put(was, family, index, p), family, index, p)
  {
    hide LinkLocal, InLinkRange;
    if |p| == 16 {
      LinkRange(p);
    }
  }

  /** What one attribute does: which of the two addresses it is stored in, and over what. */
  ghost predicate Applied(z: Sockets, a: Attr, z': Sockets, family: nat, index: int) {
    match a
    case Dest(p) =>
      && z'.hasAddr
      && (if z.hasAddr then Stored(z.broad, z'.broad, family, index, p) && z'.hasBroad && z'.addr == z.addr
          else Stored(z.addr, z'.addr, family, index, p) && z'.hasBroad == z.hasBroad && z'.broad == z.broad)
    case Local(p) =>
      && z'.hasAddr && z'.hasBroad == (z.hasBroad || z.hasAddr)
      && Stored(if z.hasAddr then BLANK else z.addr, z'.addr, family, index, p)
      && z'.broad == (if z.hasAddr then z.addr else z.broad)
    case Broadcast(p) =>
      && z'.hasBroad && z'.hasAddr == z.hasAddr && z'.addr == z.addr
      && Stored(if z.hasBroad then BLANK else z.broad, z'.broad, family, index, p)
    case _ => z' == z
  }

  lemma ApplyApplies(z: Sockets, a: Attr, family: nat, index: int)
    ensures Applied(z, a, Apply(z, a, family, index), family, index)
  {
    hide Put, Stored;
    match a
    case Dest(p) =>
      PutStores(z.broad, family, index, p);
      PutStores(z.addr, family, index, p);
    case Local(p) =>
      PutStores(BLANK, family, index, p);
      PutStores(z.addr, family, index, p);
    case Broadcast(p) =>
      PutStores(BLANK, family, index, p);
      PutStores(z.broad, family, index, p);
    case _ =>
  }

  /** Attribute after attribute leads from nothing to `z`. */
  ghost predicate Traced(attrs: seq<Attr>, z: Sockets, family: nat, index: int) {
    exists zs: seq<Sockets> :: Trace(zs, attrs, z, family, index)
  }

  ghost predicate Trace(zs: seq<Sockets>, attrs: seq<Attr>, z: Sockets, family: nat, index: int) {
    && |zs| == |attrs| + 1 && zs[0] == Sockets(Sock(0, [], 0), false, Sock(0, [], 0), false) && zs[|attrs|] == z
    && forall i :: 0 <= i < |attrs| ==> Applied(zs[i], attrs[i], zs[i + 1], family, index)
  }

  lemma {:induction false} AllTraced(attrs: seq<Attr>, family: nat, index: int)
    ensures Traced(attrs, ApplyAll(NOWHERE, attrs, family, index), family, index)
    decreases |attrs|
  {
    hide Applied, Apply;
    if attrs == [] {
      assert Trace([NOWHERE], attrs, NOWHERE, family, index);
    } else {
      var n := |attrs| - 1;
      AllTraced(attrs[..n], family, index);
      ApplyLast(NOWHERE, attrs, family, index);
      var z := ApplyAll(NOWHERE, attrs[..n], family, index);
      var zs :| Trace(zs, attrs[..n], z, family, index);
      ApplyApplies(z, attrs[n], family, index);
      var z' := Apply(z, attrs[n], family, index);
      assert Trace(zs + [z'], attrs, z', family, index);
    }
  }

  lemma {:induction false} ApplyLast(z: Sockets, attrs: seq<Attr>, family: nat, index: int)
    requires attrs != []
    ensures ApplyAll(z, attrs, family, index) ==
              Apply(ApplyAll(z, attrs[..|attrs| - 1], family, index), attrs[|attrs| - 1], family, index)
    decreases |attrs|
  {
    hide Apply;
    if |attrs| > 1 {
      ApplyLast(Apply(z, attrs[0], family, index), attrs[1..], family, index);
      assert attrs[1..][..|attrs| - 2] == attrs[..|attrs| - 1][1..];
    }
  }

  // ----- What the order matters for -----

  datatype Kind = ToDest | ToLocal | ToBroadcast | Elsewhere

  function KindOf(a: Attr): Kind {
    match a
    case Dest(_) => ToDest
    case Local(_) => ToLocal
    case Broadcast(_) => ToBroadcast
    case _ => Elsewhere
  }

  /** The addresses among the attributes, in order. */
  ghost function Addresses(attrs: seq<Attr>): (r: seq<Attr>)
    ensures forall i :: 0 <= i < |r| ==> KindOf(r[i]) != Elsewhere
  {
    if attrs == [] then []
    else if KindOf(attrs[0]) == Elsewhere then Addresses(attrs[1..])
    else [attrs[0]] + Addresses(attrs[1..])
  }

  ghost predicate Once(r: seq<Attr>) {
    forall i, j :: 0 <= i < j < |r| ==> KindOf(r[i]) != KindOf(r[j])
  }

  ghost function Place(r: seq<Attr>, k: Kind): (i: nat)
    ensures i <= |r| && (i < |r| ==> KindOf(r[i]) == k)
  {
    if r == [] then 0 else if KindOf(r[0]) == k then 0 else 1 + Place(r[1..], k)
  }

  ghost function Given(r: seq<Attr>, k: Kind): Option<seq<bv8>>
    requires k != Elsewhere
  {
    if Place(r, k) < |r| then Some(r[Place(r, k)].bytes) else None
  }

  lemma {:induction false} OnlyAddresses(z: Sockets, attrs: seq<Attr>, family: nat, index: int)
    ensures ApplyAll(z, attrs, family, index) == ApplyAll(z, Addresses(attrs), family, index)
    decreases |attrs|
  {
    if attrs != [] {
      OnlyAddresses(Apply(z, attrs[0], family, index), attrs[1..], family, index);
      if KindOf(attrs[0]) != Elsewhere {
        assert Addresses(attrs)[1..] == Addresses(attrs[1..]);
      }
    }
  }

  /** What the entry ends with, given each kind of address at most once. */
  ghost predicate Settles(r: seq<Attr>, z: Sockets, family: nat, index: int) {
    var dest, own, cast := Given(r, ToDest), Given(r, ToLocal), Given(r, ToBroadcast);
    var both := dest.Some? && own.Some?;
    && (z.hasAddr <==> dest.Some? || own.Some?)
    && (z.hasAddr ==> Stored(BLANK, z.addr, family, index, if own.Some? then own.value else dest.value))
    && (z.hasBroad <==> cast.Some? || both)
    && (z.hasBroad ==>
          var pointed := both && (cast == None || KindOf(r[|r| - 1]) != ToBroadcast);
          if pointed && cast.Some? && Place(r, ToLocal) < Place(r, ToDest) then
            StoredOver(cast.value, dest.value, z.broad, family, index)
          else Stored(BLANK, z.broad, family, index, if pointed then dest.value else cast.value))
  }

  /** Payload `q` was stored where `p` had been. */
  ghost predicate StoredOver(p: seq<bv8>, q: seq<bv8>, now: Sock, family: nat, index: int) {
    exists mid :: Stored(BLANK, mid, family, index, p) && Stored(mid, now, family, index, q)
  }

  /** Every store that the proofs below meet. */
  lemma PutsStore(family: nat, index: int)
    ensures forall was: Sock, p: seq<bv8> {:trigger Put(was, family, index, p)} :: Stored(was, Put(was, family, index, p), family, index, p)
  {
    hide Put, Stored;
    forall was: Sock, p: seq<bv8> {:trigger Put(was, family, index, p)} ensures Stored(was, Put(was, family, index, p), family, index, p) {
      PutStores(was, family, index, p);
    }
  }

  lemma {:induction false} PlaceAt(r: seq<Attr>, i: nat)
    requires Once(r) && i < |r|
    ensures Place(r, KindOf(r[i])) == i
  {
    if i > 0 {
      assert KindOf(r[0]) != KindOf(r[i]) && r[1..][i - 1] == r[i];
      PlaceAt(r[1..], i - 1);
    }
  }

  lemma {:induction false} PlaceNone(r: seq<Attr>, k: Kind)
    requires forall i :: 0 <= i < |r| ==> KindOf(r[i]) != k
    ensures Place(r, k) == |r|
  {
    if r != [] {
      PlaceNone(r[1..], k);
    }
  }

  lemma Places(r: seq<Attr>)
    requires Once(r)
    ensures forall i :: 0 <= i < |r| ==> Place(r, KindOf(r[i])) == i
    ensures forall k :: (forall i :: 0 <= i < |r| ==> KindOf(r[i]) != k) ==> Place(r, k) == |r|
  {
    forall i | 0 <= i < |r| ensures Place(r, KindOf(r[i])) == i {
      PlaceAt(r, i);
    }
    forall k | forall i :: 0 <= i < |r| ==> KindOf(r[i]) != k ensures Place(r, k) == |r| {
      PlaceNone(r, k);
    }
  }

  lemma OneOrNone(r: seq<Attr>, family: nat, index: int)
    requires |r| <= 1 && forall i :: 0 <= i < |r| ==> KindOf(r[i]) != Elsewhere
    ensures Settles(r, ApplyAll(NOWHERE, r, family, index), family, index)
  {
    hide Put, Stored;
    PutsStore(family, index);
    if |r| == 1 {
      assert r[1..] == [];
      assert ApplyAll(NOWHERE, r, family, index) == Apply(NOWHERE, r[0], family, index);
    }
  }

  lemma Two(r: seq<Attr>, family: nat, index: int)
    requires |r| == 2 && Once(r) && forall i :: 0 <= i < |r| ==> KindOf(r[i]) != Elsewhere
    ensures Settles(r, ApplyAll(NOWHERE, r, family, index), family, index)
  {
    hide Put, Stored, Place;
    PutsStore(family, index);
    Places(r);
    var z1 := Apply(NOWHERE, r[0], family, index);
    assert r[1..] == [r[1]] && [r[1]][1..] == [];
    assert ApplyAll(z1, [r[1]], family, index) == Apply(z1, r[1], family, index);
  }

  lemma Three(r: seq<Attr>, family: nat, index: int)
    requires |r| == 3 && Once(r) && forall i :: 0 <= i < |r| ==> KindOf(r[i]) != Elsewhere
    ensures Settles(r, ApplyAll(NOWHERE, r, family, index), family, index)
  {
    hide Put, Stored, Place;
    PutsStore(family, index);
    Places(r);
    var z1 := Apply(NOWHERE, r[0], family, index);
    var z2 := Apply(z1, r[1], family, index);
    assert r[1..] == [r[1], r[2]] && [r[1], r[2]][1..] == [r[2]] && [r[2]][1..] == [];
    assert ApplyAll(z2, [r[2]], family, index) == Apply(z2, r[2], family, index);
    assert ApplyAll(z1, r[1..], family, index) == Apply(z2, r[2], family, index);
  }

  lemma AtMostThree(r: seq<Attr>)
    requires Once(r) && forall i :: 0 <= i < |r| ==> KindOf(r[i]) != Elsewhere
    ensures |r| <= 3
  {
    if |r| > 3 {
      TwoAlike(KindOf(r[0]), KindOf(r[1]), KindOf(r[2]), KindOf(r[3]));
    }
  }

  lemma TwoAlike(a: Kind, b: Kind, c: Kind, d: Kind)
    requires a != Elsewhere && b != Elsewhere && c != Elsewhere && d != Elsewhere
    ensures a == b || a == c || a == d || b == c || b == d || c == d
  {}

  /**
   * Whatever the order and the attributes in between: the entry's address is the local one, or the
   * destination if there is no local one; its other address is the destination of a point-to-point
   * link, unless a broadcast address comes after both; only a destination that comes after a
   * broadcast and a local address is stored over what the broadcast address left.  What is stored is
   * said by `Stored`.
   */
  lemma PointToPoint(attrs: seq<Attr>, family: nat, index: int)
    requires Once(Addresses(attrs))
    ensures Settles(Addresses(attrs), ApplyAll(NOWHERE, attrs, family, index), family, index)
  {
    hide Settles, Apply, KindOf, Place;
    var r := Addresses(attrs);
    OnlyAddresses(NOWHERE, attrs, family, index);
    AtMostThree(r);
    if |r| <= 1 {
      OneOrNone(r, family, index);
    } else if |r| == 2 {
      Two(r, family, index);
    } else {
      Three(r, family, index);
    }
  }

  // ----- The netmask -----

  datatype Mask = Mask(family: nat, bits: seq<bv8>)

  /** The entry has an address of a family that can have a mask. */
  predicate HasMask(z: Sockets) {
    z.hasAddr && z.addr.family != AF_UNSPEC && z.addr.family != AF_PACKET
  }

  function MaxPrefix(family: nat): (n: nat)
    ensures n % 8 == 0
  {
    if family == AF_INET then 32 else if family == AF_INET6 then 128 else 0
  }

  function Clamped(prefix: nat, max: nat): nat {
    if prefix > max then max else prefix
  }

  ghost function MaskBytes(prefix: nat, max: nat): (bits: seq<bv8>)
    ensures |bits| == max / 8
  {
    var n := Clamped(prefix, max);
    seq(max / 8, i requires 0 <= i < max / 8 => if i < n / 8 then 0xff else if i == n / 8 then Partial(n % 8) else 0)
  }

  ghost function MaskOf(z: Sockets, prefix: nat): Option<Mask> {
    if HasMask(z) then Some(Mask(z.addr.family, MaskBytes(prefix, MaxPrefix(z.addr.family)))) else None
  }

  /** There is a mask exactly if there may be one, and its bits are 1 up to the prefix. */
  ghost predicate MaskRight(m: Option<Mask>, z: Sockets, prefix: nat) {
    && (m.Some? <==> z.hasAddr && z.addr.family != AF_UNSPEC && z.addr.family != AF_PACKET)
    && (m.Some? ==>
          && m.value.family == z.addr.family
          && |m.value.bits| == (if z.addr.family == AF_INET then 4 else if z.addr.family == AF_INET6 then 16 else 0)
          && forall k :: 0 <= k < 8 * |m.value.bits| ==> BitOf(m.value.bits, k) == if k < prefix then 1 else 0)
  }

  lemma MaskOfRight(z: Sockets, prefix: nat)
    ensures MaskRight(MaskOf(z, prefix), z, prefix)
  {
    hide BitOf, Partial;
    if HasMask(z) {
      var max := MaxPrefix(z.addr.family);
      forall k | 0 <= k < max ensures BitOf(MaskBytes(prefix, max), k) == if k < prefix then 1 else 0 {
        MaskBit(MaskBytes(prefix, max), Clamped(prefix, max), k);
      }
    }
  }

  /** Bit k of the mask, in network order. */
  function BitOf(mask: seq<bv8>, k: nat): bv8
    requires k / 8 < |mask|
  {
    (mask[k / 8] >> (7 - k % 8)) & 1
  }

  /** The byte that holds the last `r` bits: all ones shifted up. */
  function Partial(r: nat): bv8
    requires r < 8
  {
    (0xff as bv8) << (8 - r)
  }

  lemma PartialBit(r: nat, j: nat)
    requires r < 8 && j < 8
    ensures ((Partial(r) >> (7 - j)) & 1) == if j < r then 1 else 0
  {
    if r == 0 {} else if r == 1 {} else if r == 2 {} else if r == 3 {}
    else if r == 4 {} else if r == 5 {} else if r == 6 {} else {}
  }

  /** The partial byte is at most the one after the address, and then it is zero. */
  lemma WithinMask(preflen: nat, max: nat)
    requires preflen <= max && max % 8 == 0
    ensures preflen / 8 <= max / 8
    ensures preflen / 8 == max / 8 ==> Partial(preflen % 8) == 0
  {
    assert preflen / 8 == max / 8 ==> preflen % 8 == 0;
  }

  lemma FullBit(j: nat)
    requires j < 8
    ensures (((0xff as bv8) >> (7 - j)) & 1) == 1
  {
    if j == 0 {} else if j == 1 {} else if j == 2 {} else if j == 3 {}
    else if j == 4 {} else if j == 5 {} else if j == 6 {} else {}
  }

  lemma MaskBit(mask: seq<bv8>, preflen: nat, k: nat)
    requires k / 8 < |mask|
    requires mask[k / 8] == if k / 8 < preflen / 8 then 0xff else if k / 8 == preflen / 8 then Partial(preflen % 8) else 0
    ensures BitOf(mask, k) == if k < preflen then 1 else 0
  {
    FullBit(k % 8);
    PartialBit(preflen % 8, k % 8);
    ZeroBit(k % 8);
  }

  lemma ZeroBit(j: nat)
    requires j < 8
    ensures (((0 as bv8) >> (7 - j)) & 1) == 0
  {
    if j == 0 {} else if j == 1 {} else if j == 2 {} else if j == 3 {}
    else if j == 4 {} else if j == 5 {} else if j == 6 {} else {}
  }
}
