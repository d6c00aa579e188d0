/**
 * The control messages of a socket message: their bytes, the writer that adds them while there is
 * room, and the reader that gets them back.
 */
module ControlMessages {
  // The layout is that of a 64-bit little-endian machine: a header of 16 bytes (length, level and
  // type), then the payload, padded to a multiple of 8; see sections 5.2 and 5.3 of RFC 3542.

  type Byte = x: int | 0 <= x < 256
  type Int32 = x: int | -0x8000_0000 <= x < 0x8000_0000

  const HEADER: nat := 16
  const MSG_CTRUNC: bv32 := 8

  // ----- Numbers in memory -----

  function Little(x: nat, n: nat): (s: seq<Byte>)
    ensures |s| == n
  {
    if n == 0 then [] else [x % 256] + Little(x / 256, n - 1)
  }

  function Big(s: seq<Byte>): nat {
    if s == [] then 0 else s[0] + 256 * Big(s[1..])
  }

  function Power(n: nat): nat {
    if n == 0 then 1 else 256 * Power(n - 1)
  }

  lemma {:induction false} LittleRoundTrip(x: nat, n: nat)
    requires x < Power(n)
    ensures Big(Little(x, n)) == x
  {
    if n > 0 {
      assert Little(x, n)[1..] == Little(x / 256, n - 1);
      LittleRoundTrip(x / 256, n - 1);
    }
  }

  /** Two's complement. */
  function Signed(x: nat): int {
    if x < 0x8000_0000 then x else x - 0x1_0000_0000
  }

  function Unsigned(x: Int32): nat {
    if x >= 0 then x else x + 0x1_0000_0000
  }

  // ----- The layout -----

  function Align(n: nat): nat {
    (n + 7) / 8 * 8
  }

  /** CMSG_SPACE. */
  function Space(len: nat): nat {
    HEADER + Align(len)
  }

  /** What a caller asks to add: `len` bytes of a buffer readable up to the next multiple of 8. */
  datatype Request = Request(level: Int32, kind: Int32, len: nat, buffer: seq<Byte>)

  /** A message as it stands in the buffer: the payload is padded. */
  datatype Item = Item(level: int, kind: int, data: seq<Byte>)

  /** Lengths are C ints. */
  ghost predicate Proper(r: Request) {
    |r.buffer| >= Align(r.len) && Space(r.len) < 0x8000_0000
  }

  ghost function Padded(r: Request): Item
    requires Proper(r)
  {
    Item(r.level, r.kind, r.buffer[..Align(r.len)])
  }

  function Header(len: nat, level: Int32, kind: Int32): (s: seq<Byte>)
    ensures |s| == HEADER
  {
    Little(len, 8) + Little(Unsigned(level), 4) + Little(Unsigned(kind), 4)
  }

  ghost function Image(r: Request): seq<Byte>
    requires Proper(r)
  {
    Header(Space(r.len), r.level, r.kind) + r.buffer[..Align(r.len)]
  }

  // ----- The writer and the reader -----

  /** The message header's control buffer, length and flags, and one object walking along the buffer. */
  datatype Cursor = Cursor(memory: seq<Byte>, current: nat, left: int, controllen: nat, flags: bv32)

  function Truncated(flags: bv32): bv32 {
    flags | MSG_CTRUNC
  }

  ghost predicate Sound(c: Cursor) {
    c.current + c.left <= |c.memory|
  }

  ghost predicate Start(c: Cursor) {
    c.current == 0 && c.left == c.controllen <= |c.memory| && c.controllen < 0x8000_0000
  }

  ghost function Write(memory: seq<Byte>, at: nat, bytes: seq<Byte>): seq<Byte>
    requires at + |bytes| <= |memory|
  {
    memory[..at] + bytes + memory[at + |bytes|..]
  }

  ghost function Add(c: Cursor, r: Request): (c': Cursor)
    requires Sound(c) && Proper(r)
    ensures Sound(c') && c'.current + c'.left == c.current + c.left && c'.controllen == c.controllen
  {
    if c.left < Space(r.len) then c.(flags := Truncated(c.flags))
    else c.(memory := Write(c.memory, c.current, Image(r)), current := c.current + Space(r.len), left := c.left - Space(r.len))
  }

  ghost function Finish(c: Cursor): Cursor
    requires c.left <= c.controllen
  {
    c.(controllen := c.controllen - c.left)
  }

  /** A new object on the same message header. */
  ghost function Reopen(c: Cursor): Cursor {
    c.(current := 0, left := c.controllen)
  }

  datatype Answer = End | Got(level: int, kind: int, len: int, at: nat)

  function Stored(memory: seq<Byte>, at: nat): nat
    requires at + HEADER <= |memory|
  {
    Big(memory[at..at + 8])
  }

  /** A length that does not fit an int would be cut down by the comparison. */
  ghost predicate Readable(c: Cursor) {
    Sound(c) && (c.left >= HEADER ==> Stored(c.memory, c.current) < 0x8000_0000)
  }

  ghost function GetNext(c: Cursor): (Cursor, Answer)
    requires Readable(c)
  {
    if c.left < HEADER then (c, End)
    else
      var len := Stored(c.memory, c.current);
      if len == 0 || len > c.left then (c, End)
      else
        (c.(current := c.current + Align(len), left := c.left - Align(len)),
         Got(Signed(Big(c.memory[c.current + 8..c.current + 12])), Signed(Big(c.memory[c.current + 12..c.current + 16])),
             len - HEADER, c.current + HEADER))
  }

  // ----- Round trip -----

  ghost function AddAll(c: Cursor, rs: seq<Request>): (c': Cursor)
    requires Sound(c) && forall i :: 0 <= i < |rs| ==> Proper(rs[i])
    ensures Sound(c') && c'.current + c'.left == c.current + c.left && c'.controllen == c.controllen
    decreases |rs|
  {
    if rs == [] then c else AddAll(Add(c, rs[0]), rs[1..])
  }

  /** The requests that fit, each in what the earlier ones left. */
  ghost function Kept(rs: seq<Request>, room: int): seq<Request> {
    if rs == [] then []
    else if Space(rs[0].len) <= room then [rs[0]] + Kept(rs[1..], room - Space(rs[0].len))
    else Kept(rs[1..], room)
  }

  ghost predicate AllProper(rs: seq<Request>) {
    forall i :: 0 <= i < |rs| ==> Proper(rs[i])
  }

  lemma {:induction false} KeptProper(rs: seq<Request>, room: int)
    requires AllProper(rs)
    ensures AllProper(Kept(rs, room))
  {
    if rs != [] {
      KeptProper(rs[1..], if Space(rs[0].len) <= room then room - Space(rs[0].len) else room);
    }
  }

  ghost function Images(rs: seq<Request>): seq<Byte>
    requires AllProper(rs)
  {
    if rs == [] then [] else Image(rs[0]) + Images(rs[1..])
  }

  lemma ImageLength(r: Request)
    requires Proper(r)
    ensures |Image(r)| == Space(r.len)
  {}

  lemma AddFits(c: Cursor, r: Request)
    requires Sound(c) && Proper(r) && c.left >= Space(r.len)
    ensures var c' := Add(c, r);
            && c'.current == c.current + |Image(r)| && c'.left == c.left - |Image(r)|
            && c'.current <= |c'.memory| == |c.memory| && c'.flags == c.flags
            && c'.memory[..c'.current] == c.memory[..c.current] + Image(r)
            && c'.memory[c'.current..] == c.memory[c'.current..]
  {
    ImageLength(r);
    hide Image, Space;
  }

  /** The bytes before `c'` are those before `c` and then `b`; the bytes after are untouched. */
  ghost predicate Wrote(c: Cursor, c': Cursor, b: seq<Byte>) {
    && c.current <= |c.memory| == |c'.memory|
    && c'.current == c.current + |b| <= |c'.memory|
    && c'.memory[..c'.current] == c.memory[..c.current] + b
    && c'.memory[c'.current..] == c.memory[c'.current..]
  }

  lemma WroteBoth(c: Cursor, c1: Cursor, c2: Cursor, a: seq<Byte>, b: seq<Byte>)
    requires Wrote(c, c1, a) && Wrote(c1, c2, b)
    ensures Wrote(c, c2, a + b)
  {
    assert (c.memory[..c.current] + a) + b == c.memory[..c.current] + (a + b);
    assert c2.memory[c2.current..] == c1.memory[c1.current..][|b|..];
    assert c.memory[c2.current..] == c.memory[c1.current..][|b|..];
  }

  /** Every request finds room. */
  ghost predicate AllFit(rs: seq<Request>, room: int) {
    rs == [] || (Space(rs[0].len) <= room && AllFit(rs[1..], room - Space(rs[0].len)))
  }

  lemma {:induction false} AllFitKept(rs: seq<Request>, room: int)
    ensures AllFit(rs, room) <==> Kept(rs, room) == rs
  {
    if rs != [] {
      assert rs == [rs[0]] + rs[1..];
      if Space(rs[0].len) <= room {
        var k := Kept(rs[1..], room - Space(rs[0].len));
        AllFitKept(rs[1..], room - Space(rs[0].len));
        assert ([rs[0]] + k)[1..] == k;
      } else {
        KeptShorter(rs[1..], room);
      }
    }
  }

  lemma FlagRaised(f: bv32)
    ensures Truncated(f) & MSG_CTRUNC != 0
  {}

  lemma KeptStep(rs: seq<Request>, room: int)
    requires rs != [] && AllProper(rs)
    ensures Proper(rs[0]) && AllProper(rs[1..]) && AllProper(Kept(rs, room))
    ensures Space(rs[0].len) > room ==> Kept(rs, room) == Kept(rs[1..], room)
    ensures Space(rs[0].len) <= room ==>
              var k := Kept(rs[1..], room - Space(rs[0].len));
              && AllProper(k)
              && Images(Kept(rs, room)) == Image(rs[0]) + Images(k)
  {
    hide Image, Proper;
    KeptProper(rs, room);
    RestProper(rs);
    if Space(rs[0].len) <= room {
      var k := Kept(rs[1..], room - Space(rs[0].len));
      KeptProper(rs[1..], room - Space(rs[0].len));
      assert Kept(rs, room) == [rs[0]] + k && ([rs[0]] + k)[1..] == k;
    }
  }

  lemma AddAllStep(c: Cursor, rs: seq<Request>)
    requires Sound(c) && rs != [] && AllProper(rs)
    ensures Proper(rs[0]) && AllProper(rs[1..]) && AddAll(c, rs) == AddAll(Add(c, rs[0]), rs[1..])
  {}

  /** Where the messages end up, and what the flags say. */
  lemma {:induction false} AddAllWrites(c: Cursor, rs: seq<Request>)
    requires Sound(c) && AllProper(rs) && c.current <= |c.memory|
    ensures AllProper(Kept(rs, c.left))
    ensures Wrote(c, AddAll(c, rs), Images(Kept(rs, c.left)))
    ensures AddAll(c, rs).flags == (if AllFit(rs, c.left) then c.flags else Truncated(c.flags))
    decreases |rs|
  {
    hide Image, Images, Wrote, Proper, AllProper, Sound, Space, AddAll, Kept, Add, Truncated;
    if rs == [] {
      AddNothing(c, rs);
    } else {
      KeptStep(rs, c.left);
      AddAllStep(c, rs);
      var c1 := Add(c, rs[0]);
      if c.left < Space(rs[0].len) {
        AddFails(c, rs[0]);
        AddAllWrites(c1, rs[1..]);
        WroteSame(c, c1, AddAll(c1, rs[1..]), Images(Kept(rs, c.left)));
        Twice(c.flags);
      } else {
        AddFits(c, rs[0]);
        ImageLength(rs[0]);
        AddWrote(c, c1, rs[0]);
        AddAllWrites(c1, rs[1..]);
        WroteBoth(c, c1, AddAll(c1, rs[1..]), Image(rs[0]), Images(Kept(rs[1..], c1.left)));
      }
    }
  }

  lemma AddNothing(c: Cursor, rs: seq<Request>)
    requires Sound(c) && c.current <= |c.memory| && rs == []
    ensures AllProper(Kept(rs, c.left)) && Kept(rs, c.left) == rs && AllFit(rs, c.left) && AddAll(c, rs) == c && Wrote(c, c, Images(rs))
  {}

  lemma WroteSame(c: Cursor, c1: Cursor, c2: Cursor, b: seq<Byte>)
    requires c1 == c.(flags := c1.flags) && Wrote(c1, c2, b)
    ensures Wrote(c, c2, b)
  {}

  lemma RestProper(rs: seq<Request>)
    requires AllProper(rs) && rs != []
    ensures Proper(rs[0]) && AllProper(rs[1..])
  {}

  lemma AddFails(c: Cursor, r: Request)
    requires Sound(c) && Proper(r) && c.left < Space(r.len)
    ensures Add(c, r) == c.(flags := Truncated(c.flags))
  {}

  lemma AddWrote(c: Cursor, c': Cursor, r: Request)
    requires Sound(c) && Proper(r) && c.left >= Space(r.len) && c' == Add(c, r)
    ensures Wrote(c, c', Image(r))
  {
    AddFits(c, r);
  }

  lemma Twice(f: bv32)
    ensures Truncated(Truncated(f)) == Truncated(f)
  {}

  lemma {:induction false} KeptShorter(rs: seq<Request>, room: int)
    ensures |Kept(rs, room)| <= |rs|
  {
    if rs != [] {
      KeptShorter(rs[1..], if Space(rs[0].len) <= room then room - Space(rs[0].len) else room);
    }
  }

  /** `c` stands before exactly the messages `rs`. */
  ghost predicate Before(c: Cursor, rs: seq<Request>)
    requires AllProper(rs)
  {
    && Sound(c) && c.left == |Images(rs)|
    && c.memory[c.current..c.current + c.left] == Images(rs)
  }

  lemma HeaderReads(m: seq<Byte>, o: nat, r: Request)
    requires Proper(r) && o + Space(r.len) <= |m| && m[o..o + Space(r.len)] == Image(r)
    ensures Stored(m, o) == Space(r.len)
    ensures Signed(Big(m[o + 8..o + 12])) == r.level && Signed(Big(m[o + 12..o + 16])) == r.kind
    ensures m[o + 16..o + 16 + Align(r.len)] == r.buffer[..Align(r.len)]
  {
    var a, b, c := Little(Space(r.len), 8), Little(Unsigned(r.level), 4), Little(Unsigned(r.kind), 4);
    var d := r.buffer[..Align(r.len)];
    SplitFour(m, o, a, b, c, d);
    Powers();
    LittleRoundTrip(Space(r.len), 8);
    LittleRoundTrip(Unsigned(r.level), 4);
    LittleRoundTrip(Unsigned(r.kind), 4);
  }

  lemma SplitFour(m: seq<Byte>, o: nat, a: seq<Byte>, b: seq<Byte>, c: seq<Byte>, d: seq<Byte>)
    requires o + |a| + |b| + |c| + |d| <= |m| && m[o..o + |a| + |b| + |c| + |d|] == a + b + c + d
    ensures m[o..o + |a|] == a && m[o + |a|..o + |a| + |b|] == b
    ensures m[o + |a| + |b|..o + |a| + |b| + |c|] == c
    ensures m[o + |a| + |b| + |c|..o + |a| + |b| + |c| + |d|] == d
  {
    var n := |a| + |b| + |c| + |d|;
    assert a + b + c + d == a + (b + (c + d));
    SplitTwo(m, o, n, a, b + (c + d));
    SplitTwo(m, o + |a|, n - |a|, b, c + d);
    SplitTwo(m, o + |a| + |b|, n - |a| - |b|, c, d);
  }

  /** `a` stands at `o`, with `b` after it up to `o + n`. */
  lemma SplitTwo(m: seq<Byte>, o: nat, n: nat, a: seq<Byte>, b: seq<Byte>)
    requires o + n <= |m| && m[o..o + n] == a + b
    ensures |a| <= n && m[o..o + |a|] == a && m[o + |a|..o + |a| + (n - |a|)] == b
  {
    var x := m[o..o + n];
    assert m[o..o + |a|] == x[..|a|];
    forall k | 0 <= k < |b| ensures m[o + |a| + k] == b[k] {
      assert x[|a| + k] == m[o + (|a| + k)];
    }
    assert m[o + |a|..o + |a| + (n - |a|)] == b;
  }

  /** One call answers with the first message and moves on to the next. */
  lemma GetNextReads(c: Cursor, rs: seq<Request>)
    requires AllProper(rs) && Before(c, rs)
    ensures Readable(c)
    ensures rs == [] ==> GetNext(c) == (c, End)
    ensures rs != [] ==>
              var (c', a) := GetNext(c);
              AllProper(rs[1..]) && Before(c', rs[1..]) && Answers(c, a, Padded(rs[0]))
  {
    hide Image, Stored, Little, Big, Signed;
    if rs != [] {
      RestProper(rs);
      var r, o := rs[0], c.current;
      ImageLength(r);
      SplitTwo(c.memory, o, c.left, Image(r), Images(rs[1..]));
      HeaderReads(c.memory, o, r);
      AlignTwice(r.len);
    }
  }

  lemma Powers()
    ensures Power(4) == 0x1_0000_0000 && Power(8) == 0x1_0000_0000_0000_0000
  {
    assert Power(2) == 0x1_0000;
    assert Power(3) == 0x100_0000;
    assert Power(4) == 0x1_0000_0000;
    assert Power(5) == 0x100_0000_0000;
    assert Power(6) == 0x1_0000_0000_0000;
    assert Power(7) == 0x100_0000_0000_0000;
  }

  lemma AlignTwice(len: nat)
    ensures Align(Space(len)) == Space(len) && len <= Align(len) < len + 8
  {}

  /** The answer describes `item`, whose payload is where it says. */
  ghost predicate Answers(c: Cursor, a: Answer, item: Item) {
    && a.Got? && a.level == item.level && a.kind == item.kind && a.len == |item.data|
    && a.at + a.len <= |c.memory| && c.memory[a.at..a.at + a.len] == item.data
  }

  /** Calling `GetNext` until it fails yields exactly `items`. */
  ghost predicate ReadsBack(c: Cursor, items: seq<Item>)
    decreases |items|
  {
    && Readable(c)
    && var (c', a) := GetNext(c);
       if items == [] then a == End else Answers(c, a, items[0]) && ReadsBack(c', items[1..])
  }

  ghost function AllPadded(rs: seq<Request>): (items: seq<Item>)
    requires AllProper(rs)
    ensures |items| == |rs| && forall i :: 0 <= i < |rs| ==> items[i] == Padded(rs[i])
  {
    if rs == [] then [] else [Padded(rs[0])] + AllPadded(rs[1..])
  }

  lemma {:induction false} ImagesReadBack(c: Cursor, rs: seq<Request>)
    requires AllProper(rs) && Before(c, rs)
    ensures ReadsBack(c, AllPadded(rs))
    decreases |rs|
  {
    hide GetNext, Before, Readable, Images, Answers;
    GetNextReads(c, rs);
    if rs != [] {
      assert AllPadded(rs)[1..] == AllPadded(rs[1..]);
      ImagesReadBack(GetNext(c).0, rs[1..]);
    }
  }

  /**
   * Whatever is added to a control buffer, a reader that opens the finished message gets exactly
   * the messages that fitted, in order, with their level and type and their payload padded, and
   * is then told that there are no more.  The flag is raised exactly if one did not fit, the
   * bytes used and the bytes left make up the buffer, and nothing outside the used part is written.
   */
  lemma RoundTrip(c: Cursor, rs: seq<Request>)
    requires Start(c) && AllProper(rs)
    ensures AllProper(Kept(rs, c.left))
    ensures var w := AddAll(c, rs);
            && w.current + w.left == c.controllen && 0 <= w.left
            && Finish(w).controllen == w.current
            && ReadsBack(Reopen(Finish(w)), AllPadded(Kept(rs, c.left)))
            && w.flags == (if Kept(rs, c.left) == rs then c.flags else Truncated(c.flags))
            && (c.flags & MSG_CTRUNC == 0 ==> (w.flags & MSG_CTRUNC != 0 <==> Kept(rs, c.left) != rs))
            && |w.memory| == |c.memory| && w.memory[w.current..] == c.memory[w.current..]
  {
    hide Truncated, AddAll, Kept, Images, AllFit;
    FlagRaised(c.flags);
    AddAllWrites(c, rs);
    AllFitKept(rs, c.left);
    var w := AddAll(c, rs);
    LeftOver(c, rs);
    var r, b := Reopen(Finish(w)), Images(Kept(rs, c.left));
    assert r.memory[..w.current] == c.memory[..0] + b == b;
    assert r.memory[r.current..r.current + r.left] == b;
    ImagesReadBack(r, Kept(rs, c.left));
  }

  lemma {:induction false} LeftOver(c: Cursor, rs: seq<Request>)
    requires Sound(c) && AllProper(rs) && c.left >= 0
    ensures AddAll(c, rs).left >= 0
    decreases |rs|
  {
    if rs != [] {
      LeftOver(Add(c, rs[0]), rs[1..]);
    }
  }

  // ----- When a payload is read back with its own length -----

  /** The message as the caller meant it. */
  ghost function Asked(r: Request): Item
    requires Proper(r)
  {
    Item(r.level, r.kind, r.buffer[..r.len])
  }

  ghost function AllAsked(rs: seq<Request>): (items: seq<Item>)
    requires AllProper(rs)
    ensures |items| == |rs| && forall i :: 0 <= i < |rs| ==> items[i] == Asked(rs[i])
  {
    if rs == [] then [] else [Asked(rs[0])] + AllAsked(rs[1..])
  }

  lemma {:induction false} ReadsOnce(c: Cursor, xs: seq<Item>, ys: seq<Item>)
    requires ReadsBack(c, xs) && ReadsBack(c, ys)
    ensures xs == ys
    decreases |xs|
  {
    hide GetNext, Readable;
    if xs != [] && ys != [] {
      var (c', a) := GetNext(c);
      assert xs[0] == ys[0];
      ReadsOnce(c', xs[1..], ys[1..]);
      assert xs == [xs[0]] + xs[1..] && ys == [ys[0]] + ys[1..];
    }
  }

  lemma AskedPadded(r: Request)
    requires Proper(r)
    ensures Asked(r) == Padded(r) <==> r.len % 8 == 0
  {
    if r.len % 8 != 0 {
      assert |Asked(r).data| != |Padded(r).data|;
    }
  }

  /** A reader gets back exactly what was added if and only if every payload that fitted fills whole words. */
  lemma ExactIfAligned(c: Cursor, rs: seq<Request>)
    requires Start(c) && AllProper(rs)
    ensures var kept := Kept(rs, c.left);
            && AllProper(kept)
            && (ReadsBack(Reopen(Finish(AddAll(c, rs))), AllAsked(kept)) <==>
                  forall i :: 0 <= i < |kept| ==> kept[i].len % 8 == 0)
  {
    hide AddAll, Kept, ReadsBack, Proper, Asked, Padded;
    RoundTrip(c, rs);
    var kept, r := Kept(rs, c.left), Reopen(Finish(AddAll(c, rs)));
    if ReadsBack(r, AllAsked(kept)) {
      ReadsOnce(r, AllAsked(kept), AllPadded(kept));
    }
    forall i | 0 <= i < |kept| ensures AllAsked(kept)[i] == AllPadded(kept)[i] <==> kept[i].len % 8 == 0 {
      AskedPadded(kept[i]);
    }
    if forall i :: 0 <= i < |kept| ==> kept[i].len % 8 == 0 {
      assert AllAsked(kept) == AllPadded(kept);
    }
  }

  /** A payload of one byte comes back as eight. */
  lemma OneByte()
    ensures var r := Request(1, 2, 1, [9, 0, 0, 0, 0, 0, 0, 0]);
            var c := Cursor(seq(24, _ => 0), 0, 24, 24, 0);
            && Start(c) && AllProper([r]) && ReadsBack(Reopen(Finish(AddAll(c, [r]))), [Padded(r)])
            && |Padded(r).data| == 8
            && !ReadsBack(Reopen(Finish(AddAll(c, [r]))), [Asked(r)])
  {
    hide AddAll, ReadsBack;
    var r := Request(1, 2, 1, [9, 0, 0, 0, 0, 0, 0, 0]);
    var c := Cursor(seq(24, _ => 0), 0, 24, 24, 0);
    assert [r][1..] == [] && Kept([r], 24) == [r];
    RoundTrip(c, [r]);
    ExactIfAligned(c, [r]);
    assert AllPadded([r]) == [Padded(r)] && AllAsked([r]) == [Asked(r)];
    assert [r][0].len % 8 != 0;
  }

  // ----- The bytes -----

  /** `n` is the size of a message with `len` bytes: the header, and the payload up to a multiple of 8. */
  ghost predicate Sized(n: int, len: nat) {
    n % 8 == 0 && 16 + len <= n < 16 + len + 8
  }

  /** Four bytes, least significant first. */
  function Four(m: seq<Byte>, at: nat): nat
    requires at + 4 <= |m|
  {
    var a: int, b: int, c: int, d: int := m[at], m[at + 1], m[at + 2], m[at + 3];
    a + 0x100 * b + 0x1_0000 * c + 0x100_0000 * d
  }

  /** A 32-bit number and the number with the same bits and a sign. */
  ghost predicate SameBits(x: nat, y: int) {
    x == (if y >= 0 then y else y + 0x1_0000_0000) && -0x8000_0000 <= y < 0x8000_0000
  }

  lemma BigFour(m: seq<Byte>, at: nat)
    requires at + 4 <= |m|
    ensures Big(m[at..at + 4]) == Four(m, at)
  {
    var s := m[at..at + 4];
    assert s[1..][1..] == s[2..] && s[1..][1..][1..] == s[3..] && s[3..][1..] == [];
    assert Big(s[3..]) == s[3];
    assert Big(s[2..]) == s[2] + 256 * Big(s[3..]);
    assert Big(s[1..]) == s[1] + 256 * Big(s[2..]);
  }

  lemma BigEight(m: seq<Byte>, at: nat)
    requires at + 8 <= |m|
    ensures Big(m[at..at + 8]) == Four(m, at) + 0x1_0000_0000 * Four(m, at + 4)
  {
    var s := m[at..at + 8];
    BigFour(m, at + 4);
    assert s[1..][1..] == s[2..] && s[2..][1..] == s[3..] && s[3..][1..] == s[4..] && s[4..] == m[at + 4..at + 8];
    assert Big(s[3..]) == s[3] + 256 * Big(s[4..]);
    assert Big(s[2..]) == s[2] + 256 * Big(s[3..]);
    assert Big(s[1..]) == s[1] + 256 * Big(s[2..]);
    assert Big(s) == s[0] + 256 * Big(s[1..]);
  }

  /** From `c` to `c'` a message of `n` bytes was written: size, level and type in this order, then the padded payload. */
  ghost predicate Written(c: Cursor, r: Request, n: nat, c': Cursor) {
    && c'.current == c.current + n <= |c.memory| == |c'.memory|
    && c'.left == c.left - n && c'.controllen == c.controllen && c'.flags == c.flags
    && Filled(c.memory, c'.memory, c.current, r, n)
  }

  /** From `c` to `c'` bit 3 of the flags was set and nothing else was done. */
  ghost predicate Refused(c: Cursor, c': Cursor) {
    c' == c.(flags := c'.flags) && c'.flags == c.flags | 8
  }

  ghost predicate Filled(m: seq<Byte>, m': seq<Byte>, o: nat, r: Request, n: nat) {
    && |m'| == |m| && 16 <= n <= 16 + |r.buffer| && o + n <= |m|
    && Four(m', o) == n && Four(m', o + 4) == 0
    && SameBits(Four(m', o + 8), r.level) && SameBits(Four(m', o + 12), r.kind)
    && m'[o + 16..o + n] == r.buffer[..n - 16]
    && (forall k :: 0 <= k < |m| && !(o <= k < o + n) ==> m'[k] == m[k])
  }

  /**
   * An addition either fits, and then the message stands at the old position and nothing else is
   * written; or it does not fit, and then only the flag is raised.
   */
  lemma AddExactly(c: Cursor, r: Request, n: nat)
    requires Sound(c) && Proper(r) && Sized(n, r.len) && c.current <= |c.memory|
    ensures if c.left < n then Refused(c, Add(c, r)) else Written(c, r, n, Add(c, r))
  {
    hide Image, Add, Written, Refused, Space, Truncated, Proper, Sound, Sized;
    SpaceSized(r.len, n);
    if c.left < n {
      AddRefused(c, r);
    } else {
      AddStands(c, r, n);
    }
  }

  lemma AddRefused(c: Cursor, r: Request)
    requires Sound(c) && Proper(r) && c.left < Space(r.len)
    ensures Refused(c, Add(c, r))
  {
    hide Space;
    AddFails(c, r);
  }

  lemma AddStands(c: Cursor, r: Request, n: nat)
    requires Sound(c) && Proper(r) && n == Space(r.len) <= c.left && c.current <= |c.memory|
    ensures Written(c, r, n, Add(c, r))
  {
    hide Image, Add, Space, Filled, Proper;
    AddFits(c, r);
    ImageLength(r);
    AddPlaces(c, Add(c, r), r, n);
  }

  lemma SpaceSized(len: nat, n: int)
    requires Sized(n, len)
    ensures Space(len) == n
  {}

  /** Where the parts of a message that was added stand. */
  lemma AddPlaces(c: Cursor, c': Cursor, r: Request, n: nat)
    requires Proper(r) && n == Space(r.len) && c.current + n <= |c.memory| == |c'.memory| && c'.current == c.current + n
    requires |Image(r)| == n && c'.memory[..c'.current] == c.memory[..c.current] + Image(r)
    requires c'.memory[c'.current..] == c.memory[c'.current..]
    ensures Filled(c.memory, c'.memory, c.current, r, n)
  {
    hide Little, Big, Image, Four;
    var m, o := c'.memory, c.current;
    assert m[o..o + n] == m[..o + n][o..] == Image(r);
    HeaderReads(m, o, r);
    BigEight(m, o);
    BigFour(m, o + 8);
    BigFour(m, o + 12);
    FourBound(m, o + 8);
    FourBound(m, o + 12);
    SmallHalves(Four(m, o), Four(m, o + 4), n);
    assert m[..o] == m[..o + n][..o] == c.memory[..o];
    OutsideSame(c, c', n);
  }

  lemma SmallHalves(a: nat, b: nat, n: int)
    requires a + 0x1_0000_0000 * b == n < 0x8000_0000
    ensures a == n && b == 0
  {}

  lemma OutsideSame(c: Cursor, c': Cursor, n: nat)
    requires c'.current == c.current + n <= |c.memory| == |c'.memory|
    requires c'.memory[..c.current] == c.memory[..c.current] && c'.memory[c'.current..] == c.memory[c'.current..]
    ensures forall k :: 0 <= k < |c.memory| && !(c.current <= k < c.current + n) ==> c'.memory[k] == c.memory[k]
  {
    forall k | 0 <= k < |c.memory| && !(c.current <= k < c.current + n) ensures c'.memory[k] == c.memory[k] {
      if k < c.current {
        assert c'.memory[..c.current][k] == c.memory[..c.current][k];
      } else {
        assert c'.memory[c'.current..][k - c'.current] == c.memory[c'.current..][k - c'.current];
      }
    }
  }

  /**
   * Reading from any buffer: -1 exactly if no header is left or the size it holds is 0 or more than
   * what is left; otherwise level and type from their places, the size less the header, and the
   * position moves on by the size rounded up to a multiple of 8.
   */
  lemma NextExactly(c: Cursor, n: int)
    requires Readable(c) && c.left >= 16 ==> Four(c.memory, c.current) <= n < Four(c.memory, c.current) + 8 && n % 8 == 0
    requires Readable(c)
    ensures var (c', a) := GetNext(c);
            && (a == End <==> c.left < 16 || Four(c.memory, c.current) == 0 || Four(c.memory, c.current) > c.left)
            && (a == End ==> c' == c)
            && (a.Got? ==>
                  && SameBits(Four(c.memory, c.current + 8), a.level) && SameBits(Four(c.memory, c.current + 12), a.kind)
                  && a.len == Four(c.memory, c.current) - 16 && a.at == c.current + 16
                  && c' == c.(current := c.current + n, left := c.left - n))
  {
    hide Big, Four;
    if c.left >= 16 {
      BigEight(c.memory, c.current);
      BigFour(c.memory, c.current + 8);
      BigFour(c.memory, c.current + 12);
      SmallHalves(Four(c.memory, c.current), Four(c.memory, c.current + 4), Stored(c.memory, c.current));
      FourBound(c.memory, c.current + 8);
      FourBound(c.memory, c.current + 12);
    }
  }

  lemma FourBound(m: seq<Byte>, at: nat)
    requires at + 4 <= |m|
    ensures Four(m, at) < 0x1_0000_0000
  {}

  // ----- The writer and the reader as they run -----

  class Message {
    var control: array<Byte>
    var controllen: nat
    var flags: bv32

    constructor (control: array<Byte>, controllen: nat)
      ensures this.control == control && this.controllen == controllen && flags == 0
    {
      this.control, this.controllen, flags := control, controllen, 0;
    }
  }

  /** Store the `n` low bytes of `x` from `at` on, least significant first. */
  method PutLittle(a: array<Byte>, at: nat, x: nat, n: nat)
    requires at + n <= a.Length
    modifies a
    ensures a[..] == Write(old(a[..]), at, Little(x, n))
  {
    hide Little, Write;
    ghost var done: seq<Byte> := [];
    WriteNothing(a[..], at);
    var i, y := 0, x;
    while i < n
      invariant i <= n && |done| == i && Little(x, n) == done + Little(y, n - i)
      invariant a[..] == Write(old(a[..]), at, done)
    {
      LittleStep(y, n - i);
      var b: Byte := y % 256;
      WriteNext(old(a[..]), at, done, b);
      assert done + ([b] + Little(y / 256, n - i - 1)) == (done + [b]) + Little(y / 256, n - i - 1);
      a[at + i] := b;
      assert a[..] == Write(old(a[..]), at, done)[at + i := b];
      done := done + [b];
      y := y / 256;
      i := i + 1;
    }
    assert done + Little(y, 0) == done;
  }

  lemma LittleStep(x: nat, n: nat)
    requires n > 0
    ensures Little(x, n) == [x % 256] + Little(x / 256, n - 1)
  {}

  lemma WriteNothing(m: seq<Byte>, at: nat)
    requires at <= |m|
    ensures Write(m, at, []) == m
  {}

  lemma WriteNext(m: seq<Byte>, at: nat, done: seq<Byte>, b: Byte)
    requires at + |done| < |m|
    ensures |Write(m, at, done)| == |m|
    ensures Write(m, at, done + [b]) == Write(m, at, done)[at + |done| := b]
  {}

  method CopyIn(a: array<Byte>, at: nat, bytes: seq<Byte>)
    requires at + |bytes| <= a.Length
    modifies a
    ensures a[..] == Write(old(a[..]), at, bytes)
  {
    var i := 0;
    while i < |bytes|
      invariant i <= |bytes|
      invariant a[..at] == old(a[..at]) && a[at + i..] == old(a[at + i..])
      invariant a[at..at + i] == bytes[..i]
    {
      a[at + i] := bytes[i];
      i := i + 1;
    }
    assert a[..] == a[..at] + a[at..at + |bytes|] + a[at + |bytes|..];
  }

  method Fetch(a: array<Byte>, at: nat, n: nat) returns (x: nat)
    requires at + n <= a.Length
    ensures x == Big(a[at..at + n])
  {
    x := 0;
    var i: nat := n;
    while i > 0
      invariant i <= n && x == Big(a[at + i..at + n])
    {
      i := i - 1;
      assert a[at + i..at + n] == [a[at + i]] + a[at + i + 1..at + n];
      x := a[at + i] + 256 * x;
    }
  }

  lemma WriteBoth(m: seq<Byte>, at: nat, a: seq<Byte>, b: seq<Byte>)
    requires at + |a| + |b| <= |m|
    ensures |Write(m, at, a)| == |m|
    ensures Write(Write(m, at, a), at + |a|, b) == Write(m, at, a + b)
  {}

  method PutHeader(a: array<Byte>, at: nat, len: nat, level: Int32, kind: Int32)
    requires at + HEADER <= a.Length
    modifies a
    ensures a[..] == Write(old(a[..]), at, Header(len, level, kind))
  {
    hide Little, Write;
    var x, y, z := Little(len, 8), Little(Unsigned(level), 4), Little(Unsigned(kind), 4);
    PutLittle(a, at, len, 8);
    PutLittle(a, at + 8, Unsigned(level), 4);
    PutLittle(a, at + 12, Unsigned(kind), 4);
    WriteBoth(old(a[..]), at, x, y);
    WriteBoth(old(a[..]), at, x + y, z);
  }

  class Cmsg {
    const msg: Message
    var current: nat
    var left: int

    ghost function State(): Cursor
      reads this, msg, msg.control
    {
      Cursor(msg.control[..], current, left, msg.controllen, msg.flags)
    }

    constructor (msg: Message)
      ensures this.msg == msg && State() == Reopen(Cursor(msg.control[..], 0, 0, msg.controllen, msg.flags))
    {
      this.msg := msg;
      current, left := 0, msg.controllen;
    }

    method AddMessage(r: Request)
      requires Sound(State()) && Proper(r)
      modifies this, msg, msg.control
      ensures msg.control == old(msg.control) && State() == Add(old(State()), r)
    {
      hide Write, Header;
      var cmsglen := Space(r.len);
      if left < cmsglen {
        msg.flags := msg.flags | MSG_CTRUNC;
        return;
      }
      PutHeader(msg.control, current, cmsglen, r.level, r.kind);
      CopyIn(msg.control, current + HEADER, r.buffer[..Align(r.len)]);
      WriteBoth(old(msg.control[..]), current, Header(cmsglen, r.level, r.kind), r.buffer[..Align(r.len)]);
      current := current + cmsglen;
      left := left - cmsglen;
    }

    method NextMessage() returns (a: Answer)
      requires Readable(State())
      modifies this
      ensures (State(), a) == GetNext(old(State()))
    {
      if left < HEADER {
        return End;
      }
      assert State().memory[current..current + 8] == msg.control[current..current + 8];
      assert State().memory[current + 8..current + 12] == msg.control[current + 8..current + 12];
      assert State().memory[current + 12..current + 16] == msg.control[current + 12..current + 16];
      var len := Fetch(msg.control, current, 8);
      if len == 0 || len > left {
        return End;
      }
      var level := Fetch(msg.control, current + 8, 4);
      var kind := Fetch(msg.control, current + 12, 4);
      a := Got(Signed(level), Signed(kind), len - HEADER, current + HEADER);
      current := current + Align(len);
      left := left - Align(len);
    }

    method FinishMessage()
      requires left <= msg.controllen
      modifies msg
      ensures msg.control == old(msg.control) && State() == Finish(old(State()))
    {
      msg.controllen := msg.controllen - left;
    }
  }
}
