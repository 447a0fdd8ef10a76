/**
 Recursive length prefixes: the encoding of Ethereum's Yellow Paper, Appendix B, and what
 the reader's pointer arithmetic makes of memory.
 */
module RLPCodec {
  import opened Prelude
  import opened BigEndianBytes

  // ----- Encoding -----

  datatype RLPTree = Str(payload: Bytes) | List(items: seq<RLPTree>)

  const STRING: nat := 0x80
  const LIST: nat := 0xc0

  /** The prefix of a payload of `n` bytes. */
  function Header(kind: nat, n: nat): (s: Bytes)
    ensures |s| > 0
  {
    if n < 56 then [((kind + n) % 256) as byte]
    else [((kind + 55 + |Digits(n)|) % 256) as byte] + Digits(n)
  }

  function Encode(t: RLPTree): (s: Bytes)
    ensures |s| > 0
  {
    match t
    case Str(payload) => if |payload| == 1 && payload[0] < 0x80 then payload else Header(STRING, |payload|) + payload
    case List(items) => Header(LIST, |EncodeAll(items)|) + EncodeAll(items)
  }

  function EncodeAll(items: seq<RLPTree>): Bytes {
    if items == [] then [] else Encode(items[0]) + EncodeAll(items[1..])
  }

  /** Encodings that the Ethereum wiki gives as examples. */
  lemma KnownEncodings()
    ensures Encode(List([Str(Ascii("cat")), Str(Ascii("dog"))])) == [0xc8, 0x83] + Ascii("cat") + [0x83] + Ascii("dog")
    ensures Encode(Str([])) == [0x80] && Encode(List([])) == [0xc0]
    ensures Encode(Str([0x0f])) == [0x0f] && Encode(Str([0x80])) == [0x81, 0x80] && Encode(Str([0x04, 0x00])) == [0x82, 0x04, 0x00]
  {
    ShortEncoding(Ascii("cat"));
    ShortEncoding(Ascii("dog"));
    ListOfTwo(Str(Ascii("cat")), Str(Ascii("dog")));
  }

  lemma ShortEncoding(s: Bytes)
    requires 1 < |s| < 56
    ensures Encode(Str(s)) == [(0x80 + |s|) as byte] + s
  {
  }

  lemma ListOfTwo(t: RLPTree, u: RLPTree)
    requires |Encode(t) + Encode(u)| < 56
    ensures Encode(List([t, u])) == [(0xc0 + |Encode(t) + Encode(u)|) as byte] + Encode(t) + Encode(u)
  {
    assert [t, u][1..] == [u] && [u][1..] == [];
    assert EncodeAll([u]) == Encode(u) + EncodeAll([]);
    assert EncodeAll([t, u]) == Encode(t) + EncodeAll([u]);
  }

  /** Payloads of 56 to 255 bytes have one length byte, as the wiki's example of 56 has. */
  lemma LongEncodings(s: Bytes, items: seq<RLPTree>)
    ensures 56 <= |s| < 256 ==> Encode(Str(s)) == [0xb8, |s| as byte] + s
    ensures 56 <= |EncodeAll(items)| < 256 ==> Encode(List(items)) == [0xf8, |EncodeAll(items)| as byte] + EncodeAll(items)
  {
    hide Digits, EncodeAll;
    DigitsOfByte(|s|);
    DigitsOfByte(|EncodeAll(items)|);
  }

  lemma DigitsOfByte(n: nat)
    ensures 0 < n < 256 ==> Digits(n) == [n as byte]
  {
  }

  // ----- Reading memory -----

  /** A stretch of memory. */
  datatype RLPItem = RLPItem(len: nat, memPtr: nat)

  /** Memory reads 0 where nothing was written. */
  function ByteAt(mem: Bytes, p: nat): byte {
    if p < |mem| then mem[p] else 0
  }

  function Region(mem: Bytes, p: nat, n: nat): (s: Bytes)
    ensures |s| == n
    ensures forall i | 0 <= i < n :: s[i] == ByteAt(mem, p + i)
  {
    seq(n, i requires 0 <= i < n => ByteAt(mem, p + i))
  }

  function MLoad(mem: Bytes, p: nat): nat {
    FromBigEndian(Region(mem, p, 32))
  }

  /** `div(x, y)`, which gives 0 where `y` is 0. */
  function Div(x: nat, y: nat): nat {
    if y == 0 then 0 else x / y
  }

  /** `div(word, exp(256, sub(32, n)))`, with 256-bit arithmetic. */
  function TopBytes(word: nat, n: nat): nat {
    Div(word, Pow256((32 - n) % TWO_256) % TWO_256)
  }

  predicate IsList(mem: Bytes, p: nat) {
    ByteAt(mem, p) >= 0xc0
  }

  /** `_itemLength`. */
  function ItemLength(mem: Bytes, p: nat): nat {
    var b := ByteAt(mem, p) as int;
    if b < 0x80 then 1
    else if b < 0xb8 then b - 0x80 + 1
    else if b < 0xc0 then TopBytes(MLoad(mem, p + 1), b - 0xb7) + (b - 0xb7) + 1
    else if b < 0xf8 then b - 0xc0 + 1
    else TopBytes(MLoad(mem, p + 1), b - 0xf7) + (b - 0xf7) + 1
  }

  /** `_payloadOffset`. */
  function PayloadOffset(mem: Bytes, p: nat): nat {
    var b := ByteAt(mem, p) as int;
    if b < 0x80 then 0
    else if b < 0xb8 || (b >= 0xc0 && b < 0xf8) then 1
    else if b < 0xc0 then b - 0xb7 + 1
    else b - 0xf7 + 1
  }

  lemma ItemLengthPositive(mem: Bytes, p: nat)
    ensures ItemLength(mem, p) >= 1
  {
    hide TopBytes, MLoad;
  }

  /** The items from `p` up to `end`, each as long as its own prefix says. */
  function ItemsFrom(mem: Bytes, p: nat, end: nat): (items: seq<RLPItem>)
    decreases end - p
  {
    if p >= end then []
    else
      ItemLengthPositive(mem, p);
      [RLPItem(ItemLength(mem, p), p)] + ItemsFrom(mem, p + ItemLength(mem, p), end)
  }

  /** `toList`. */
  function ToList(mem: Bytes, item: RLPItem): Result<seq<RLPItem>> {
    if IsList(mem, item.memPtr)
    then Ok(ItemsFrom(mem, item.memPtr + PayloadOffset(mem, item.memPtr), item.memPtr + item.len))
    else Revert
  }

  /** `toRLPBytes`. */
  function ToRLPBytes(mem: Bytes, item: RLPItem): Bytes {
    Region(mem, item.memPtr, item.len)
  }

  /** `toBytes`; a length that would wrap below 0 is more memory than can be allocated. */
  function ToBytes(mem: Bytes, item: RLPItem): Result<Bytes> {
    var offset := PayloadOffset(mem, item.memPtr);
    if item.len < offset then Revert else Ok(Region(mem, item.memPtr + offset, item.len - offset))
  }

  /** `toUint`. */
  function ToUint(mem: Bytes, item: RLPItem): nat {
    var offset := PayloadOffset(mem, item.memPtr);
    TopBytes(MLoad(mem, item.memPtr + offset), (item.len - offset) % TWO_256)
  }

  // ----- Words -----

  lemma {:induction false} Pow256Sum(j: nat, k: nat)
    ensures Pow256(j + k) == Pow256(j) * Pow256(k)
  {
    if j > 0 {
      Pow256Sum(j - 1, k);
      assert Pow256(j + k) == 256 * (Pow256(j - 1) * Pow256(k));
    }
  }

  lemma Pow256At32()
    ensures Pow256(8) == TWO_64 && Pow256(32) == TWO_256
  {
    assert Pow256(4) == 0x1_0000_0000;
    Pow256Sum(4, 4);
    Pow256Sum(8, 8);
    Pow256Sum(16, 16);
  }

  lemma Pow256Wraps(k: nat)
    ensures Pow256(k) % TWO_256 == if k < 32 then Pow256(k) else 0
  {
    Pow256At32();
    hide Pow256;
    if k < 32 {
      Pow256Monotone(k, 31);
      Pow256Sum(31, 1);
      Pow256At1();
      SmallRemainder(Pow256(k), TWO_256);
    } else {
      Pow256Sum(32, k - 32);
      MultipleIsZero(TWO_256, Pow256(k - 32));
    }
  }

  lemma Pow256At1()
    ensures Pow256(1) == 256
  {
  }

  lemma SmallRemainder(x: nat, d: nat)
    requires x < d
    ensures x % d == x
  {
  }

  lemma MultipleIsZero(d: nat, q: nat)
    requires d > 0
    ensures (d * q) % d == 0
  {
    QuotientOf(q, d, 0);
    assert q * d + 0 == d * q;
  }

  /** For up to 32 bytes the shift reads those bytes; for longer ones it reads 0. */
  lemma TopBytesExact(mem: Bytes, p: nat, n: nat)
    requires n < TWO_256
    ensures TopBytes(MLoad(mem, p), n) == if n <= 32 then FromBigEndian(Region(mem, p, n)) else 0
  {
    hide Pow256, FromBigEndian;
    Pow256Wraps((32 - n) % TWO_256);
    if 1 <= n <= 32 {
      DropBytes(Region(mem, p, 32), n);
      assert Region(mem, p, 32)[..n] == Region(mem, p, n);
    } else if n == 0 {
      NoBytes(Region(mem, p, 0));
    }
  }

  lemma NoBytes(s: Bytes)
    requires s == []
    ensures FromBigEndian(s) == 0
  {
  }

  // ----- Reading back an encoding -----

  /** Memory holds `s` at `p`. */
  ghost predicate Holds(mem: Bytes, p: nat, s: Bytes) {
    Region(mem, p, |s|) == s
  }

  lemma HoldsSplit(mem: Bytes, p: nat, s: Bytes, t: Bytes)
    requires Holds(mem, p, s + t)
    ensures Holds(mem, p, s) && Holds(mem, p + |s|, t)
  {
    var w := Region(mem, p, |s + t|);
    assert Region(mem, p, |s|) == w[..|s|] == s;
    assert Region(mem, p + |s|, |t|) == w[|s|..] == t;
  }

  lemma HeaderBounds(n: nat)
    requires n < TWO_64
    ensures n >= 56 ==> 1 <= |Digits(n)| <= 8
  {
    Pow256At32();
    DigitsAtMost(n, 8);
  }

  lemma HeaderParts(kind: nat, n: nat)
    requires n < TWO_64 && kind in {STRING, LIST}
    ensures n < 56 ==> Header(kind, n) == [(kind + n) as byte]
    ensures n >= 56 ==> 1 <= |Digits(n)| <= 8 && Header(kind, n) == [(kind + 55 + |Digits(n)|) as byte] + Digits(n)
  {
    hide Digits;
    HeaderBounds(n);
  }

  /** The length bytes of a long prefix. */
  lemma LengthBytes(mem: Bytes, p: nat, n: nat)
    requires n < TWO_64 && n >= 56
    requires Holds(mem, p, Digits(n))
    ensures 1 <= |Digits(n)| <= 8
    ensures TopBytes(MLoad(mem, p), |Digits(n)|) == n
  {
    HeaderBounds(n);
    TopBytesExact(mem, p, |Digits(n)|);
    DigitsRoundTrip(n);
  }

  lemma ShortHeaderRead(mem: Bytes, p: nat, kind: nat, n: nat)
    requires n < 56 && kind in {STRING, LIST}
    requires ByteAt(mem, p) as int == kind + n
    ensures PayloadOffset(mem, p) == 1
    ensures ItemLength(mem, p) == 1 + n
    ensures IsList(mem, p) == (kind == LIST)
  {
    hide TopBytes, MLoad;
  }

  lemma LongHeaderRead(mem: Bytes, p: nat, kind: nat, n: nat, width: nat)
    requires 1 <= width <= 8 && kind in {STRING, LIST}
    requires ByteAt(mem, p) as int == kind + 55 + width
    requires TopBytes(MLoad(mem, p + 1), width) == n
    ensures PayloadOffset(mem, p) == 1 + width
    ensures ItemLength(mem, p) == 1 + width + n
    ensures IsList(mem, p) == (kind == LIST)
  {
    hide TopBytes, MLoad;
  }

  lemma FirstByte(mem: Bytes, p: nat, s: Bytes)
    requires s != [] && Holds(mem, p, s)
    ensures ByteAt(mem, p) == s[0]
  {
    assert Region(mem, p, |s|)[0] == ByteAt(mem, p);
  }

  /** The reader takes a prefix for exactly what the encoder meant. */
  lemma HeaderRead(mem: Bytes, p: nat, kind: nat, n: nat)
    requires n < TWO_64 && kind in {STRING, LIST}
    requires Holds(mem, p, Header(kind, n))
    ensures PayloadOffset(mem, p) == |Header(kind, n)|
    ensures ItemLength(mem, p) == |Header(kind, n)| + n
    ensures IsList(mem, p) == (kind == LIST)
  {
    hide TopBytes, MLoad, Digits, Header, PayloadOffset, ItemLength, IsList;
    HeaderParts(kind, n);
    FirstByte(mem, p, Header(kind, n));
    if n < 56 {
      ShortHeaderRead(mem, p, kind, n);
    } else {
      HoldsSplit(mem, p, [(kind + 55 + |Digits(n)|) as byte], Digits(n));
      LengthBytes(mem, p + 1, n);
      LongHeaderRead(mem, p, kind, n, |Digits(n)|);
    }
  }

  function Payload(t: RLPTree): Bytes {
    match t
    case Str(payload) => payload
    case List(items) => EncodeAll(items)
  }

  /** At the start of an encoding the reader finds its length, its kind and its payload. */
  lemma ItemRead(mem: Bytes, p: nat, t: RLPTree)
    requires |Encode(t)| < TWO_64 && Holds(mem, p, Encode(t))
    ensures ItemLength(mem, p) == |Encode(t)|
    ensures IsList(mem, p) == t.List?
    ensures PayloadOffset(mem, p) + |Payload(t)| == |Encode(t)|
    ensures Holds(mem, p + PayloadOffset(mem, p), Payload(t))
  {
    hide EncodeAll, Header, ItemLength, PayloadOffset, IsList;
    var payload := Payload(t);
    if t.Str? && |payload| == 1 && payload[0] < 0x80 {
      SmallByteRead(mem, p, payload[0]);
    } else {
      var kind := if t.Str? then STRING else LIST;
      HoldsSplit(mem, p, Header(kind, |payload|), payload);
      HeaderRead(mem, p, kind, |payload|);
    }
  }

  lemma SmallByteRead(mem: Bytes, p: nat, b: byte)
    requires b < 0x80 && Holds(mem, p, [b])
    ensures ItemLength(mem, p) == 1 && PayloadOffset(mem, p) == 0 && !IsList(mem, p)
  {
    hide TopBytes, MLoad;
    FirstByte(mem, p, [b]);
  }

  /** `toBytes` gives back the payload of an encoded string. */
  lemma BytesRead(mem: Bytes, p: nat, t: RLPTree)
    requires |Encode(t)| < TWO_64 && Holds(mem, p, Encode(t))
    ensures ToBytes(mem, RLPItem(|Encode(t)|, p)) == Ok(Payload(t))
  {
    hide Encode, EncodeAll, PayloadOffset, ItemLength, IsList;
    ItemRead(mem, p, t);
  }

  /** `toUint` gives the big-endian value of a string of at most 32 bytes, 0 for the empty one. */
  lemma UintRead(mem: Bytes, p: nat, payload: Bytes)
    requires |payload| <= 32 && Holds(mem, p, Encode(Str(payload)))
    ensures ToUint(mem, RLPItem(|Encode(Str(payload))|, p)) == FromBigEndian(payload)
  {
    hide Encode, PayloadOffset, ItemLength, IsList, FromBigEndian, TopBytes, MLoad, Pow256;
    EncodeShort(payload);
    ItemRead(mem, p, Str(payload));
    SmallModulus(|payload|);
    TopBytesExact(mem, p + PayloadOffset(mem, p), |payload|);
  }

  lemma SmallModulus(n: nat)
    requires n < TWO_64
    ensures n % TWO_256 == n < TWO_256
  {
  }

  lemma EncodeShort(payload: Bytes)
    requires |payload| <= 32
    ensures |Encode(Str(payload))| <= 33
  {
  }

  /** The items a reader finds in a list are the encodings of its children, in order. */
  ghost predicate ItemsOf(mem: Bytes, items: seq<RLPItem>, ts: seq<RLPTree>) {
    && |items| == |ts|
    && forall k | 0 <= k < |ts| ::
         && items[k].len == |Encode(ts[k])| < TWO_64
         && Holds(mem, items[k].memPtr, Encode(ts[k]))
  }

  lemma {:induction false} ItemsRead(mem: Bytes, p: nat, ts: seq<RLPTree>)
    requires |EncodeAll(ts)| < TWO_64 && Holds(mem, p, EncodeAll(ts))
    ensures ItemsOf(mem, ItemsFrom(mem, p, p + |EncodeAll(ts)|), ts)
    decreases |ts|
  {
    hide Encode, ItemLength, ItemsOf, Holds;
    if ts == [] {
      NoItems(mem);
    } else {
      var head, rest := Encode(ts[0]), EncodeAll(ts[1..]);
      HoldsSplit(mem, p, head, rest);
      ItemRead(mem, p, ts[0]);
      ItemsRead(mem, p + |head|, ts[1..]);
      ItemsCons(mem, RLPItem(|head|, p), ItemsFrom(mem, p + |head|, p + |head| + |rest|), ts);
    }
  }

  lemma NoItems(mem: Bytes)
    ensures ItemsOf(mem, [], [])
  {
  }

  lemma ItemsCons(mem: Bytes, item: RLPItem, items: seq<RLPItem>, ts: seq<RLPTree>)
    requires ts != [] && ItemsOf(mem, items, ts[1..])
    requires item.len == |Encode(ts[0])| < TWO_64 && Holds(mem, item.memPtr, Encode(ts[0]))
    ensures ItemsOf(mem, [item] + items, ts)
  {
    hide Encode, Holds;
    var all := [item] + items;
    forall k | 0 <= k < |ts|
      ensures all[k].len == |Encode(ts[k])| < TWO_64 && Holds(mem, all[k].memPtr, Encode(ts[k]))
    {
      if k > 0 {
        assert ts[1..][k - 1] == ts[k] && items[k - 1] == all[k];
      }
    }
  }

  /** `toList` on the encoding of a list gives exactly the encodings of its children. */
  lemma ListRead(mem: Bytes, p: nat, ts: seq<RLPTree>)
    requires |Encode(List(ts))| < TWO_64 && Holds(mem, p, Encode(List(ts)))
    ensures ToList(mem, RLPItem(|Encode(List(ts))|, p)).Ok?
    ensures ItemsOf(mem, ToList(mem, RLPItem(|Encode(List(ts))|, p)).value, ts)
  {
    hide Encode, ItemLength, PayloadOffset, IsList, ItemsFrom;
    ItemRead(mem, p, List(ts));
    ItemsRead(mem, p + PayloadOffset(mem, p), ts);
  }

  /** `toList` refuses what encodes a string. */
  lemma StringIsNoList(mem: Bytes, p: nat, payload: Bytes)
    requires |Encode(Str(payload))| < TWO_64 && Holds(mem, p, Encode(Str(payload)))
    ensures ToList(mem, RLPItem(|Encode(Str(payload))|, p)) == Revert
  {
    hide Encode, ItemLength, PayloadOffset;
    ItemRead(mem, p, Str(payload));
  }
}
