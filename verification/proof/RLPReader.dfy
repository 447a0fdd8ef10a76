/** The reader's loops over memory: counting and listing items, and copying word by word. */
module RLPReader {
  import opened Prelude
  import opened BigEndianBytes
  import opened RLPCodec

  // ----- Listing -----

  /** Item lengths stay near 2^64, so pointers into real memory never wrap at 2^256. */
  lemma ItemLengthBound(mem: Bytes, p: nat)
    ensures 1 <= ItemLength(mem, p) < TWO_64 + 9
  {
    var b := ByteAt(mem, p) as int;
    if 0xb8 <= b < 0xc0 {
      LengthBound(mem, p + 1, b - 0xb7);
    } else if 0xf8 <= b {
      LengthBound(mem, p + 1, b - 0xf7);
    }
  }

  lemma LengthBound(mem: Bytes, p: nat, n: nat)
    requires 1 <= n <= 8
    ensures TopBytes(MLoad(mem, p), n) < TWO_64
  {
    hide TopBytes, MLoad, Pow256;
    TopBytesExact(mem, p, n);
    Pow256Monotone(n, 8);
    Pow256At32();
  }

  method NumItems(mem: array<byte>, item: RLPItem) returns (count: nat)
    ensures count == |ItemsFrom(mem[..], item.memPtr + PayloadOffset(mem[..], item.memPtr), item.memPtr + item.len)|
  {
    hide ItemLength, PayloadOffset;
    count := 0;
    var currPtr := item.memPtr + PayloadOffset(mem[..], item.memPtr);
    var endPtr := item.memPtr + item.len;
    ghost var total := |ItemsFrom(mem[..], currPtr, endPtr)|;
    while currPtr < endPtr
      invariant count + |ItemsFrom(mem[..], currPtr, endPtr)| == total
      decreases endPtr - currPtr
    {
      ItemLengthPositive(mem[..], currPtr);
      currPtr := currPtr + ItemLength(mem[..], currPtr);
      count := count + 1;
    }
  }

  method ListItems(mem: array<byte>, item: RLPItem) returns (r: Result<seq<RLPItem>>)
    ensures r == ToList(mem[..], item)
  {
    hide ItemLength, PayloadOffset;
    if !IsList(mem[..], item.memPtr) {
      return Revert;
    }
    var items := NumItems(mem, item);
    var result := new RLPItem[items](_ => RLPItem(0, 0));
    var memPtr: nat := item.memPtr + PayloadOffset(mem[..], item.memPtr);
    ghost var all := ItemsFrom(mem[..], memPtr, item.memPtr + item.len);
    for i := 0 to items
      invariant result[..i] + ItemsFrom(mem[..], memPtr, item.memPtr + item.len) == all
    {
      assert memPtr < item.memPtr + item.len;
      var dataLen := ItemLength(mem[..], memPtr);
      result[i] := RLPItem(dataLen, memPtr);
      assert result[..i + 1] == result[..i] + [RLPItem(dataLen, memPtr)];
      memPtr := memPtr + dataLen;
    }
    assert result[..items] == result[..] && |all| == items;
    assert result[..] == all;
    return Ok(result[..]);
  }

  // ----- Words -----

  type Word = s: Bytes | |s| == 32 witness seq(32, _ => 0 as byte)

  function And(x: byte, y: byte): byte {
    ((((x as int) as bv8) & ((y as int) as bv8)) as int) as byte
  }

  function Or(x: byte, y: byte): byte {
    ((((x as int) as bv8) | ((y as int) as bv8)) as int) as byte
  }

  function Not(x: byte): byte {
    (255 - x as int) as byte
  }

  lemma ByteMasks(x: byte)
    ensures And(x, 0) == 0 && And(x, 255) == x && Or(x, 0) == x && Or(0, x) == x
  {
  }

  function AndWords(x: Word, y: Word): Word {
    seq(32, i requires 0 <= i < 32 => And(x[i], y[i]))
  }

  function OrWords(x: Word, y: Word): Word {
    seq(32, i requires 0 <= i < 32 => Or(x[i], y[i]))
  }

  function NotWord(x: Word): Word {
    seq(32, i requires 0 <= i < 32 => Not(x[i]))
  }

  /** `256 ** (32 - len) - 1`, with the power wrapping to 0 and the subtraction below 0. */
  function Mask(len: nat): Word
    requires len < 32
  {
    BigEndian((Pow256(32 - len) % TWO_256 - 1) % TWO_256, 32)
  }

  function Ones(n: nat): Bytes {
    seq(n, _ => 255 as byte)
  }

  function Zeros(n: nat): Bytes {
    seq(n, _ => 0 as byte)
  }

  lemma {:induction false} OnesValue(n: nat)
    ensures FromBigEndian(Ones(n)) == Pow256(n) - 1
  {
    if n > 0 {
      OnesValue(n - 1);
      assert Ones(n)[..n - 1] == Ones(n - 1);
    }
  }

  lemma {:induction false} ZerosValue(n: nat)
    ensures FromBigEndian(Zeros(n)) == 0
  {
    if n > 0 {
      ZerosValue(n - 1);
      assert Zeros(n)[..n - 1] == Zeros(n - 1);
    }
  }

  /** The mask covers all bytes but the first `len`, also where the power wraps to 0. */
  lemma MaskBytes(len: nat)
    requires len < 32
    ensures Mask(len) == Zeros(len) + Ones(32 - len)
  {
    hide Pow256, FromBigEndian, BigEndian;
    var s := Zeros(len) + Ones(32 - len);
    FromBigEndianConcat(Zeros(len), Ones(32 - len));
    ZerosValue(len);
    OnesValue(32 - len);
    Pow256At32();
    Pow256Wraps(32 - len);
    Pow256Monotone(32 - len, 32);
    WrapBelow(Pow256(32 - len));
    BigEndianRoundTrip(s);
  }

  lemma WrapBelow(x: nat)
    requires 1 <= x <= TWO_256
    ensures (x % TWO_256 - 1) % TWO_256 == x - 1
  {
  }

  /** What the last store of `copy` writes: the first `len` bytes of the source, the rest as before. */
  lemma BlendedWord(src: Word, dest: Word, len: nat)
    requires len < 32
    ensures OrWords(AndWords(dest, Mask(len)), AndWords(src, NotWord(Mask(len)))) == src[..len] + dest[len..]
  {
    hide Mask, And, Or;
    MaskBytes(len);
    var blended := OrWords(AndWords(dest, Mask(len)), AndWords(src, NotWord(Mask(len))));
    forall i | 0 <= i < 32
      ensures blended[i] == (src[..len] + dest[len..])[i]
    {
      ByteMasks(src[i]);
      ByteMasks(dest[i]);
    }
  }

  // ----- Copying -----

  method MStore(mem: array<byte>, p: nat, word: Word)
    requires p + 32 <= mem.Length
    modifies mem
    ensures mem[..] == old(mem[..p]) + word + old(mem[p + 32..])
  {
    forall i | 0 <= i < 32 {
      mem[p + i] := word[i];
    }
  }

  lemma WrittenTwice(mem: Bytes, p: nat, s: Bytes, t: Bytes)
    requires p + |s| + |t| <= |mem|
    ensures Written(Written(mem, p, s), p + |s|, t) == Written(mem, p, s + t)
  {
  }

  /** Reading away from what was written. */
  lemma RegionUnwritten(mem: Bytes, p: nat, s: Bytes, q: nat, n: nat)
    requires p + |s| <= |mem|
    requires q + n <= p || p + |s| <= q
    ensures Region(Written(mem, p, s), q, n) == Region(mem, q, n)
  {
  }

  lemma RegionConcat(mem: Bytes, p: nat, m: nat, n: nat)
    ensures Region(mem, p, m) + Region(mem, p + m, n) == Region(mem, p, m + n)
  {
  }

  /**
   Copies exactly `len` bytes, and preserves every other byte although it stores whole words.
   */
  method Copy(mem: array<byte>, src: nat, dest: nat, len: nat)
    requires dest + len + 32 <= mem.Length
    requires src + len <= dest || dest + len <= src
    modifies mem
    ensures mem[..] == Written(old(mem[..]), dest, Region(old(mem[..]), src, len))
  {
    hide Region, Written, Mask, AndWords, OrWords, NotWord;
    var s: nat, d: nat, left: nat := src, dest, len;
    ghost var was := mem[..];
    WrittenNothing(was, dest, Region(was, src, 0));
    while left >= 32
      invariant left <= len && s == src + (len - left) && d == dest + (len - left)
      invariant mem[..] == Written(was, dest, Region(was, src, len - left))
    {
      ghost var done := len - left;
      RegionUnwritten(was, dest, Region(was, src, done), s, 32);
      MStore(mem, d, Region(mem[..], s, 32));
      StoreIsWrite(Written(was, dest, Region(was, src, done)), mem[..], d, Region(was, s, 32));
      WrittenTwice(was, dest, Region(was, src, done), Region(was, s, 32));
      RegionConcat(was, src, done, 32);
      s, d, left := s + 32, d + 32, left - 32;
    }
    ghost var done := len - left;
    var mask := Mask(left);
    var srcpart := AndWords(Region(mem[..], s, 32), NotWord(mask));
    var destpart := AndWords(Region(mem[..], d, 32), mask);
    BlendedWord(Region(mem[..], s, 32), Region(mem[..], d, 32), left);
    MStore(mem, d, OrWords(destpart, srcpart));
    ghost var before := Written(was, dest, Region(was, src, done));
    PartialStore(before, mem[..], d, s, left);
    RegionUnwritten(was, dest, Region(was, src, done), s, left);
    WrittenTwice(was, dest, Region(was, src, done), Region(was, s, left));
    RegionConcat(was, src, done, left);
  }

  lemma WrittenNothing(mem: Bytes, p: nat, s: Bytes)
    requires p <= |mem| && s == []
    ensures Written(mem, p, s) == mem
  {
  }

  lemma StoreIsWrite(mem: Bytes, after: Bytes, p: nat, word: Bytes)
    requires |word| == 32 && p + 32 <= |mem|
    requires after == mem[..p] + word + mem[p + 32..]
    ensures after == Written(mem, p, word)
  {
  }

  /** Storing a word whose tail is what was there writes only its head. */
  lemma PartialStore(mem: Bytes, after: Bytes, p: nat, q: nat, len: nat)
    requires len < 32 && p + 32 <= |mem|
    requires after == mem[..p] + (Region(mem, q, 32)[..len] + Region(mem, p, 32)[len..]) + mem[p + 32..]
    ensures after == Written(mem, p, Region(mem, q, len))
  {
  }

  /** `toRLPBytes`: the raw bytes of an item, copied to freshly allocated memory at `destPtr`. */
  method CopyRLPBytes(mem: array<byte>, item: RLPItem, destPtr: nat)
    requires item.memPtr + item.len <= destPtr && destPtr + item.len + 32 <= mem.Length
    modifies mem
    ensures mem[..] == Written(old(mem[..]), destPtr, ToRLPBytes(old(mem[..]), item))
  {
    Copy(mem, item.memPtr, destPtr, item.len);
  }

  /** `toBytes`: the payload of an item, copied to freshly allocated memory at `destPtr`. */
  method CopyBytes(mem: array<byte>, item: RLPItem, destPtr: nat) returns (r: Result<nat>)
    requires item.memPtr + item.len <= destPtr && destPtr + item.len + 32 <= mem.Length
    modifies mem
    ensures r.Ok? <==> ToBytes(old(mem[..]), item).Ok?
    ensures r.Ok? ==> mem[..] == Written(old(mem[..]), destPtr, ToBytes(old(mem[..]), item).value)
    ensures r.Ok? ==> r.value == |ToBytes(old(mem[..]), item).value|
    ensures r.Revert? ==> mem[..] == old(mem[..])
  {
    var offset := PayloadOffset(mem[..], item.memPtr);
    if item.len < offset {
      return Revert;
    }
    var len := item.len - offset;
    Copy(mem, item.memPtr + offset, destPtr, len);
    return Ok(len);
  }
}
