/** Half-bytes of keys: unpacking, hex-prefix encoding (Yellow Paper, Appendix C) and shared prefixes. */
module Nibbles {
  import opened Prelude
  import opened BigEndianBytes
  import opened RLPCodec

  predicate IsNibbles(s: Bytes) {
    forall i | 0 <= i < |s| :: s[i] < 16
  }

  /** The `i`-th half-byte of packed bytes. */
  function NibbleAt(s: Bytes, i: nat): (x: byte)
    requires i < 2 * |s|
    ensures x < 16
  {
    if i % 2 == 0 then (s[i / 2] as int / 16) as byte else (s[i / 2] as int % 16) as byte
  }

  /** All half-bytes of packed bytes but the first `skip`. */
  function Unpack(s: Bytes, skip: nat): (r: Bytes)
    requires skip <= 2 * |s|
    ensures |r| == 2 * |s| - skip
    ensures forall i | 0 <= i < |r| :: r[i] == NibbleAt(s, skip + i)
    ensures IsNibbles(r)
  {
    seq(2 * |s| - skip, i requires 0 <= i < 2 * |s| - skip => NibbleAt(s, skip + i))
  }

  /** `decodeNibbles`. */
  function DecodeNibbles(compact: Bytes, skip: nat): Result<Bytes> {
    if compact == [] || skip > 2 * |compact| then Revert else Ok(Unpack(compact, skip))
  }

  /** The loop of `decodeNibbles`, filling its array in place. */
  method DecodeNibblesLoop(compact: Bytes, skip: nat) returns (r: Result<Bytes>)
    ensures r == DecodeNibbles(compact, skip)
  {
    if compact == [] {
      return Revert;
    }
    var length := |compact| * 2;
    if skip > length {
      return Revert;
    }
    length := length - skip;
    var nibbles := new byte[length](_ => 0);
    var nibblesLength := 0;
    for i := skip to skip + length
      invariant nibblesLength == i - skip
      invariant forall k | 0 <= k < nibblesLength :: nibbles[k] == NibbleAt(compact, skip + k)
    {
      if i % 2 == 0 {
        nibbles[nibblesLength] := (compact[i / 2] as int / 16 % 16) as byte;
      } else {
        nibbles[nibblesLength] := (compact[i / 2] as int % 16) as byte;
      }
      nibblesLength := nibblesLength + 1;
    }
    assert nibblesLength == nibbles.Length;
    assert nibbles[..] == Unpack(compact, skip);
    return Ok(nibbles[..]);
  }

  // ----- Hex-prefix encoding -----

  /** Pairs of half-bytes packed into bytes. */
  function Pack(key: Bytes): (s: Bytes)
    requires |key| % 2 == 0 && IsNibbles(key)
    ensures 2 * |s| == |key|
  {
    if key == [] then [] else [(key[0] as int * 16 + key[1] as int) as byte] + Pack(key[2..])
  }

  /** Appendix C: the flag in the first half-byte tells leaves from extensions and odd from even. */
  function HexPrefix(key: Bytes, leaf: bool): (s: Bytes)
    requires IsNibbles(key)
    ensures |s| > 0
  {
    var flag := if leaf then 2 else 0;
    if |key| % 2 == 0 then [(16 * flag) as byte] + Pack(key)
    else [(16 * (flag + 1) + key[0] as int) as byte] + Pack(key[1..])
  }

  /** `merklePatriciaCompactDecode`: how many half-bytes to skip depends on the first. */
  function CompactDecode(compact: Bytes): Result<Bytes> {
    if compact == [] then Revert
    else
      var first := compact[0] as int / 16;
      if first == 0 || first == 2 then DecodeNibbles(compact, 2)
      else if first == 1 || first == 3 then DecodeNibbles(compact, 1)
      else Revert
  }

  lemma {:induction false} UnpackPack(key: Bytes, i: nat)
    requires |key| % 2 == 0 && IsNibbles(key) && i < |key|
    ensures NibbleAt(Pack(key), i) == key[i]
  {
    if i >= 2 {
      UnpackPack(key[2..], i - 2);
      assert Pack(key)[i / 2] == Pack(key[2..])[(i - 2) / 2];
    }
  }

  /** Decoding undoes the hex-prefix encoding, of leaves and extensions, odd and even. */
  lemma HexPrefixRoundTrip(key: Bytes, leaf: bool)
    requires IsNibbles(key)
    ensures CompactDecode(HexPrefix(key, leaf)) == Ok(key)
  {
    hide Pack, HexPrefix;
    var odd := |key| % 2;
    var s, rest := HexPrefix(key, leaf), key[odd..];
    HexPrefixParts(key, leaf);
    var r := Unpack(s, 2 - odd);
    forall i | 0 <= i < |key|
      ensures r[i] == key[i]
    {
      if i >= odd {
        UnpackPack(rest, i - odd);
        assert s[(2 - odd + i) / 2] == s[1..][(i - odd) / 2];
      }
    }
    assert r == key;
  }

  /** The first byte of every encoding. */
  lemma HexPrefixFlag(key: Bytes, leaf: bool)
    requires IsNibbles(key)
    ensures HexPrefix(key, leaf)[0] as int
         == (if leaf then 0x20 else 0x00) + if |key| % 2 == 1 then 0x10 + key[0] as int else 0
  {
    hide Pack;
  }

  /** Encodings that the Ethereum wiki gives as examples. */
  lemma KnownHexPrefixes()
    ensures HexPrefix([1, 2, 3, 4, 5], false) == [0x11, 0x23, 0x45]
    ensures HexPrefix([0, 1, 2, 3, 4, 5], false) == [0x00, 0x01, 0x23, 0x45]
    ensures HexPrefix([0, 15, 1, 12, 11, 8], true) == [0x20, 0x0f, 0x1c, 0xb8]
    ensures HexPrefix([15, 1, 12, 11, 8], true) == [0x3f, 0x1c, 0xb8]
  {
    hide Pack;
    PackFour(1, 12, 11, 8);
    PackFour(2, 3, 4, 5);
    PackPair(0, 1, [2, 3, 4, 5]);
    PackPair(0, 15, [1, 12, 11, 8]);
    var odd, even: Bytes := [1, 2, 3, 4, 5], [0, 1, 2, 3, 4, 5];
    assert odd[1..] == [2, 3, 4, 5] && even == [0, 1] + [2, 3, 4, 5];
    var oddLeaf, evenLeaf: Bytes := [15, 1, 12, 11, 8], [0, 15, 1, 12, 11, 8];
    assert oddLeaf[1..] == [1, 12, 11, 8] && evenLeaf == [0, 15] + [1, 12, 11, 8];
  }

  lemma PackFour(a: byte, b: byte, c: byte, d: byte)
    requires a < 16 && b < 16 && c < 16 && d < 16
    ensures Pack([a, b, c, d]) == [(a as int * 16 + b as int) as byte, (c as int * 16 + d as int) as byte]
  {
    PackPair(a, b, [c, d]);
    PackPair(c, d, []);
  }

  lemma PackPair(high: byte, low: byte, rest: Bytes)
    requires high < 16 && low < 16 && |rest| % 2 == 0 && IsNibbles(rest)
    ensures Pack([high, low] + rest) == [(high as int * 16 + low as int) as byte] + Pack(rest)
  {
    assert ([high, low] + rest)[2..] == rest;
  }

  lemma HexPrefixParts(key: Bytes, leaf: bool)
    requires IsNibbles(key)
    ensures var s, odd := HexPrefix(key, leaf), |key| % 2;
            && s[1..] == Pack(key[odd..])
            && CompactDecode(s) == Ok(Unpack(s, 2 - odd))
            && (odd == 1 ==> s[0] as int % 16 == key[0] as int)
  {
    hide Pack;
  }

  // ----- Extracting one half-byte of a 32-byte key -----

  type pos = x: int | x > 0 witness 1

  function Pow16(k: nat): pos {
    if k == 0 then 1 else 16 * Pow16(k - 1)
  }

  function Quotient(x: nat, d: pos): nat {
    x / d
  }

  /** `w` without its last `k` half-bytes. */
  function DropLast(w: nat, k: nat): nat {
    Quotient(w, Pow16(k))
  }

  /** The last `k` half-bytes of `w`. */
  function KeepLast(w: nat, k: nat): nat {
    w % Pow16(k)
  }

  /** A `bytes32` shifted left by `4 * k` bits. */
  function ShiftLeft4(w: nat, k: nat): nat {
    KeepLast(w * Pow16(k), 64)
  }

  /** `byte(w)`: the most significant of 32 bytes. */
  function TopByte(w: nat): nat {
    DropLast(w, 62)
  }

  /** `extractNibble`, on the number the 32 bytes denote. */
  function ExtractNibble(path: Bytes, position: nat): Result<nat> {
    if position >= 64 then Revert
    else
      var w := FromBigEndian(path);
      var shifted := if position == 0 then TopByte(w / 16) else TopByte(ShiftLeft4(w, position - 1));
      Ok(shifted % 16)
  }

  lemma {:induction false} Pow16Sum(j: nat, k: nat)
    ensures Pow16(j + k) == Pow16(j) * Pow16(k)
  {
    if j > 0 {
      Pow16Sum(j - 1, k);
      assert Pow16(j + k) == 16 * (Pow16(j - 1) * Pow16(k));
    }
  }

  lemma {:induction false} Pow16Twice(k: nat)
    ensures Pow16(2 * k) == Pow256(k)
  {
    if k > 0 {
      Pow16Twice(k - 1);
      assert Pow16(2 * k) == 16 * (16 * Pow16(2 * (k - 1)));
    }
  }

  lemma QuotientRemainder(x: nat, d: nat)
    requires d > 0
    ensures x == (x / d) * d + x % d && x % d < d
  {
  }

  lemma QuotientOfQuotient(x: nat, a: nat, b: nat, y: nat, r: nat, q: nat, t: nat)
    requires x == y * a + r && r < a && y == q * b + t && t < b
    ensures a * b > 0 && x / (a * b) == q
  {
    Regroup(q, b, t, a, r);
    MultiplesOrdered(t + 1, b, a);
    QuotientOf(q, a * b, t * a + r);
  }

  lemma Regroup(q: nat, b: nat, t: nat, a: nat, r: nat)
    ensures (q * b + t) * a + r == q * (a * b) + (t * a + r)
    ensures (t + 1) * a == t * a + a && b * a == a * b
  {
  }

  /** Division by a product is division twice. */
  lemma DivideTwice(x: nat, a: nat, b: nat)
    requires a > 0 && b > 0
    ensures a * b > 0 && x / (a * b) == x / a / b
  {
    var y := x / a;
    QuotientRemainder(x, a);
    QuotientRemainder(y, b);
    QuotientOfQuotient(x, a, b, y, x % a, y / b, y % b);
  }

  /** Shifting left drops the leading digits, so its top byte is a middle stretch of the word. */
  lemma ShiftedTop(w: nat, k: nat)
    requires w < Pow16(64) && k <= 62
    ensures TopByte(ShiftLeft4(w, k)) == w % Pow16(64 - k) / Pow16(62 - k)
  {
    hide Pow16;
    var p, q, t := Pow16(64 - k), Pow16(k), Pow16(62 - k);
    Pow16Sum(64 - k, k);
    Pow16Sum(62 - k, k);
    ShiftedQuotient(w, p, q, t);
  }

  lemma ShiftedQuotient(w: nat, p: nat, q: nat, t: nat)
    requires p > 0 && q > 0 && t > 0
    ensures p * q > 0 && t * q > 0
    ensures w * q % (p * q) / (t * q) == w % p / t
  {
    var high, low := w / p, w % p;
    QuotientRemainder(w, p);
    ProductSplit(high, low, p, q);
    MultiplesBelow(low, p, q);
    QuotientOf(high, p * q, low * q);
    ScaledQuotient(low, q, t);
  }

  lemma ScaledQuotient(low: nat, q: nat, t: nat)
    requires q > 0 && t > 0
    ensures t * q > 0 && low * q / (t * q) == low / t
  {
    QuotientRemainder(low, t);
    QuotientOfQuotient(low * q, q, t, low, 0, low / t, low % t);
    assert q * t == t * q;
  }

  lemma ProductSplit(high: nat, low: nat, p: nat, q: nat)
    ensures (high * p + low) * q == high * (p * q) + low * q
  {
  }

  lemma MultiplesBelow(x: nat, y: nat, q: nat)
    requires x < y && q > 0
    ensures x * q < y * q
  {
  }

  lemma RemainderDigit(w: nat, m: nat)
    requires m >= 1
    ensures w % Pow16(m + 1) / Pow16(m - 1) % 16 == w / Pow16(m - 1) % 16
  {
    hide Pow16;
    Pow16Sum(2, m - 1);
    Pow16At2();
    DigitBelow(w, Pow16(m - 1));
  }

  lemma DigitBelow(w: nat, d: nat)
    requires d > 0
    ensures 256 * d > 0
    ensures w % (256 * d) / d % 16 == w / d % 16
  {
    var p: pos := 256 * d;
    QuotientRemainder(w, p);
    DigitOf(w, d, Quotient(w, p), w % p);
  }

  lemma DigitOf(w: nat, d: nat, high: nat, low: nat)
    requires d > 0 && w == high * (256 * d) + low
    ensures w / d % 16 == low / d % 16
  {
    Reorder(high, d);
    QuotientShift(high * 256, low, d);
    SameRemainder(high, low / d);
  }

  lemma SameRemainder(x: nat, y: nat)
    ensures (x * 256 + y) % 16 == y % 16
  {
    assert x * 256 + y == 16 * (16 * x) + y;
  }

  lemma Reorder(x: nat, d: nat)
    ensures x * (256 * d) == x * 256 * d
  {
  }

  lemma Pow16At2()
    ensures Pow16(2) == 256 && Pow16(1) == 16 && Pow16(0) == 1
  {
  }

  lemma QuotientShift(q: nat, x: nat, d: nat)
    requires d > 0
    ensures (q * d + x) / d == q + x / d
  {
    assert q * d + x == (q + x / d) * d + x % d;
    QuotientOf(q + x / d, d, x % d);
  }

  /** `extractNibble` reads the digit at `position` of the word. */
  lemma ExtractIsDigit(path: Bytes, position: nat)
    requires |path| == 32 && position < 64
    ensures ExtractNibble(path, position) == Ok(FromBigEndian(path) / Pow16(63 - position) % 16)
  {
    hide Pow16, FromBigEndian;
    var w := FromBigEndian(path);
    Pow16Twice(32);
    if position == 0 {
      Pow16Sum(1, 62);
      Pow16At2();
      DivideTwice(w, 16, Pow16(62));
      assert Pow16(63) == 16 * Pow16(62);
    } else {
      ShiftedTop(w, position - 1);
      RemainderDigit(w, 64 - position);
    }
  }

  /** `extractNibble` agrees with unpacking all half-bytes. */
  lemma ExtractIsUnpacked(path: Bytes, position: nat)
    requires |path| == 32 && position < 64
    ensures ExtractNibble(path, position) == Ok(Unpack(path, 0)[position] as nat)
  {
    ExtractIsDigit(path, position);
    hide Pow16, Pow256, ExtractNibble;
    var j := position / 2;
    var s := path[..j + 1];
    DropBytes(path, j + 1);
    Pow16Twice(31 - j);
    LastByte(s);
    assert s[j] == path[j];
    if position % 2 == 1 {
      assert 63 - position == 2 * (31 - j);
    } else {
      Pow16Sum(2 * (31 - j), 1);
      Pow16At2();
      DivideTwice(FromBigEndian(path), Pow256(31 - j), 16);
      assert 63 - position == 2 * (31 - j) + 1;
    }
  }

  lemma LastByte(s: Bytes)
    requires s != []
    ensures FromBigEndian(s) % 16 == s[|s| - 1] as int % 16
    ensures FromBigEndian(s) / 16 % 16 == s[|s| - 1] as int / 16
  {
    var last := s[|s| - 1] as int;
    LowDigits(FromBigEndian(s[..|s| - 1]), last / 16, last % 16);
  }

  /** The two lowest hexadecimal digits of a number. */
  lemma LowDigits(high: nat, tens: nat, units: nat)
    requires tens < 16 && units < 16
    ensures (256 * high + (16 * tens + units)) % 16 == units
    ensures (256 * high + (16 * tens + units)) / 16 % 16 == tens
  {
  }

  // ----- Shared prefixes -----

  /** How far `ys` agrees with `xs` from `offset` on. */
  function Shared(xs: Bytes, offset: nat, ys: Bytes): (n: nat)
    ensures n <= |ys|
    ensures offset <= |xs| ==> offset + n <= |xs| && xs[offset..offset + n] == ys[..n]
    ensures n < |ys| && offset + n < |xs| ==> xs[offset + n] != ys[n]
    decreases |ys|
  {
    if offset < |xs| && ys != [] && xs[offset] == ys[0] then 1 + Shared(xs, offset + 1, ys[1..]) else 0
  }

  lemma {:induction false} SharedIs(xs: Bytes, offset: nat, ys: Bytes, n: nat)
    requires n <= |ys| && (offset <= |xs| || n == 0) && (offset <= |xs| ==> offset + n <= |xs|)
    requires forall k | 0 <= k < n :: xs[offset + k] == ys[k]
    requires offset + n >= |xs| || n == |ys| || xs[offset + n] != ys[n]
    ensures Shared(xs, offset, ys) == n
    decreases n
  {
    if n > 0 {
      assert xs[offset + 0] == ys[0];
      assert forall k | 0 <= k < n - 1 :: xs[offset + 1 + k] == ys[1..][k] by {
        forall k | 0 <= k < n - 1
          ensures xs[offset + 1 + k] == ys[1..][k]
        {
          assert xs[offset + (k + 1)] == ys[k + 1];
        }
      }
      SharedIs(xs, offset + 1, ys[1..], n - 1);
    }
  }

  method SharedPrefixLength(xsOffset: nat, xs: Bytes, ys: Bytes) returns (i: nat)
    ensures i == Shared(xs, xsOffset, ys)
  {
    i := 0;
    while i + xsOffset < |xs| && i < |ys|
      invariant i <= |ys| && (i > 0 ==> xsOffset + i <= |xs|)
      invariant forall k | 0 <= k < i :: xs[xsOffset + k] == ys[k]
    {
      if xs[i + xsOffset] != ys[i] {
        SharedIs(xs, xsOffset, ys, i);
        return;
      }
      i := i + 1;
    }
    SharedIs(xs, xsOffset, ys, i);
  }
}
