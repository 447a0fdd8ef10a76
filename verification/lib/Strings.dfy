/** String slices over memory: comparing, trimming and joining, word by word. */
module Strings {
  import opened Prelude
  import opened BigEndianBytes
  import opened RLPCodec
  import opened RLPReader

  /** A slice is a record that `beyond` updates in place. */
  class Slice {
    var len: nat
    var ptr: nat

    /** `toSlice`. */
    constructor (len: nat, ptr: nat)
      ensures this.len == len && this.ptr == ptr
    {
      this.len := len;
      this.ptr := ptr;
    }

    /** The bytes a slice covers. */
    function Content(mem: Bytes): (s: Bytes)
      reads this
      ensures |s| == len
    {
      Region(mem, ptr, len)
    }
  }

  // ----- Comparing -----

  /** How many bytes `compare` looks at: whole words, except that a single short word is masked. */
  function Looked(n: nat): nat {
    if n < 32 then n else (n + 31) / 32 * 32
  }

  /** What `compare` takes for equal. */
  predicate EqualWords(mem: Bytes, p: nat, q: nat, n: nat) {
    Region(mem, p, Looked(n)) == Region(mem, q, Looked(n))
  }

  /**
   `compare` calls two strings equal exactly if they are and, from 32 bytes on, the memory
   behind them up to the next whole word is the same too.
   */
  lemma EqualWordsExact(mem: Bytes, p: nat, q: nat, n: nat)
    ensures EqualWords(mem, p, q, n)
       <==> && Region(mem, p, n) == Region(mem, q, n)
            && (n >= 32 ==> Region(mem, p + n, Looked(n) - n) == Region(mem, q + n, Looked(n) - n))
  {
    hide Region;
    if n >= 32 {
      RegionConcat(mem, p, n, Looked(n) - n);
      RegionConcat(mem, q, n, Looked(n) - n);
      SplitEqual(Region(mem, p, n), Region(mem, p + n, Looked(n) - n), Region(mem, q, n), Region(mem, q + n, Looked(n) - n));
    }
  }

  lemma SplitEqual(a: Bytes, b: Bytes, c: Bytes, d: Bytes)
    requires |a| == |c|
    ensures a + b == c + d <==> a == c && b == d
  {
    if a + b == c + d {
      assert a == (a + b)[..|a|] && b == (a + b)[|a|..];
      assert c == (c + d)[..|c|] && d == (c + d)[|c|..];
    }
  }

  /** Strings padded with zeros to whole words, as memory allocates them, compare exactly. */
  lemma PaddedCompareExact(mem: Bytes, p: nat, q: nat, n: nat)
    requires Region(mem, p + n, Looked(n) - n) == Zeros(Looked(n) - n)
    requires Region(mem, q + n, Looked(n) - n) == Zeros(Looked(n) - n)
    ensures EqualWords(mem, p, q, n) <==> Region(mem, p, n) == Region(mem, q, n)
  {
    EqualWordsExact(mem, p, q, n);
  }

  /** `(a - b)` as a 256-bit word; zero only for equal words. */
  function Difference(a: Word, b: Word): nat {
    (FromBigEndian(a) - FromBigEndian(b)) % TWO_256
  }

  lemma DifferenceZero(a: Word, b: Word)
    ensures Difference(a, b) == 0 <==> a == b
    ensures Difference(a, b) < TWO_256
  {
    hide FromBigEndian, Pow256;
    Pow256At32();
    SmallDifference(FromBigEndian(a), FromBigEndian(b));
    BigEndianRoundTrip(a);
    BigEndianRoundTrip(b);
  }

  lemma SmallDifference(x: nat, y: nat)
    requires x < TWO_256 && y < TWO_256
    ensures (x - y) % TWO_256 == 0 <==> x == y
  {
  }

  /** What the mask of a short string leaves of a word. */
  lemma MaskedWord(w: Word, n: nat)
    requires n < 32
    ensures AndWords(w, NotWord(Mask(n))) == w[..n] + Zeros(32 - n)
  {
    hide Mask, And;
    MaskBytes(n);
    forall i | 0 <= i < 32
      ensures AndWords(w, NotWord(Mask(n)))[i] == (w[..n] + Zeros(32 - n))[i]
    {
      ByteMasks(w[i]);
    }
  }

  /** `compare`; only whether it gives 0 is used. */
  method Compare(mem: array<byte>, self: Slice, other: Slice) returns (r: int)
    ensures r == 0 <==> self.len == other.len && EqualWords(mem[..], self.ptr, other.ptr, self.len)
  {
    hide Region, Mask, AndWords, NotWord, Difference;
    var shortest := if other.len < self.len then other.len else self.len;
    var selfptr, otherptr := self.ptr, other.ptr;
    var idx := 0;
    NoRegion(mem[..], self.ptr);
    NoRegion(mem[..], other.ptr);
    while idx < shortest
      invariant idx % 32 == 0 && selfptr == self.ptr + idx && otherptr == other.ptr + idx
      invariant shortest >= 32 ==> idx <= Looked(shortest) && Region(mem[..], self.ptr, idx) == Region(mem[..], other.ptr, idx)
      invariant shortest < 32 && idx > 0 ==> EqualWords(mem[..], self.ptr, other.ptr, shortest)
      decreases shortest - idx
    {
      var a: Word, b: Word := Region(mem[..], selfptr, 32), Region(mem[..], otherptr, 32);
      if a != b {
        var x, y := a, b;
        if shortest < 32 {
          x, y := AndWords(a, NotWord(Mask(shortest))), AndWords(b, NotWord(Mask(shortest)));
          MaskedWord(a, shortest);
          MaskedWord(b, shortest);
          ShortWords(mem[..], selfptr, otherptr, shortest);
        }
        var diff := Difference(x, y);
        DifferenceZero(x, y);
        if diff != 0 {
          if shortest >= 32 {
            WordInside(mem[..], self.ptr, idx, Looked(shortest));
            WordInside(mem[..], other.ptr, idx, Looked(shortest));
          }
          return if diff < TWO_256 / 2 then diff else diff - TWO_256;
        }
      }
      if shortest < 32 && a == b {
        WordCovers(mem[..], self.ptr, other.ptr, shortest);
      }
      WordMore(mem[..], self.ptr, other.ptr, idx);
      selfptr, otherptr := selfptr + 32, otherptr + 32;
      idx := idx + 32;
    }
    if shortest >= 32 {
      assert idx == Looked(shortest);
    }
    return self.len - other.len;
  }

  lemma NoRegion(mem: Bytes, p: nat)
    ensures Region(mem, p, 0) == []
  {
  }

  lemma ShortWords(mem: Bytes, p: nat, q: nat, n: nat)
    requires n < 32
    ensures Region(mem, p, 32)[..n] == Region(mem, p, n) && Region(mem, q, 32)[..n] == Region(mem, q, n)
    ensures Region(mem, p, 32)[..n] + Zeros(32 - n) == Region(mem, q, 32)[..n] + Zeros(32 - n) <==> EqualWords(mem, p, q, n)
  {
    var a, b := Region(mem, p, 32)[..n], Region(mem, q, 32)[..n];
    assert a == Region(mem, p, n) && b == Region(mem, q, n);
    SplitEqual(a, Zeros(32 - n), b, Zeros(32 - n));
  }

  /** A word inside a longer stretch. */
  lemma WordInside(mem: Bytes, p: nat, idx: nat, n: nat)
    requires idx + 32 <= n
    ensures Region(mem, p, n)[idx..idx + 32] == Region(mem, p + idx, 32)
  {
  }

  /** One more equal word. */
  lemma WordMore(mem: Bytes, p: nat, q: nat, idx: nat)
    ensures Region(mem, p, idx) == Region(mem, q, idx) && Region(mem, p + idx, 32) == Region(mem, q + idx, 32)
            ==> Region(mem, p, idx + 32) == Region(mem, q, idx + 32)
  {
    hide Region;
    RegionConcat(mem, p, idx, 32);
    RegionConcat(mem, q, idx, 32);
  }

  /** An equal word covers a short string. */
  lemma WordCovers(mem: Bytes, p: nat, q: nat, n: nat)
    requires n < 32 && Region(mem, p, 32) == Region(mem, q, 32)
    ensures EqualWords(mem, p, q, n)
  {
    hide Region;
    RegionConcat(mem, p, n, 32 - n);
    RegionConcat(mem, q, n, 32 - n);
    SplitEqual(Region(mem, p, n), Region(mem, p + n, 32 - n), Region(mem, q, n), Region(mem, q + n, 32 - n));
  }

  /** `equals`. */
  method Equals(mem: array<byte>, self: Slice, other: Slice) returns (equal: bool)
    ensures equal == (self.len == other.len && EqualWords(mem[..], self.ptr, other.ptr, self.len))
    ensures equal ==> self.Content(mem[..]) == other.Content(mem[..])
  {
    hide EqualWords, Region;
    var c := Compare(mem, self, other);
    if c == 0 {
      EqualWordsExact(mem[..], self.ptr, other.ptr, self.len);
    }
    return c == 0;
  }

  // ----- Prefixes -----

  /** `startsWith`; comparing digests of two stretches compares the stretches. */
  method StartsWith(mem: array<byte>, self: Slice, needle: Slice) returns (b: bool)
    ensures b <==> needle.Content(mem[..]) <= self.Content(mem[..])
  {
    hide Region;
    if self.len < needle.len {
      return false;
    }
    PrefixRegion(mem[..], self.ptr, self.len, needle.ptr, needle.len);
    if self.ptr == needle.ptr {
      return true;
    }
    return Region(mem[..], self.ptr, needle.len) == Region(mem[..], needle.ptr, needle.len);
  }

  lemma PrefixRegion(mem: Bytes, p: nat, n: nat, q: nat, m: nat)
    requires m <= n
    ensures Region(mem, q, m) <= Region(mem, p, n) <==> Region(mem, p, m) == Region(mem, q, m)
    ensures Region(mem, p, n)[m..] == Region(mem, p + m, n - m)
  {
    assert Region(mem, p, n)[..m] == Region(mem, p, m);
  }

  /** `beyond`: cuts the needle off the front, if it is there. */
  method Beyond(mem: array<byte>, self: Slice, needle: Slice) returns (r: Slice)
    requires self != needle
    modifies self
    ensures r == self
    ensures var was, cut := old(self.Content(mem[..])), needle.Content(mem[..]);
            self.Content(mem[..]) == if cut <= was then was[|cut|..] else was
    ensures if needle.Content(mem[..]) <= old(self.Content(mem[..]))
            then self.ptr == old(self.ptr) + needle.len && self.len == old(self.len) - needle.len
            else self.ptr == old(self.ptr) && self.len == old(self.len)
  {
    hide Region;
    if self.len < needle.len {
      return self;
    }
    PrefixRegion(mem[..], self.ptr, self.len, needle.ptr, needle.len);
    var equal := true;
    if self.ptr != needle.ptr {
      equal := Region(mem[..], self.ptr, needle.len) == Region(mem[..], needle.ptr, needle.len);
    }
    if equal {
      self.len := self.len - needle.len;
      self.ptr := self.ptr + needle.len;
    }
    return self;
  }

  /**
   The transfer application's test for vouchers of the sending chain: `denom` against what is
   left of it beyond the prefix. It holds exactly if the denomination starts with the prefix,
   whatever the memory around it, since the two slices share their words or differ in length.
   */
  method TrimPrefix(mem: array<byte>, denom: Slice, prefix: Slice) returns (receiverIsSource: bool, trimmed: Slice)
    requires prefix.len > 0
    ensures receiverIsSource <==> prefix.Content(mem[..]) <= denom.Content(mem[..])
    ensures receiverIsSource ==> trimmed.Content(mem[..]) == denom.Content(mem[..])[prefix.len..]
    ensures fresh(trimmed)
  {
    hide Region, EqualWords;
    trimmed := new Slice(denom.len, denom.ptr);
    trimmed := Beyond(mem, trimmed, prefix);
    var same := Equals(mem, denom, trimmed);
    SameWords(mem[..], denom.ptr, denom.len);
    return !same, trimmed;
  }

  lemma SameWords(mem: Bytes, p: nat, n: nat)
    ensures EqualWords(mem, p, p, n)
  {
  }

  // ----- Joining -----

  /** `concat`, into freshly allocated memory at `retptr`. */
  method Concat(mem: array<byte>, self: Slice, other: Slice, retptr: nat)
    requires self.ptr + self.len <= retptr && other.ptr + other.len <= retptr
    requires retptr + self.len + other.len + 32 <= mem.Length
    modifies mem
    ensures mem[..] == Written(old(mem[..]), retptr, old(self.Content(mem[..])) + old(other.Content(mem[..])))
  {
    hide Region, Written;
    ghost var was := mem[..];
    Copy(mem, self.ptr, retptr, self.len);
    RegionUnwritten(was, retptr, Region(was, self.ptr, self.len), other.ptr, other.len);
    Copy(mem, other.ptr, retptr + self.len, other.len);
    WrittenTwice(was, retptr, Region(was, self.ptr, self.len), Region(was, other.ptr, other.len));
  }
}
