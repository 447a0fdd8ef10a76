/** Numbers as big-endian bytes. */
module BigEndianBytes {
  import opened Prelude

  /** The big-endian bytes of `n` in `width` positions. */
  function BigEndian(n: nat, width: nat): (s: Bytes)
    ensures |s| == width
  {
    if width == 0 then [] else BigEndian(n / 256, width - 1) + [(n % 256) as byte]
  }

  function Pow256(k: nat): (r: nat)
    ensures r > 0
  {
    if k == 0 then 1 else 256 * Pow256(k - 1)
  }

  lemma {:induction false} BigEndianInjective(m: nat, n: nat, width: nat)
    requires m < Pow256(width) && n < Pow256(width)
    requires BigEndian(m, width) == BigEndian(n, width)
    ensures m == n
  {
    if width > 0 {
      var s, t := BigEndian(m, width), BigEndian(n, width);
      assert s[width - 1] == (m % 256) as byte && t[width - 1] == (n % 256) as byte;
      assert BigEndian(m / 256, width - 1) == s[..width - 1] == t[..width - 1] == BigEndian(n / 256, width - 1);
      BigEndianInjective(m / 256, n / 256, width - 1);
    }
  }

  /** The number big-endian bytes denote. */
  function FromBigEndian(s: Bytes): (r: nat)
    ensures r < Pow256(|s|)
  {
    if s == [] then 0 else 256 * FromBigEndian(s[..|s| - 1]) + s[|s| - 1] as int
  }

  lemma {:induction false} BigEndianRoundTrip(s: Bytes)
    ensures BigEndian(FromBigEndian(s), |s|) == s
  {
    if s != [] {
      BigEndianRoundTrip(s[..|s| - 1]);
      assert s == s[..|s| - 1] + [s[|s| - 1]];
    }
  }

  lemma Pow256Monotone(j: nat, k: nat)
    requires j <= k
    ensures Pow256(j) <= Pow256(k)
  {
    if j < k {
      Pow256Monotone(j, k - 1);
    }
  }

  lemma {:induction false} FromBigEndianConcat(a: Bytes, b: Bytes)
    ensures FromBigEndian(a + b) == FromBigEndian(a) * Pow256(|b|) + FromBigEndian(b)
  {
    if b == [] {
      assert a + b == a;
    } else {
      var front := b[..|b| - 1];
      FromBigEndianConcat(a, front);
      assert (a + b)[..|a + b| - 1] == a + front;
      Distribute(FromBigEndian(a), Pow256(|front|), FromBigEndian(front));
    }
  }

  /** The first byte counts most: in two bytes, 256 times. */
  lemma FirstByteCounts(first: byte, rest: Bytes, last: byte)
    ensures FromBigEndian([first] + rest) == first as int * Pow256(|rest|) + FromBigEndian(rest)
    ensures FromBigEndian([first, last]) == 256 * first as int + last as int
  {
    OneByte(first);
    OneByte(last);
    hide FromBigEndian, Pow256;
    FromBigEndianConcat([first], rest);
    FromBigEndianConcat([first], [last]);
    assert [first] + [last] == [first, last];
  }

  lemma OneByte(b: byte)
    ensures FromBigEndian([b]) == b as int && Pow256(1) == 256
  {
    assert [b][..0] == [];
  }

  lemma Distribute(x: nat, y: nat, z: nat)
    ensures 256 * (x * y + z) == x * (256 * y) + 256 * z
  {
  }

  /** Dividing by a power of 256 drops that many bytes. */
  lemma DropBytes(s: Bytes, k: nat)
    requires k <= |s|
    ensures FromBigEndian(s) / Pow256(|s| - k) == FromBigEndian(s[..k])
  {
    assert s == s[..k] + s[k..];
    FromBigEndianConcat(s[..k], s[k..]);
    QuotientOf(FromBigEndian(s[..k]), Pow256(|s| - k), FromBigEndian(s[k..]));
  }

  lemma QuotientOf(q: nat, d: nat, r: nat)
    requires r < d
    ensures (q * d + r) / d == q && (q * d + r) % d == r
  {
    var x := q * d + r;
    var y := x / d;
    assert x == y * d + x % d;
    if y < q {
      MultiplesOrdered(y + 1, q, d);
    } else if y > q {
      MultiplesOrdered(q + 1, y, d);
    }
  }

  lemma MultiplesOrdered(a: nat, b: nat, d: nat)
    requires a <= b
    ensures a * d <= b * d
  {
  }

  /** The bytes of a number without leading zeros; none for 0. */
  function Digits(n: nat): Bytes {
    if n == 0 then [] else Digits(n / 256) + [(n % 256) as byte]
  }

  lemma {:induction false} DigitsRoundTrip(n: nat)
    ensures FromBigEndian(Digits(n)) == n
  {
    if n > 0 {
      DigitsRoundTrip(n / 256);
      assert Digits(n)[..|Digits(n)| - 1] == Digits(n / 256);
    }
  }

  lemma {:induction false} DigitsAtMost(n: nat, k: nat)
    requires n < Pow256(k)
    ensures |Digits(n)| <= k
  {
    if n > 0 {
      DigitsAtMost(n / 256, k - 1);
    }
  }
}
