/** Addresses as "0x" text, the denominations of deposited tokens. */
module AddressText {
  import opened Prelude
  import opened BigEndianBytes
  import opened IBCIdentifier

  const TWO_160: int := 0x1_0000_0000_0000_0000_0000_0000_0000_0000_0000_0000

  function HexDigit(n: nat): byte
    requires n < 16
  {
    if n < 10 then (48 + n) as byte else (87 + n) as byte
  }

  function HexText(s: Bytes): Bytes {
    if s == [] then []
    else HexText(s[..|s| - 1]) + [HexDigit(s[|s| - 1] as int / 16), HexDigit(s[|s| - 1] as int % 16)]
  }

  /** "0x" and forty lower-case hexadecimal digits. */
  function AddressToString(a: Address): Bytes {
    [48, 120] + HexText(a)
  }

  const HEX_DIGITS := "0123456789abcdef"

  lemma HexDigits(n: nat)
    requires n < 16
    ensures HexDigit(n) as int == HEX_DIGITS[n] as int
  {
  }

  /** The text of an address, character by character. */
  lemma AddressTextIs(a: Address)
    ensures var text := AddressToString(a);
            && |text| == 42 && text[0] as int == '0' as int && text[1] as int == 'x' as int
            && forall k | 0 <= k < 20 ::
                 && text[2 + 2 * k] as int == "0123456789abcdef"[a[k] as int / 16] as int
                 && text[3 + 2 * k] as int == "0123456789abcdef"[a[k] as int % 16] as int
  {
    hide HexDigit;
    HexTextShape(a);
    var text := AddressToString(a);
    forall k | 0 <= k < 20
      ensures text[2 + 2 * k] as int == HEX_DIGITS[a[k] as int / 16] as int
      ensures text[3 + 2 * k] as int == HEX_DIGITS[a[k] as int % 16] as int
    {
      assert text[2 + 2 * k] == HexText(a)[2 * k] && text[3 + 2 * k] == HexText(a)[2 * k + 1];
      HexDigits(a[k] as int / 16);
      HexDigits(a[k] as int % 16);
    }
  }

  /** What the parser takes a character for; characters that are no digit count as themselves. */
  function DigitValue(c: byte): nat {
    if 97 <= c <= 102 then c as int - 87
    else if 65 <= c <= 70 then c as int - 55
    else if 48 <= c <= 57 then c as int - 48
    else c as int
  }

  /** The parser takes digits of either case for what they are. */
  lemma DigitValues(n: nat)
    requires n < 16
    ensures DigitValue(Ascii("0123456789abcdef")[n]) == n
    ensures DigitValue(Ascii("0123456789ABCDEF")[n]) == n
  {
  }

  /** The `uint160` accumulated from the first `k` digit pairs after "0x". */
  function ParsePairs(s: Bytes, k: nat): nat
    requires |s| >= 2 + 2 * k
  {
    if k == 0 then 0
    else (ParsePairs(s, k - 1) * 256 % TWO_160 + DigitValue(s[2 * k]) * 16 + DigitValue(s[2 * k + 1])) % TWO_160
  }

  /** `parseAddr`: reverts where an index is out of bounds. */
  function ParseAddr(s: Bytes): Result<Address> {
    if |s| < 42 then Revert else Ok(BigEndian(ParsePairs(s, 20), 20))
  }

  lemma {:induction false} HexTextShape(s: Bytes)
    ensures |HexText(s)| == 2 * |s|
    ensures forall c | c in HexText(s) :: 48 <= c <= 57 || 97 <= c <= 102
    ensures forall k | 0 <= k < |s| ::
              HexText(s)[2 * k] == HexDigit(s[k] as int / 16) && HexText(s)[2 * k + 1] == HexDigit(s[k] as int % 16)
  {
    if s != [] {
      HexTextShape(s[..|s| - 1]);
    }
  }

  lemma HexDigitValue(n: nat)
    requires n < 16
    ensures DigitValue(HexDigit(n)) == n
  {
  }

  /** The two characters of one byte. */
  lemma TextPair(a: Address, k: nat)
    requires k < 20
    ensures |AddressToString(a)| == 42
    ensures DigitValue(AddressToString(a)[2 + 2 * k]) == a[k] as int / 16
    ensures DigitValue(AddressToString(a)[3 + 2 * k]) == a[k] as int % 16
  {
    HexTextShape(a);
    hide HexText, HexDigit, DigitValue;
    var text := AddressToString(a);
    assert text[2 + 2 * k] == HexText(a)[2 * k];
    assert text[3 + 2 * k] == HexText(a)[2 * k + 1];
    HexDigitValue(a[k] as int / 16);
    HexDigitValue(a[k] as int % 16);
  }

  lemma FromBigEndianPrefix(a: Address, k: nat)
    requires 0 < k <= 20
    ensures FromBigEndian(a[..k]) == 256 * FromBigEndian(a[..k - 1]) + a[k - 1] as int < TWO_160
  {
    assert a[..k][..k - 1] == a[..k - 1];
    Pow256Monotone(k, 20);
    Pow256At20();
  }

  lemma ParseStep(s: Bytes, k: nat)
    requires k > 0 && |s| >= 2 + 2 * k
    ensures ParsePairs(s, k)
         == (ParsePairs(s, k - 1) * 256 % TWO_160 + DigitValue(s[2 + 2 * (k - 1)]) * 16 + DigitValue(s[3 + 2 * (k - 1)])) % TWO_160
  {
  }

  lemma AccumulatePair(x: nat, d: nat)
    requires 256 * x + d < TWO_160
    ensures (x * 256 % TWO_160 + d / 16 * 16 + d % 16) % TWO_160 == 256 * x + d
  {
    assert d / 16 * 16 + d % 16 == d;
  }

  lemma {:induction false} ParsePairsOfText(a: Address, k: nat)
    requires k <= 20
    ensures |AddressToString(a)| == 42
    ensures ParsePairs(AddressToString(a), k) == FromBigEndian(a[..k])
  {
    TextPair(a, if k == 0 then 0 else k - 1);
    if k > 0 {
      hide AddressToString, DigitValue, FromBigEndian, ParsePairs, Pow256;
      ParsePairsOfText(a, k - 1);
      ParseStep(AddressToString(a), k);
      FromBigEndianPrefix(a, k);
      AccumulatePair(FromBigEndian(a[..k - 1]), a[k - 1] as int);
    } else {
      assert a[..0] == [];
    }
  }

  lemma Pow256At20()
    ensures Pow256(20) == TWO_160
  {
    assert Pow256(4) == 0x1_0000_0000;
    assert Pow256(8) == 0x1_0000_0000 * 0x1_0000_0000;
    assert Pow256(12) == 0x1_0000_0000 * Pow256(8);
    assert Pow256(16) == 0x1_0000_0000 * Pow256(12);
  }

  /** Parsing the text of an address gives the address back. */
  lemma ParseAddrRoundTrip(a: Address)
    ensures ParseAddr(AddressToString(a)) == Ok(a)
  {
    ParsePairsOfText(a, 20);
    assert a[..20] == a;
    BigEndianRoundTrip(a);
  }

  lemma AddressToStringInjective(a: Address, b: Address)
    requires AddressToString(a) == AddressToString(b)
    ensures a == b
  {
    ParseAddrRoundTrip(a);
    ParseAddrRoundTrip(b);
  }

  /** The denomination of a deposited token is never a voucher's. */
  lemma AddressToStringSlashFree(a: Address)
    ensures SlashFree(AddressToString(a))
  {
    HexTextShape(a);
  }
}
