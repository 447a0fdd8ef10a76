/** Bytes, machine words and the outcome of a transaction. */
module Prelude {
  newtype byte = x: int | 0 <= x < 256

  type Bytes = seq<byte>

  const TWO_64: int := 0x1_0000_0000_0000_0000
  const TWO_256: int := TWO_64 * TWO_64 * TWO_64 * TWO_64

  type uint64 = x: int | 0 <= x < TWO_64

  /** A literal text as bytes. */
  function Ascii(text: string): (s: Bytes)
    requires forall c | c in text :: c < 128 as char
    ensures |s| == |text| && forall i | 0 <= i < |s| :: s[i] as int == text[i] as int
  {
    seq(|text|, i requires 0 <= i < |text| && text[i] in text => text[i] as int as byte)
  }

  /** The unchecked `++` of a `uint64`. */
  function Inc64(x: uint64): uint64 {
    (x + 1) % TWO_64
  }

  /** The unchecked `+` of a `uint256`. */
  function Add256(x: nat, y: nat): nat {
    (x + y) % TWO_256
  }

  /** A 20-byte account address; the packed form of an address is the address itself. */
  type Address = b: Bytes | |b| == 20 witness seq(20, _ => 0 as byte)

  const ZERO_ADDRESS: Address := [0, 0, 0, 0, 0, 0, 0, 0, 0, 0, 0, 0, 0, 0, 0, 0, 0, 0, 0, 0]

  datatype Option<+T> = None | Some(value: T)

  /** What a call gives back: a value, or a revert that undoes the whole transaction. */
  datatype Result<+T> = Ok(value: T) | Revert {
    predicate IsFailure() {
      Revert?
    }

    function PropagateFailure<U>(): Result<U>
      requires Revert?
    {
      Revert
    }

    function Extract(): T
      requires Ok?
    {
      value
    }
  }

  /** `require(condition)`. */
  function Require(condition: bool): Result<()> {
    if condition then Ok(()) else Revert
  }

  /** `s` stands in `b` at index `i`. */
  ghost predicate StandsAt(b: Bytes, i: nat, s: Bytes) {
    i + |s| <= |b| && b[i..i + |s|] == s
  }

  lemma StandsAtSplit(b: Bytes, i: nat, s: Bytes, t: Bytes)
    requires StandsAt(b, i, s + t)
    ensures StandsAt(b, i, s) && StandsAt(b, i + |s|, t)
  {
    var w := b[i..i + |s + t|];
    assert w[..|s|] == s && w[|s|..] == t;
    assert b[i..i + |s|] == w[..|s|] && b[i + |s|..i + |s| + |t|] == w[|s|..];
  }

  /** A buffer with `s` written at index `p`. */
  function Written(buffer: Bytes, p: nat, s: Bytes): (after: Bytes)
    requires p + |s| <= |buffer|
    ensures |after| == |buffer|
  {
    buffer[..p] + s + buffer[p + |s|..]
  }
}
