/**
 The protobuf wire format as the generated Go code reads and writes it: what the bytes
 of a message are, and what a parser makes of arbitrary bytes.
 */
module Wire {
  import opened Prelude

  const TWO_63: int := 0x8000_0000_0000_0000
  const TWO_32: int := 0x1_0000_0000
  const TWO_31: int := 0x8000_0000

  /** `x << k` on unbounded integers. */
  function ShiftLeft(x: nat, k: nat): nat {
    if k == 0 then x else 2 * ShiftLeft(x, k - 1)
  }

  lemma {:induction false} ShiftLeftAdd(x: nat, y: nat, k: nat)
    ensures ShiftLeft(x + y, k) == ShiftLeft(x, k) + ShiftLeft(y, k)
  {
    if k > 0 {
      ShiftLeftAdd(x, y, k - 1);
    }
  }

  lemma {:induction false} ShiftLeftSum(x: nat, j: nat, k: nat)
    ensures ShiftLeft(x, j + k) == ShiftLeft(ShiftLeft(x, j), k)
  {
    if k > 0 {
      ShiftLeftSum(x, j, k - 1);
    }
  }

  lemma {:induction false} ShiftLeftMonotone(x: nat, y: nat, k: nat)
    requires x <= y
    ensures ShiftLeft(x, k) <= ShiftLeft(y, k)
  {
    if k > 0 {
      ShiftLeftMonotone(x, y, k - 1);
    }
  }

  lemma ShiftLeft7(x: nat)
    ensures ShiftLeft(x, 7) == 128 * x
  {
    assert ShiftLeft(x, 1) == 2 * x;
    assert ShiftLeft(x, 3) == 8 * x;
    assert ShiftLeft(x, 5) == 32 * x;
  }

  lemma ShiftLeft32(x: nat)
    ensures ShiftLeft(x, 32) == TWO_32 * x
  {
    ShiftLeft7(x);
    ShiftLeftSum(x, 7, 7);
    ShiftLeft7(128 * x);
    ShiftLeftSum(x, 14, 7);
    ShiftLeft7(0x4000 * x);
    ShiftLeftSum(x, 21, 7);
    ShiftLeft7(0x20_0000 * x);
    assert ShiftLeft(x, 30) == 4 * ShiftLeft(x, 28);
    assert ShiftLeft(x, 32) == 4 * ShiftLeft(x, 30);
  }

  lemma {:induction false} ShiftLeftGrows(x: nat, k: nat)
    ensures ShiftLeft(x, k) >= x
  {
    if k > 0 {
      ShiftLeftGrows(x, k - 1);
    }
  }

  lemma ShiftLeft64(k: nat)
    requires k >= 64
    ensures ShiftLeft(1, k) >= TWO_64
  {
    ShiftLeft32(1);
    ShiftLeft32(TWO_32);
    ShiftLeftSum(1, 32, 32);
    ShiftLeftSum(1, 64, k - 64);
    ShiftLeftGrows(ShiftLeft(1, 64), k - 64);
  }

  // ----- Varints -----

  function EncodeVarint(v: nat): (s: Bytes)
    ensures |s| > 0
  {
    if v < 128 then [v as byte] else [(v % 128 + 128) as byte] + EncodeVarint(v / 128)
  }

  /** The value of groups of seven bits, the lowest first, whatever their top bits. */
  function GroupsValue(b: Bytes): nat {
    if b == [] then 0 else b[0] as int % 128 + 128 * GroupsValue(b[1..])
  }

  /** A varint is its number in groups of seven bits; all bytes but the last, which is 0 only for 0, have the top bit. */
  lemma {:induction false} VarintGroups(v: nat)
    ensures var b := EncodeVarint(v);
            && GroupsValue(b) == v
            && (forall k | 0 <= k < |b| - 1 :: b[k] >= 128)
            && b[|b| - 1] < 128 && (b[|b| - 1] == 0 ==> v == 0)
  {
    var b := EncodeVarint(v);
    if v < 128 {
      assert b[1..] == [];
    } else {
      VarintGroups(v / 128);
      assert b[1..] == EncodeVarint(v / 128);
    }
  }

  /** The number of bits of `x`, `math/bits.Len64`. */
  function BitLength(x: nat): nat {
    if x == 0 then 0 else 1 + BitLength(x / 2)
  }

  /** The size of a varint as the generated code computes it: `(Len64(x|1) + 6) / 7`. */
  function Sov(x: nat): nat {
    (BitLength(if x % 2 == 0 then x + 1 else x) + 6) / 7
  }

  lemma VarintAtMost10(v: uint64)
    ensures |EncodeVarint(v)| <= 10
  {
    hide EncodeVarint;
    var v1 := v / 128;   VarintLonger(v);
    var v2 := v1 / 128;  VarintLonger(v1);
    var v3 := v2 / 128;  VarintLonger(v2);
    var v4 := v3 / 128;  VarintLonger(v3);
    var v5 := v4 / 128;  VarintLonger(v4);
    var v6 := v5 / 128;  VarintLonger(v5);
    var v7 := v6 / 128;  VarintLonger(v6);
    var v8 := v7 / 128;  VarintLonger(v7);
    var v9 := v8 / 128;  VarintLonger(v8);
    VarintLonger(v9);
  }

  lemma VarintLonger(v: nat)
    ensures |EncodeVarint(v)| == if v < 128 then 1 else 1 + |EncodeVarint(v / 128)|
  {
  }

  lemma BitLengthLowBit(x: nat)
    requires x > 0
    ensures BitLength(if x % 2 == 0 then x + 1 else x) == BitLength(x)
  {
  }

  lemma BitLengthHalf(x: nat)
    requires x > 0
    ensures BitLength(x) == 1 + BitLength(x / 2)
  {
  }

  lemma BitLengthStep7(x: nat)
    requires x >= 128
    ensures BitLength(x) == 7 + BitLength(x / 128)
  {
    hide BitLength;
    var x3, x6 := x / 8, x / 64;
    BitLengthHalf(x); BitLengthHalf(x / 2); BitLengthHalf(x / 4);
    assert x / 2 / 2 == x / 4 && x / 4 / 2 == x3;
    BitLengthHalf(x3); BitLengthHalf(x3 / 2); BitLengthHalf(x3 / 4);
    assert x3 / 2 / 2 == x3 / 4 && x3 / 4 / 2 == x6;
    BitLengthHalf(x6);
    assert x6 / 2 == x / 128;
  }

  lemma {:induction false} BitLengthMonotone(x: nat, y: nat)
    requires x <= y
    ensures BitLength(x) <= BitLength(y)
  {
    if x > 0 {
      BitLengthMonotone(x / 2, y / 2);
    }
  }

  lemma BitLengthSmall(x: nat)
    requires 0 < x < 128
    ensures 1 <= BitLength(x) <= 7
  {
    BitLengthMonotone(1, x);
    BitLengthMonotone(x, 127);
  }

  /** The closed formula counts exactly the bytes the loop writes. */
  lemma {:induction false} SovIsLength(v: nat)
    ensures Sov(v) == |EncodeVarint(v)|
  {
    if v < 128 {
      BitLengthSmall(if v % 2 == 0 then v + 1 else v);
    } else {
      SovIsLength(v / 128);
      BitLengthLowBit(v);
      BitLengthLowBit(v / 128);
      BitLengthStep7(v);
    }
  }

  /**
   The varint loop of `Unmarshal` from byte `i` on, `acc` holding the bits below `shift`:
   the value and the index after it, or an error on overflow or on running out of bytes.
   */
  function ReadVarint(b: Bytes, i: nat, shift: nat := 0, acc: nat := 0): (r: Result<(nat, nat)>)
    ensures r.Ok? ==> i < r.value.1 <= |b|
    decreases |b| - i
  {
    if shift >= 64 || i >= |b| then Revert
    else
      var next := acc + ShiftLeft(b[i] as int % 128, shift) % TWO_64;
      if b[i] < 128 then Ok((next, i + 1)) else ReadVarint(b, i + 1, shift + 7, next)
  }

  /** The first byte of a varint, and what stands after it. */
  lemma VarintHead(b: Bytes, i: nat, v: nat)
    requires StandsAt(b, i, EncodeVarint(v))
    ensures i < |b|
    ensures v < 128 ==> b[i] as int == v
    ensures v >= 128 ==> b[i] as int == v % 128 + 128 && StandsAt(b, i + 1, EncodeVarint(v / 128))
    ensures b[i] as int % 128 == v % 128
  {
    assert b[i] == b[i..i + |EncodeVarint(v)|][0];
    if v >= 128 {
      StandsAtSplit(b, i, [(v % 128 + 128) as byte], EncodeVarint(v / 128));
    }
  }

  /** One digit of a varint fits below 2^64 when the whole value does. */
  lemma VarintDigit(v: nat, shift: nat, acc: nat)
    requires v > 0 || shift == 0
    requires acc < ShiftLeft(1, shift)
    requires acc + ShiftLeft(v, shift) < TWO_64
    ensures shift < 64
    ensures ShiftLeft(v % 128, shift) % TWO_64 == ShiftLeft(v % 128, shift)
    ensures ShiftLeft(v, shift) == ShiftLeft(v % 128, shift) + ShiftLeft(v / 128, shift + 7)
    ensures acc + ShiftLeft(v % 128, shift) < ShiftLeft(1, shift + 7)
  {
    if shift >= 64 {
      ShiftLeft64(shift);
      ShiftLeftMonotone(1, v, shift);
    }
    ShiftLeftAdd(v % 128, 128 * (v / 128), shift);
    ShiftLeft7(v / 128);
    ShiftLeftSum(v / 128, 7, shift);
    ShiftLeftMonotone(v % 128, 127, shift);
    ShiftLeftAdd(127, 1, shift);
    ShiftLeft7(1);
    ShiftLeftSum(1, 7, shift);
  }

  lemma ReadVarintStep(b: Bytes, i: nat, shift: nat, acc: nat)
    requires shift < 64 && i < |b|
    ensures var next := acc + ShiftLeft(b[i] as int % 128, shift) % TWO_64;
            ReadVarint(b, i, shift, acc)
            == if b[i] < 128 then Ok((next, i + 1)) else ReadVarint(b, i + 1, shift + 7, next)
  {
    hide ShiftLeft;
  }

  lemma {:induction false} ReadVarintAt(b: Bytes, i: nat, shift: nat, acc: nat, v: nat)
    requires StandsAt(b, i, EncodeVarint(v))
    requires v > 0 || shift == 0
    requires acc < ShiftLeft(1, shift)
    requires acc + ShiftLeft(v, shift) < TWO_64
    ensures ReadVarint(b, i, shift, acc) == Ok((acc + ShiftLeft(v, shift), i + |EncodeVarint(v)|))
    decreases v
  {
    VarintHead(b, i, v);
    VarintDigit(v, shift, acc);
    ShiftLeftAdd(0, 0, shift + 7);
    ReadVarintStep(b, i, shift, acc);
    VarintLonger(v);
    hide ShiftLeft, EncodeVarint, ReadVarint;
    if v >= 128 {
      ReadVarintAt(b, i + 1, shift + 7, acc + ShiftLeft(v % 128, shift), v / 128);
    }
  }

  /** Reading a varint anywhere in a buffer undoes writing it. */
  lemma VarintRoundTrip(b: Bytes, i: nat, v: uint64)
    requires StandsAt(b, i, EncodeVarint(v))
    ensures ReadVarint(b, i) == Ok((v, i + |EncodeVarint(v)|))
  {
    ReadVarintAt(b, i, 0, 0, v);
  }

  // ----- Fields and messages -----

  datatype Field =
    | Varint(num: nat, value: uint64)
    | Delimited(num: nat, payload: Bytes)

  function WireType(f: Field): nat {
    if f.Varint? then 0 else 2
  }

  function EncodeField(f: Field): Bytes {
    EncodeVarint(8 * f.num + WireType(f)) +
    match f
    case Varint(_, value) => EncodeVarint(value)
    case Delimited(_, payload) => EncodeVarint(|payload|) + payload
  }

  function EncodeFields(fs: seq<Field>): Bytes {
    if fs == [] then [] else EncodeField(fs[0]) + EncodeFields(fs[1..])
  }

  lemma ConcatAssociates(a: Bytes, b: Bytes, c: Bytes)
    ensures (a + b) + c == a + (b + c)
  {
  }

  lemma {:induction false} EncodeFieldsConcat(fs: seq<Field>, gs: seq<Field>)
    ensures EncodeFields(fs + gs) == EncodeFields(fs) + EncodeFields(gs)
  {
    hide EncodeField;
    if fs == [] {
      assert fs + gs == gs;
    } else {
      EncodeFieldsConcat(fs[1..], gs);
      assert (fs + gs)[1..] == fs[1..] + gs;
      ConcatAssociates(EncodeField(fs[0]), EncodeFields(fs[1..]), EncodeFields(gs));
    }
  }

  /** What a message type makes of its fields: the wire type of each number, and the assignment. */
  datatype Schema<!M> = Schema(wireTypes: map<int, nat>, apply: (M, Field) -> Result<M>)

  /** `int32(wire >> 3)`. */
  function FieldNum(wire: nat): int {
    LowBits(wire / 8)
  }

  /** The length check shared by strings, byte fields and embedded messages. */
  function ReadLength(b: Bytes, i: nat): (r: Result<(nat, nat)>)
    ensures r.Ok? ==> i < r.value.0 <= r.value.1 <= |b|
  {
    var (len, k) :- ReadVarint(b, i);
    if len < TWO_63 && k + len < TWO_63 && k + len <= |b| then Ok((k, k + len)) else Revert
  }

  /** The end of the varint that the skipper steps over without reading its value. */
  function SkipVarint(b: Bytes, i: nat, shift: nat := 0): (r: Result<nat>)
    ensures r.Ok? ==> i < r.value <= |b|
    decreases |b| - i
  {
    if shift >= 64 || i >= |b| then Revert
    else if b[i] < 128 then Ok(i + 1)
    else SkipVarint(b, i + 1, shift + 7)
  }

  /** One round of the skipper: the index and group depth after the field at `i`. */
  function SkipOne(b: Bytes, i: nat, depth: nat): (r: Result<(nat, nat)>)
    ensures r.Ok? ==> i < r.value.0
  {
    var (wire, j) :- ReadVarint(b, i);
    var wireType := wire % 8;
    if wireType == 0 then
      var k :- SkipVarint(b, j);
      Ok((k, depth))
    else if wireType == 1 then Ok((j + 8, depth))
    else if wireType == 2 then
      var (len, k) :- ReadVarint(b, j);
      if len < TWO_63 && k + len < TWO_63 then Ok((k + len, depth)) else Revert
    else if wireType == 3 then Ok((j, depth + 1))
    else if wireType == 4 then if depth == 0 then Revert else Ok((j, depth - 1))
    else if wireType == 5 then Ok((j + 4, depth))
    else Revert
  }

  /** Where an unknown field, with every group inside it, ends. */
  function Skip(b: Bytes, i: nat, depth: nat := 0): (r: Result<nat>)
    ensures r.Ok? ==> i < r.value
    decreases |b| - i
  {
    if i >= |b| then Revert
    else
      var (j, d) :- SkipOne(b, i, depth);
      if d == 0 then Ok(j) else Skip(b, j, d)
  }

  /** One round of an `Unmarshal` loop: the message and the index after the field at `i`. */
  function MergeOne<M>(s: Schema<M>, b: Bytes, i: nat, m: M): (r: Result<(M, nat)>)
    requires i < |b|
    ensures r.Ok? ==> i < r.value.1 <= |b|
  {
    var (wire, j) :- ReadVarint(b, i);
    var num, wireType := FieldNum(wire), wire % 8;
    if wireType == 4 || num <= 0 then Revert
    else if num !in s.wireTypes then
      var n :- Skip(b[i..], 0);
      if i + n < TWO_63 && i + n <= |b| then Ok((m, i + n)) else Revert
    else if wireType != s.wireTypes[num] then Revert
    else if wireType == 0 then
      var (v, k) :- ReadVarint(b, j);
      var next :- s.apply(m, Varint(num, v % TWO_64));
      Ok((next, k))
    else
      var (from, to) :- ReadLength(b, j);
      var next :- s.apply(m, Delimited(num, b[from..to]));
      Ok((next, to))
  }

  /** The whole `Unmarshal` loop: merges the fields of `b` from `i` on into `m`. */
  function Merge<M>(s: Schema<M>, b: Bytes, i: nat, m: M): Result<M>
    decreases |b| - i
  {
    if i >= |b| then Ok(m)
    else
      var (next, j) :- MergeOne(s, b, i, m);
      Merge(s, b, j, next)
  }

  /** Assigning a list of fields one after another. */
  function Fold<M>(s: Schema<M>, fs: seq<Field>, m: M): Result<M> {
    if fs == [] then Ok(m)
    else
      var next :- s.apply(m, fs[0]);
      Fold(s, fs[1..], next)
  }

  /** The fields a schema knows, with the wire types it expects. */
  ghost predicate Fits<M>(s: Schema<M>, f: Field) {
    && 0 < f.num < 16
    && f.num in s.wireTypes
    && s.wireTypes[f.num] == WireType(f)
  }

  /** A field number below 16 makes a one-byte tag. */
  lemma TagBytes(f: Field)
    requires 0 < f.num < 16
    ensures EncodeVarint(8 * f.num + WireType(f)) == [(8 * f.num + WireType(f)) as byte]
  {
  }

  /** Reading back the tag of a field. */
  lemma TagRoundTrip(b: Bytes, i: nat, f: Field)
    requires 0 < f.num < 16
    requires StandsAt(b, i, EncodeField(f))
    ensures ReadVarint(b, i) == Ok((8 * f.num + WireType(f), i + 1))
    ensures |EncodeField(f)| > 0 && StandsAt(b, i + 1, EncodeField(f)[1..])
  {
    hide ReadVarint, StandsAt, EncodeVarint;
    var tag := 8 * f.num + WireType(f);
    TagBytes(f);
    assert EncodeField(f) == [tag as byte] + EncodeField(f)[1..];
    StandsAtSplit(b, i, [tag as byte], EncodeField(f)[1..]);
    VarintRoundTrip(b, i, tag);
  }

  lemma TagParts(num: nat, wireType: nat)
    requires 0 < num < 16 && wireType < 8
    ensures FieldNum(8 * num + wireType) == num && (8 * num + wireType) % 8 == wireType
  {
  }

  lemma MergeOneVarint<M>(s: Schema<M>, b: Bytes, i: nat, m: M, num: nat, value: uint64)
    requires Fits(s, Varint(num, value))
    requires StandsAt(b, i, EncodeField(Varint(num, value)))
    requires s.apply(m, Varint(num, value)).Ok?
    ensures i < |b|
    ensures MergeOne(s, b, i, m)
         == Ok((s.apply(m, Varint(num, value)).value, i + |EncodeField(Varint(num, value))|))
  {
    hide EncodeVarint, Skip, ReadVarint, FieldNum;
    var f := Varint(num, value);
    TagParts(num, 0);
    TagRoundTrip(b, i, f);
    assert EncodeField(f)[1..] == EncodeVarint(value) by { TagBytes(f); }
    VarintRoundTrip(b, i + 1, value);
  }

  lemma MergeOneDelimited<M>(s: Schema<M>, b: Bytes, i: nat, m: M, num: nat, payload: Bytes)
    requires |b| < TWO_63
    requires Fits(s, Delimited(num, payload))
    requires StandsAt(b, i, EncodeField(Delimited(num, payload)))
    requires s.apply(m, Delimited(num, payload)).Ok?
    ensures i < |b|
    ensures MergeOne(s, b, i, m)
         == Ok((s.apply(m, Delimited(num, payload)).value, i + |EncodeField(Delimited(num, payload))|))
  {
    hide EncodeVarint, Skip, ReadVarint, FieldNum;
    var f := Delimited(num, payload);
    var length := EncodeVarint(|payload|);
    TagParts(num, 2);
    TagRoundTrip(b, i, f);
    assert EncodeField(f)[1..] == length + payload by { TagBytes(f); }
    StandsAtSplit(b, i + 1, length, payload);
    VarintRoundTrip(b, i + 1, |payload|);
    var from, to := i + 1 + |length|, i + 1 + |length| + |payload|;
    assert ReadLength(b, i + 1) == Ok((from, to));
    assert b[from..to] == payload;
  }

  lemma MergeOneField<M>(s: Schema<M>, b: Bytes, i: nat, m: M, f: Field)
    requires |b| < TWO_63
    requires Fits(s, f)
    requires StandsAt(b, i, EncodeField(f))
    requires s.apply(m, f).Ok?
    ensures i < |b|
    ensures MergeOne(s, b, i, m) == Ok((s.apply(m, f).value, i + |EncodeField(f)|))
  {
    match f {
      case Varint(num, value) => MergeOneVarint(s, b, i, m, num, value);
      case Delimited(num, payload) => MergeOneDelimited(s, b, i, m, num, payload);
    }
  }

  /** Parsing the encoding of a list of fields is assigning them in order. */
  lemma {:induction false} MergeFields<M>(s: Schema<M>, b: Bytes, i: nat, m: M, fs: seq<Field>)
    requires |b| < TWO_63
    requires forall f | f in fs :: Fits(s, f)
    requires i <= |b| && b[i..] == EncodeFields(fs)
    requires Fold(s, fs, m).Ok?
    ensures Merge(s, b, i, m) == Fold(s, fs, m)
    decreases |fs|
  {
    hide EncodeField, MergeOne;
    if fs != [] {
      var head := EncodeField(fs[0]);
      assert |b[i..]| == |b| - i;
      assert b[i..][..|head|] == head && b[i..i + |head|] == b[i..][..|head|];
      MergeOneField(s, b, i, m, fs[0]);
      assert b[i + |head|..] == b[i..][|head|..] == EncodeFields(fs[1..]);
      MergeFields(s, b, i + |head|, s.apply(m, fs[0]).value, fs[1..]);
    }
  }

  /** What a field has after parsing into a message that may have had a value. */
  function Or(read: Bytes, had: Bytes): Bytes {
    if read == [] then had else read
  }

  function OrNumber(read: int, had: int): int {
    if read == 0 then had else read
  }

  /** A string or byte field is written only when it is not empty. */
  function BytesField(num: nat, s: Bytes): (fs: seq<Field>)
    ensures forall f | f in fs :: f == Delimited(num, s)
  {
    if s == [] then [] else [Delimited(num, s)]
  }

  /** A number is written only when it is not zero. */
  function VarintField(num: nat, v: uint64): (fs: seq<Field>)
    ensures forall f | f in fs :: f == Varint(num, v)
  {
    if v == 0 then [] else [Varint(num, v)]
  }

  /** A repeated string field writes every element, empty ones too. */
  function RepeatedField(num: nat, ss: seq<Bytes>): (fs: seq<Field>)
    ensures |fs| == |ss|
    ensures forall f | f in fs :: f.Delimited? && f.num == num
  {
    if ss == [] then [] else [Delimited(num, ss[0])] + RepeatedField(num, ss[1..])
  }

  lemma BytesFieldSize(num: nat, payload: Bytes)
    requires 0 < num < 16 && |payload| < TWO_64
    ensures |EncodeFields(BytesField(num, payload))| <= 11 + |payload|
  {
    if payload != [] {
      var f := Delimited(num, payload);
      assert BytesField(num, payload) == [f] && [f][1..] == [];
      assert EncodeFields([f]) == EncodeField(f) + EncodeFields([]);
      TagBytes(f);
      VarintAtMost10(|payload|);
    }
  }

  lemma VarintFieldSize(num: nat, v: uint64)
    requires 0 < num < 16
    ensures |EncodeFields(VarintField(num, v))| <= 11
  {
    if v != 0 {
      var f := Varint(num, v);
      assert VarintField(num, v) == [f] && [f][1..] == [];
      assert EncodeFields([f]) == EncodeField(f) + EncodeFields([]);
      TagBytes(f);
      VarintAtMost10(v);
    }
  }

  lemma FoldNone<M>(s: Schema<M>, m: M)
    ensures Fold(s, [], m) == Ok(m)
  {
  }

  lemma FoldBytesField<M>(s: Schema<M>, num: nat, payload: Bytes, rest: seq<Field>, m: M)
    ensures Fold(s, BytesField(num, payload) + rest, m)
         == if payload == [] then Fold(s, rest, m)
            else
              var next :- s.apply(m, Delimited(num, payload));
              Fold(s, rest, next)
  {
    var fs := BytesField(num, payload) + rest;
    if payload == [] {
      assert fs == rest;
    } else {
      assert fs[0] == Delimited(num, payload) && fs[1..] == rest;
    }
  }

  lemma FoldVarintField<M>(s: Schema<M>, num: nat, v: uint64, rest: seq<Field>, m: M)
    ensures Fold(s, VarintField(num, v) + rest, m)
         == if v == 0 then Fold(s, rest, m)
            else
              var next :- s.apply(m, Varint(num, v));
              Fold(s, rest, next)
  {
    var fs := VarintField(num, v) + rest;
    if v == 0 {
      assert fs == rest;
    } else {
      assert fs[0] == Varint(num, v) && fs[1..] == rest;
    }
  }

  /** Embedded messages are written whether or not they are empty. */
  lemma FoldDelimited<M>(s: Schema<M>, num: nat, payload: Bytes, rest: seq<Field>, m: M)
    ensures Fold(s, [Delimited(num, payload)] + rest, m)
         == var next :- s.apply(m, Delimited(num, payload));
            Fold(s, rest, next)
  {
    var fs := [Delimited(num, payload)] + rest;
    assert fs[0] == Delimited(num, payload) && fs[1..] == rest;
  }

  lemma FoldRepeatedField<M>(s: Schema<M>, num: nat, ss: seq<Bytes>, rest: seq<Field>, m: M)
    requires ss != []
    ensures Fold(s, RepeatedField(num, ss) + rest, m)
         == var next :- s.apply(m, Delimited(num, ss[0]));
            Fold(s, RepeatedField(num, ss[1..]) + rest, next)
  {
    var fs, first, tail := RepeatedField(num, ss) + rest, Delimited(num, ss[0]), RepeatedField(num, ss[1..]) + rest;
    assert fs == [first] + tail;
    assert fs[0] == first && fs[1..] == tail;
  }

  // ----- 32-bit enumerations -----

  type int32 = x: int | -TWO_31 <= x < TWO_31

  /** `uint64(x)` of a signed number. */
  function SignExtend(x: int32): uint64 {
    if x >= 0 then x else x + TWO_64
  }

  /** The low 32 bits of a number, as a signed one. */
  function LowBits(v: nat): int32 {
    var n := v % TWO_32;
    if n < TWO_31 then n else n - TWO_32
  }

  lemma LowBitsOfSignExtend(x: int32)
    ensures LowBits(SignExtend(x)) == x
    ensures SignExtend(x) == 0 <==> x == 0
  {
  }
}
