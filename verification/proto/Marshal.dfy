/**
 The generated marshallers: each fills a buffer backwards from an end index, last field
 first. Writing the fields of a message in this order leaves exactly its encoding.
 */
module Marshalling {
  import opened Prelude
  import opened Wire
  import opened IBCTypes
  import App = AppMessages
  import Chan = ChannelMessages
  import Conn = ConnectionMessages

  // ----- Writing fields backwards -----

  lemma WriteBefore(buffer: Bytes, p: nat, s: Bytes, t: Bytes)
    requires |t| <= p && p + |s| <= |buffer|
    ensures Written(Written(buffer, p, s), p - |t|, t) == Written(buffer, p - |t|, t + s)
  {
  }

  lemma WriteNothing(buffer: Bytes, p: nat)
    requires p <= |buffer|
    ensures Written(buffer, p, []) == buffer
  {
  }

  /** `encodeVarint`. */
  method PutVarint(dAtA: array<byte>, offset: nat, v: uint64) returns (base: nat)
    requires |EncodeVarint(v)| <= offset <= dAtA.Length
    modifies dAtA
    ensures base == offset - |EncodeVarint(v)|
    ensures dAtA[..] == Written(old(dAtA[..]), base, EncodeVarint(v))
  {
    hide Written;
    SovIsLength(v);
    base := offset - Sov(v);
    var at, rest: nat := base, v;
    ghost var was, done: Bytes := dAtA[..], [];
    WriteNothing(was, base);
    while rest >= 128
      invariant done + EncodeVarint(rest) == EncodeVarint(v)
      invariant at == base + |done|
      invariant dAtA[..] == Written(was, base, done)
    {
      VarintParts(rest);
      PutByte(dAtA, at, (rest % 128 + 128) as byte);
      WriteAfter(was, base, done, [(rest % 128 + 128) as byte]);
      done := done + [(rest % 128 + 128) as byte];
      rest := rest / 128;
      at := at + 1;
    }
    PutByte(dAtA, at, rest as byte);
    WriteAfter(was, base, done, [rest as byte]);
    assert EncodeVarint(rest) == [rest as byte];
  }

  lemma VarintParts(v: nat)
    requires v >= 128
    ensures EncodeVarint(v) == [(v % 128 + 128) as byte] + EncodeVarint(v / 128)
  {
  }

  lemma WriteAfter(buffer: Bytes, p: nat, s: Bytes, t: Bytes)
    requires p + |s| + |t| <= |buffer|
    ensures Written(Written(buffer, p, s), p + |s|, t) == Written(buffer, p, s + t)
  {
  }

  method PutByte(dAtA: array<byte>, i: nat, b: byte)
    requires i < dAtA.Length
    modifies dAtA
    ensures dAtA[..] == Written(old(dAtA[..]), i, [b])
  {
    dAtA[i] := b;
  }

  /** `copy(dAtA[i:], s)`. */
  method PutBytes(dAtA: array<byte>, i: nat, s: Bytes)
    requires i + |s| <= dAtA.Length
    modifies dAtA
    ensures dAtA[..] == Written(old(dAtA[..]), i, s)
  {
    forall k | 0 <= k < |s| {
      dAtA[i + k] := s[k];
    }
  }

  /** The buffer `was`, with the encoding of `fields` written from `i` up to `end`. */
  ghost predicate Tail(dAtA: Bytes, was: Bytes, i: nat, end: nat, fields: seq<Field>) {
    && i + |EncodeFields(fields)| == end <= |was|
    && dAtA == Written(was, i, EncodeFields(fields))
  }

  lemma NoTail(was: Bytes, end: nat)
    requires end <= |was|
    ensures Tail(was, was, end, end, [])
  {
    WriteNothing(was, end);
  }

  lemma LongerTail(before: Bytes, after: Bytes, was: Bytes, i: nat, end: nat, fields: seq<Field>, f: Field)
    requires Tail(before, was, i, end, fields) && |EncodeField(f)| <= i
    requires after == Written(before, i - |EncodeField(f)|, EncodeField(f))
    ensures Tail(after, was, i - |EncodeField(f)|, end, [f] + fields)
  {
    hide EncodeField, Written;
    WriteBefore(was, i, EncodeFields(fields), EncodeField(f));
    assert ([f] + fields)[1..] == fields;
  }

  lemma FieldParts(f: Field)
    requires 0 < f.num < 16
    ensures EncodeField(f) == [(8 * f.num + WireType(f)) as byte]
                              + (if f.Varint? then EncodeVarint(f.value) else EncodeVarint(|f.payload|) + f.payload)
  {
    TagBytes(f);
  }

  /** The length and the tag in front of a payload already written at `i`. */
  method PutLength(dAtA: array<byte>, i: nat, num: nat, size: nat, ghost payload: Bytes, ghost before: Bytes) returns (j: nat)
    requires 0 < num < 16 && size == |payload| && dAtA.Length < TWO_63
    requires |before| == dAtA.Length && i + |payload| <= |before| && dAtA[..] == Written(before, i, payload)
    requires |EncodeField(Delimited(num, payload))| <= i + |payload|
    modifies dAtA
    ensures j == i + |payload| - |EncodeField(Delimited(num, payload))|
    ensures dAtA[..] == Written(before, j, EncodeField(Delimited(num, payload)))
  {
    hide Written, EncodeVarint, EncodeField;
    FieldParts(Delimited(num, payload));
    var tag := [(8 * num + 2) as byte];
    j := PutVarint(dAtA, i, size);
    WriteBefore(before, i, payload, EncodeVarint(|payload|));
    PutByte(dAtA, j - 1, tag[0]);
    WriteBefore(before, j, EncodeVarint(|payload|) + payload, tag);
    j := j - 1;
  }

  /** A field of bytes that may be empty but is written. */
  method PutDelimited(dAtA: array<byte>, i: nat, num: nat, payload: Bytes, ghost was: Bytes, ghost end: nat,
                      ghost fields: seq<Field>) returns (j: nat)
    requires 0 < num < 16 && dAtA.Length < TWO_63
    requires |was| == dAtA.Length && Tail(dAtA[..], was, i, end, fields) && |EncodeField(Delimited(num, payload))| <= i
    modifies dAtA
    ensures j == i - |EncodeField(Delimited(num, payload))|
    ensures Tail(dAtA[..], was, j, end, [Delimited(num, payload)] + fields)
  {
    hide Written, EncodeVarint, EncodeField;
    ghost var before := dAtA[..];
    FieldParts(Delimited(num, payload));
    PutBytes(dAtA, i - |payload|, payload);
    j := PutLength(dAtA, i - |payload|, num, |payload|, payload, before);
    LongerTail(before, dAtA[..], was, i, end, fields, Delimited(num, payload));
  }

  /** A string or byte field, left out when empty. */
  method PutBytesField(dAtA: array<byte>, i: nat, num: nat, payload: Bytes, ghost was: Bytes, ghost end: nat,
                       ghost fields: seq<Field>) returns (j: nat)
    requires 0 < num < 16 && dAtA.Length < TWO_63
    requires |was| == dAtA.Length && Tail(dAtA[..], was, i, end, fields)
    requires |EncodeFields(BytesField(num, payload) + fields)| <= end
    modifies dAtA
    ensures Tail(dAtA[..], was, j, end, BytesField(num, payload) + fields)
  {
    hide Written, EncodeVarint, EncodeField;
    j := i;
    if |payload| > 0 {
      OneMore(Delimited(num, payload), fields);
      j := PutDelimited(dAtA, i, num, payload, was, end, fields);
    } else {
      assert BytesField(num, payload) + fields == fields;
    }
  }

  lemma OneMore(f: Field, fields: seq<Field>)
    ensures |EncodeFields([f] + fields)| == |EncodeField(f)| + |EncodeFields(fields)|
  {
    assert ([f] + fields)[1..] == fields;
  }

  /** A number, left out when zero. */
  method PutVarintField(dAtA: array<byte>, i: nat, num: nat, v: uint64, ghost was: Bytes, ghost end: nat,
                        ghost fields: seq<Field>) returns (j: nat)
    requires 0 < num < 16
    requires |was| == dAtA.Length && Tail(dAtA[..], was, i, end, fields)
    requires |EncodeFields(VarintField(num, v) + fields)| <= end
    modifies dAtA
    ensures Tail(dAtA[..], was, j, end, VarintField(num, v) + fields)
  {
    hide Written, EncodeVarint, EncodeField;
    j := i;
    if v != 0 {
      OneMore(Varint(num, v), fields);
      ghost var before := dAtA[..];
      FieldParts(Varint(num, v));
      var tag := [(8 * num) as byte];
      j := PutVarint(dAtA, i, v);
      PutByte(dAtA, j - 1, tag[0]);
      WriteBefore(before, j, EncodeVarint(v), tag);
      j := j - 1;
      LongerTail(before, dAtA[..], was, i, end, fields, Varint(num, v));
    } else {
      assert VarintField(num, v) + fields == fields;
    }
  }

  /** An embedded message whose bytes were just written in front of `i`. */
  method PutEmbedded(dAtA: array<byte>, i: nat, num: nat, size: nat, ghost payload: Bytes, ghost before: Bytes,
                     ghost was: Bytes, ghost end: nat, ghost fields: seq<Field>) returns (j: nat)
    requires 0 < num < 16 && size == |payload| && dAtA.Length < TWO_63
    requires |was| == |before| == dAtA.Length && Tail(before, was, i, end, fields)
    requires |EncodeField(Delimited(num, payload))| <= i && |payload| <= i
    requires dAtA[..] == Written(before, i - |payload|, payload)
    modifies dAtA
    ensures j == i - |EncodeField(Delimited(num, payload))|
    ensures Tail(dAtA[..], was, j, end, [Delimited(num, payload)] + fields)
  {
    hide Written, EncodeVarint, EncodeField;
    j := PutLength(dAtA, i - size, num, size, payload, before);
    LongerTail(before, dAtA[..], was, i, end, fields, Delimited(num, payload));
  }

  /** The loop over a repeated string, last element first. */
  method PutRepeated(dAtA: array<byte>, i: nat, num: nat, ss: seq<Bytes>, ghost was: Bytes, ghost end: nat,
                     ghost fields: seq<Field>) returns (j: nat)
    requires 0 < num < 16 && dAtA.Length < TWO_63
    requires |was| == dAtA.Length && Tail(dAtA[..], was, i, end, fields)
    requires |EncodeFields(RepeatedField(num, ss) + fields)| <= end
    modifies dAtA
    ensures Tail(dAtA[..], was, j, end, RepeatedField(num, ss) + fields)
  {
    hide Written, EncodeVarint, EncodeField, EncodeFields;
    j := i;
    var k := |ss|;
    assert RepeatedField(num, ss[k..]) + fields == fields;
    while k > 0
      invariant 0 <= k <= |ss|
      invariant Tail(dAtA[..], was, j, end, RepeatedField(num, ss[k..]) + fields)
    {
      k := k - 1;
      ghost var rest := RepeatedField(num, ss[k + 1..]) + fields;
      RepeatedRest(num, ss, k, fields);
      OneMore(Delimited(num, ss[k]), rest);
      j := PutDelimited(dAtA, j, num, ss[k], was, end, rest);
    }
    assert ss[0..] == ss;
  }

  /** The rest of a repeated field takes no more room than all of it. */
  lemma RepeatedRest(num: nat, ss: seq<Bytes>, k: nat, fields: seq<Field>)
    requires k < |ss|
    ensures RepeatedField(num, ss[k..]) + fields == [Delimited(num, ss[k])] + (RepeatedField(num, ss[k + 1..]) + fields)
    ensures |EncodeFields(RepeatedField(num, ss[k..]) + fields)| <= |EncodeFields(RepeatedField(num, ss) + fields)|
  {
    hide EncodeField, EncodeFields;
    assert ss[k..][1..] == ss[k + 1..];
    SuffixShorter(num, ss, k, fields);
  }

  lemma {:induction false} SuffixShorter(num: nat, ss: seq<Bytes>, k: nat, fields: seq<Field>)
    requires k <= |ss|
    ensures |EncodeFields(RepeatedField(num, ss[k..]) + fields)| <= |EncodeFields(RepeatedField(num, ss) + fields)|
  {
    hide EncodeField;
    if k == 0 {
      assert ss[0..] == ss;
    } else {
      SuffixShorter(num, ss[1..], k - 1, fields);
      assert ss[1..][k - 1..] == ss[k..];
      assert RepeatedField(num, ss) + fields == [Delimited(num, ss[0])] + (RepeatedField(num, ss[1..]) + fields);
      OneMore(Delimited(num, ss[0]), RepeatedField(num, ss[1..]) + fields);
    }
  }
}
