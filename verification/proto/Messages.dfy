/**
 The generated methods of each message: `Size`, `MarshalToSizedBuffer` and `Marshal`. Every
 marshaller writes exactly the encoding of its message, and `Size` tells its length.
 */
module MessageMarshalling {
  import opened Prelude
  import opened Wire
  import opened IBCTypes
  import opened Marshalling
  import App = AppMessages
  import Chan = ChannelMessages
  import Conn = ConnectionMessages

  // ----- Sizes -----

  /** `1 + l + sov(l)`. */
  function DelimitedSize(l: nat): nat {
    1 + l + Sov(l)
  }

  function BytesSize(l: nat): nat {
    if l > 0 then DelimitedSize(l) else 0
  }

  function VarintSize(v: uint64): nat {
    if v != 0 then 1 + Sov(v) else 0
  }

  function RepeatedSize(ss: seq<Bytes>): nat {
    if ss == [] then 0 else DelimitedSize(|ss[0]|) + RepeatedSize(ss[1..])
  }

  function VersionsSize(versions: seq<Version>): nat {
    if versions == [] then 0 else DelimitedSize(VersionSize(versions[0])) + VersionsSize(versions[1..])
  }

  function DataSize(m: App.FungibleTokenPacketData): nat {
    BytesSize(|m.denom|) + VarintSize(m.amount) + BytesSize(|m.sender|) + BytesSize(|m.receiver|)
  }

  function HeightSize(h: Height): nat {
    VarintSize(h.revisionNumber) + VarintSize(h.revisionHeight)
  }

  function PacketSize(p: Packet): nat {
    VarintSize(p.sequence) + BytesSize(|p.sourcePort|) + BytesSize(|p.sourceChannel|) + BytesSize(|p.destinationPort|)
    + BytesSize(|p.destinationChannel|) + BytesSize(|p.data|) + DelimitedSize(HeightSize(p.timeoutHeight))
    + VarintSize(p.timeoutTimestamp)
  }

  function ChannelCounterpartySize(c: ChannelCounterparty): nat {
    BytesSize(|c.portId|) + BytesSize(|c.channelId|)
  }

  function ChannelSize(m: Chan.ChannelMessage): nat {
    VarintSize(SignExtend(m.state)) + VarintSize(SignExtend(m.ordering))
    + DelimitedSize(ChannelCounterpartySize(m.counterparty)) + RepeatedSize(m.connectionHops) + BytesSize(|m.version|)
  }

  function PrefixSize(m: Conn.MerklePrefix): nat {
    BytesSize(|m.keyPrefix|)
  }

  function VersionSize(v: Version): nat {
    BytesSize(|v.identifier|) + RepeatedSize(v.features)
  }

  function CounterpartySize(c: Conn.CounterpartyMessage): nat {
    BytesSize(|c.clientId|) + BytesSize(|c.connectionId|)
    + if c.prefix.Some? then DelimitedSize(PrefixSize(c.prefix.value)) else 0
  }

  function ConnectionSize(m: Conn.ConnectionMessage): nat {
    BytesSize(|m.clientId|) + VersionsSize(m.versions) + VarintSize(SignExtend(m.state))
    + (if m.counterparty.Some? then DelimitedSize(CounterpartySize(m.counterparty.value)) else 0)
    + VarintSize(m.delayPeriod)
  }

  lemma DelimitedLength(num: nat, payload: Bytes, fields: seq<Field>)
    requires 0 < num < 16
    ensures |EncodeFields([Delimited(num, payload)] + fields)| == DelimitedSize(|payload|) + |EncodeFields(fields)|
  {
    hide EncodeVarint, EncodeField;
    FieldParts(Delimited(num, payload));
    SovIsLength(|payload|);
    OneMore(Delimited(num, payload), fields);
  }

  lemma BytesLength(num: nat, payload: Bytes, fields: seq<Field>)
    requires 0 < num < 16
    ensures |EncodeFields(BytesField(num, payload) + fields)| == BytesSize(|payload|) + |EncodeFields(fields)|
  {
    hide EncodeFields, Sov;
    if payload == [] {
      assert BytesField(num, payload) + fields == fields;
    } else {
      DelimitedLength(num, payload, fields);
    }
  }

  lemma VarintLength(num: nat, v: uint64, fields: seq<Field>)
    requires 0 < num < 16
    ensures |EncodeFields(VarintField(num, v) + fields)| == VarintSize(v) + |EncodeFields(fields)|
  {
    hide EncodeVarint, EncodeField, Sov;
    if v == 0 {
      assert VarintField(num, v) + fields == fields;
    } else {
      FieldParts(Varint(num, v));
      SovIsLength(v);
      OneMore(Varint(num, v), fields);
    }
  }

  lemma {:induction false} RepeatedLength(num: nat, ss: seq<Bytes>, fields: seq<Field>)
    requires 0 < num < 16
    ensures |EncodeFields(RepeatedField(num, ss) + fields)| == RepeatedSize(ss) + |EncodeFields(fields)|
    decreases |ss|
  {
    hide EncodeFields, Sov;
    if ss == [] {
      assert RepeatedField(num, ss) + fields == fields;
    } else {
      RepeatedLength(num, ss[1..], fields);
      DelimitedLength(num, ss[0], RepeatedField(num, ss[1..]) + fields);
      assert RepeatedField(num, ss) + fields == [Delimited(num, ss[0])] + (RepeatedField(num, ss[1..]) + fields);
    }
  }

  /** `Size` tells the length of the encoding. */
  lemma DataSizeIsLength(m: App.FungibleTokenPacketData)
    ensures DataSize(m) == |App.Encode(m)|
  {
    hide EncodeFields, BytesSize, VarintSize, BytesField, VarintField;
    var from4 := BytesField(4, m.receiver) + [];
    var from3 := BytesField(3, m.sender) + from4;
    var from2 := VarintField(2, m.amount) + from3;
    BytesLength(4, m.receiver, []);
    BytesLength(3, m.sender, from4);
    VarintLength(2, m.amount, from3);
    BytesLength(1, m.denom, from2);
    NoFields();
  }

  lemma NoFields()
    ensures EncodeFields([]) == []
  {
  }

  lemma HeightSizeIsLength(h: Height)
    ensures HeightSize(h) == |Chan.EncodeHeight(h)|
  {
    hide EncodeFields, VarintSize, VarintField;
    VarintLength(2, h.revisionHeight, []);
    VarintLength(1, h.revisionNumber, VarintField(2, h.revisionHeight) + []);
    NoFields();
  }

  lemma PacketFrom6Length(p: Packet)
    ensures |EncodeFields(Chan.PacketFieldsFrom6(p))|
         == BytesSize(|p.data|) + DelimitedSize(HeightSize(p.timeoutHeight)) + VarintSize(p.timeoutTimestamp)
  {
    hide EncodeFields, BytesSize, VarintSize, DelimitedSize, BytesField, VarintField, Chan.EncodeHeight, HeightSize;
    var from8 := VarintField(8, p.timeoutTimestamp) + [];
    HeightSizeIsLength(p.timeoutHeight);
    VarintLength(8, p.timeoutTimestamp, []);
    DelimitedLength(7, Chan.EncodeHeight(p.timeoutHeight), from8);
    BytesLength(6, p.data, [Delimited(7, Chan.EncodeHeight(p.timeoutHeight))] + from8);
    NoFields();
  }

  lemma PacketSizeIsLength(p: Packet)
    ensures PacketSize(p) == |Chan.EncodePacket(p)|
  {
    hide EncodeFields, BytesSize, VarintSize, DelimitedSize, BytesField, VarintField, Chan.PacketFieldsFrom6, HeightSize;
    var from6 := Chan.PacketFieldsFrom6(p);
    var from5 := BytesField(5, p.destinationChannel) + from6;
    var from4 := BytesField(4, p.destinationPort) + from5;
    var from3 := BytesField(3, p.sourceChannel) + from4;
    var from2 := BytesField(2, p.sourcePort) + from3;
    PacketFrom6Length(p);
    BytesLength(5, p.destinationChannel, from6);
    BytesLength(4, p.destinationPort, from5);
    BytesLength(3, p.sourceChannel, from4);
    BytesLength(2, p.sourcePort, from3);
    VarintLength(1, p.sequence, from2);
  }

  lemma ChannelCounterpartySizeIsLength(c: ChannelCounterparty)
    ensures ChannelCounterpartySize(c) == |Chan.EncodeCounterparty(c)|
  {
    hide EncodeFields, BytesSize, BytesField;
    BytesLength(2, c.channelId, []);
    BytesLength(1, c.portId, BytesField(2, c.channelId) + []);
    NoFields();
  }

  lemma ChannelSizeIsLength(m: Chan.ChannelMessage)
    ensures ChannelSize(m) == |Chan.EncodeChannel(m)|
  {
    hide EncodeFields, BytesSize, VarintSize, DelimitedSize, RepeatedSize, BytesField, VarintField, RepeatedField;
    hide Chan.EncodeCounterparty, ChannelCounterpartySize, SignExtend;
    var payload := Chan.EncodeCounterparty(m.counterparty);
    var from5 := BytesField(5, m.version) + [];
    var from4 := RepeatedField(4, m.connectionHops) + from5;
    var from3 := [Delimited(3, payload)] + from4;
    ChannelCounterpartySizeIsLength(m.counterparty);
    BytesLength(5, m.version, []);
    RepeatedLength(4, m.connectionHops, from5);
    DelimitedLength(3, payload, from4);
    VarintLength(2, SignExtend(m.ordering), from3);
    VarintLength(1, SignExtend(m.state), VarintField(2, SignExtend(m.ordering)) + from3);
    NoFields();
  }

  lemma PrefixSizeIsLength(m: Conn.MerklePrefix)
    ensures PrefixSize(m) == |Conn.EncodePrefix(m)|
  {
    hide EncodeFields, BytesSize, BytesField;
    BytesLength(1, m.keyPrefix, []);
    NoFields();
  }

  lemma VersionSizeIsLength(v: Version)
    ensures VersionSize(v) == |Conn.EncodeVersion(v)|
  {
    hide EncodeFields, BytesSize, BytesField, RepeatedField, RepeatedSize;
    RepeatedLength(2, v.features, []);
    BytesLength(1, v.identifier, RepeatedField(2, v.features) + []);
    NoFields();
  }

  lemma CounterpartySizeIsLength(c: Conn.CounterpartyMessage)
    ensures CounterpartySize(c) == |Conn.EncodeCounterparty(c)|
  {
    hide EncodeFields, BytesSize, DelimitedSize, BytesField, Conn.EncodePrefix, PrefixSize;
    var from3 := Conn.PrefixField(c.prefix) + [];
    NoFields();
    if c.prefix.Some? {
      PrefixSizeIsLength(c.prefix.value);
      DelimitedLength(3, Conn.EncodePrefix(c.prefix.value), []);
    } else {
      assert from3 == [];
    }
    BytesLength(2, c.connectionId, from3);
    BytesLength(1, c.clientId, BytesField(2, c.connectionId) + from3);
  }

  lemma {:induction false} VersionsLength(versions: seq<Version>, fields: seq<Field>)
    ensures |EncodeFields(RepeatedField(2, Conn.VersionBytes(versions)) + fields)|
         == VersionsSize(versions) + |EncodeFields(fields)|
    decreases |versions|
  {
    hide EncodeFields, DelimitedSize, Conn.EncodeVersion, VersionSize;
    var bs := Conn.VersionBytes(versions);
    if versions == [] {
      assert RepeatedField(2, bs) + fields == fields;
    } else {
      VersionsLength(versions[1..], fields);
      VersionSizeIsLength(versions[0]);
      assert bs[1..] == Conn.VersionBytes(versions[1..]);
      DelimitedLength(2, bs[0], RepeatedField(2, bs[1..]) + fields);
      assert RepeatedField(2, bs) + fields == [Delimited(2, bs[0])] + (RepeatedField(2, bs[1..]) + fields);
    }
  }

  lemma ConnectionSizeIsLength(m: Conn.ConnectionMessage)
    ensures ConnectionSize(m) == |Conn.EncodeConnection(m)|
  {
    hide EncodeFields, BytesSize, VarintSize, DelimitedSize, VersionsSize, BytesField, VarintField, RepeatedField;
    hide Conn.EncodeCounterparty, CounterpartySize, SignExtend, Conn.VersionBytes;
    var from5 := VarintField(5, m.delayPeriod) + [];
    var from4 := Conn.CounterpartyField(m.counterparty) + from5;
    var from3 := VarintField(3, SignExtend(m.state)) + from4;
    NoFields();
    VarintLength(5, m.delayPeriod, []);
    if m.counterparty.Some? {
      CounterpartySizeIsLength(m.counterparty.value);
      DelimitedLength(4, Conn.EncodeCounterparty(m.counterparty.value), from5);
    } else {
      assert from4 == from5;
    }
    VarintLength(3, SignExtend(m.state), from4);
    VersionsLength(m.versions, from3);
    BytesLength(1, m.clientId, RepeatedField(2, Conn.VersionBytes(m.versions)) + from3);
  }

  // ----- Filling a buffer -----

  /** Later fields take no more room than all. */
  lemma SuffixFits(before: seq<Field>, after: seq<Field>)
    ensures |EncodeFields(after)| <= |EncodeFields(before + after)|
  {
    hide EncodeFields;
    EncodeFieldsConcat(before, after);
  }

  method MarshalData(dAtA: array<byte>, end: nat, m: App.FungibleTokenPacketData) returns (size: nat)
    requires |App.Encode(m)| <= end <= dAtA.Length < TWO_63
    modifies dAtA
    ensures size == |App.Encode(m)| && dAtA[..] == Written(old(dAtA[..]), end - size, App.Encode(m))
  {
    hide EncodeFields, BytesField, VarintField;
    ghost var was := dAtA[..];
    ghost var from4 := BytesField(4, m.receiver) + [];
    ghost var from3 := BytesField(3, m.sender) + from4;
    ghost var from2 := VarintField(2, m.amount) + from3;
    SuffixFits(BytesField(1, m.denom), from2);
    SuffixFits(VarintField(2, m.amount), from3);
    SuffixFits(BytesField(3, m.sender), from4);
    NoTail(was, end);
    var i := PutBytesField(dAtA, end, 4, m.receiver, was, end, []);
    i := PutBytesField(dAtA, i, 3, m.sender, was, end, from4);
    i := PutVarintField(dAtA, i, 2, m.amount, was, end, from3);
    i := PutBytesField(dAtA, i, 1, m.denom, was, end, from2);
    return end - i;
  }

  method MarshalHeight(dAtA: array<byte>, end: nat, h: Height) returns (size: nat)
    requires |Chan.EncodeHeight(h)| <= end <= dAtA.Length < TWO_63
    modifies dAtA
    ensures size == |Chan.EncodeHeight(h)| && dAtA[..] == Written(old(dAtA[..]), end - size, Chan.EncodeHeight(h))
  {
    hide EncodeFields, VarintField;
    ghost var was := dAtA[..];
    ghost var from2 := VarintField(2, h.revisionHeight) + [];
    SuffixFits(VarintField(1, h.revisionNumber), from2);
    NoTail(was, end);
    var i := PutVarintField(dAtA, end, 2, h.revisionHeight, was, end, []);
    i := PutVarintField(dAtA, i, 1, h.revisionNumber, was, end, from2);
    return end - i;
  }

  /** The room an embedded message needs. */
  lemma EmbeddedFits(num: nat, payload: Bytes, fields: seq<Field>)
    requires 0 < num < 16
    ensures |EncodeField(Delimited(num, payload))| + |EncodeFields(fields)| == |EncodeFields([Delimited(num, payload)] + fields)|
    ensures |payload| <= |EncodeField(Delimited(num, payload))|
  {
    hide EncodeVarint, EncodeField, EncodeFields;
    FieldParts(Delimited(num, payload));
    OneMore(Delimited(num, payload), fields);
  }

  method MarshalPacket(dAtA: array<byte>, end: nat, p: Packet) returns (size: nat)
    requires |Chan.EncodePacket(p)| <= end <= dAtA.Length < TWO_63
    modifies dAtA
    ensures size == |Chan.EncodePacket(p)| && dAtA[..] == Written(old(dAtA[..]), end - size, Chan.EncodePacket(p))
  {
    hide EncodeFields, EncodeField, BytesField, VarintField, Chan.EncodeHeight, Written;
    ghost var was := dAtA[..];
    ghost var payload := Chan.EncodeHeight(p.timeoutHeight);
    ghost var from8 := VarintField(8, p.timeoutTimestamp) + [];
    ghost var from7 := [Delimited(7, payload)] + from8;
    ghost var from6 := BytesField(6, p.data) + from7;
    ghost var from5 := BytesField(5, p.destinationChannel) + from6;
    ghost var from4 := BytesField(4, p.destinationPort) + from5;
    ghost var from3 := BytesField(3, p.sourceChannel) + from4;
    ghost var from2 := BytesField(2, p.sourcePort) + from3;
    SuffixFits(VarintField(1, p.sequence), from2);
    SuffixFits(BytesField(2, p.sourcePort), from3);
    SuffixFits(BytesField(3, p.sourceChannel), from4);
    SuffixFits(BytesField(4, p.destinationPort), from5);
    SuffixFits(BytesField(5, p.destinationChannel), from6);
    SuffixFits(BytesField(6, p.data), from7);
    EmbeddedFits(7, payload, from8);
    NoTail(was, end);
    var i := PutVarintField(dAtA, end, 8, p.timeoutTimestamp, was, end, []);
    TailEnds(dAtA[..], was, i, end, from8);
    ghost var before := dAtA[..];
    var n := MarshalHeight(dAtA, i, p.timeoutHeight);
    i := PutEmbedded(dAtA, i, 7, n, payload, before, was, end, from8);
    i := PutBytesField(dAtA, i, 6, p.data, was, end, from7);
    i := PutBytesField(dAtA, i, 5, p.destinationChannel, was, end, from6);
    i := PutBytesField(dAtA, i, 4, p.destinationPort, was, end, from5);
    i := PutBytesField(dAtA, i, 3, p.sourceChannel, was, end, from4);
    i := PutBytesField(dAtA, i, 2, p.sourcePort, was, end, from3);
    i := PutVarintField(dAtA, i, 1, p.sequence, was, end, from2);
    return end - i;
  }

  lemma TailEnds(dAtA: Bytes, was: Bytes, i: nat, end: nat, fields: seq<Field>)
    requires Tail(dAtA, was, i, end, fields)
    ensures i + |EncodeFields(fields)| == end && |dAtA| == |was|
  {
  }

  method MarshalChannelCounterparty(dAtA: array<byte>, end: nat, c: ChannelCounterparty) returns (size: nat)
    requires |Chan.EncodeCounterparty(c)| <= end <= dAtA.Length < TWO_63
    modifies dAtA
    ensures size == |Chan.EncodeCounterparty(c)|
    ensures dAtA[..] == Written(old(dAtA[..]), end - size, Chan.EncodeCounterparty(c))
  {
    hide EncodeFields, BytesField;
    ghost var was := dAtA[..];
    ghost var from2 := BytesField(2, c.channelId) + [];
    SuffixFits(BytesField(1, c.portId), from2);
    NoTail(was, end);
    var i := PutBytesField(dAtA, end, 2, c.channelId, was, end, []);
    i := PutBytesField(dAtA, i, 1, c.portId, was, end, from2);
    return end - i;
  }

  method MarshalChannel(dAtA: array<byte>, end: nat, m: Chan.ChannelMessage) returns (size: nat)
    requires |Chan.EncodeChannel(m)| <= end <= dAtA.Length < TWO_63
    modifies dAtA
    ensures size == |Chan.EncodeChannel(m)| && dAtA[..] == Written(old(dAtA[..]), end - size, Chan.EncodeChannel(m))
  {
    hide EncodeFields, EncodeField, BytesField, VarintField, RepeatedField, Chan.EncodeCounterparty, Written, SignExtend;
    ghost var was := dAtA[..];
    ghost var payload := Chan.EncodeCounterparty(m.counterparty);
    ghost var from5 := BytesField(5, m.version) + [];
    ghost var from4 := RepeatedField(4, m.connectionHops) + from5;
    ghost var from3 := [Delimited(3, payload)] + from4;
    ghost var from2 := VarintField(2, SignExtend(m.ordering)) + from3;
    SuffixFits(VarintField(1, SignExtend(m.state)), from2);
    SuffixFits(VarintField(2, SignExtend(m.ordering)), from3);
    EmbeddedFits(3, payload, from4);
    SuffixFits(RepeatedField(4, m.connectionHops), from5);
    NoTail(was, end);
    var i := PutBytesField(dAtA, end, 5, m.version, was, end, []);
    i := PutRepeated(dAtA, i, 4, m.connectionHops, was, end, from5);
    TailEnds(dAtA[..], was, i, end, from4);
    ghost var before := dAtA[..];
    var n := MarshalChannelCounterparty(dAtA, i, m.counterparty);
    i := PutEmbedded(dAtA, i, 3, n, payload, before, was, end, from4);
    i := PutVarintField(dAtA, i, 2, SignExtend(m.ordering), was, end, from3);
    i := PutVarintField(dAtA, i, 1, SignExtend(m.state), was, end, from2);
    return end - i;
  }

  method MarshalPrefix(dAtA: array<byte>, end: nat, m: Conn.MerklePrefix) returns (size: nat)
    requires |Conn.EncodePrefix(m)| <= end <= dAtA.Length < TWO_63
    modifies dAtA
    ensures size == |Conn.EncodePrefix(m)| && dAtA[..] == Written(old(dAtA[..]), end - size, Conn.EncodePrefix(m))
  {
    hide EncodeFields, BytesField;
    ghost var was := dAtA[..];
    NoTail(was, end);
    var i := PutBytesField(dAtA, end, 1, m.keyPrefix, was, end, []);
    return end - i;
  }

  method MarshalVersion(dAtA: array<byte>, end: nat, v: Version) returns (size: nat)
    requires |Conn.EncodeVersion(v)| <= end <= dAtA.Length < TWO_63
    modifies dAtA
    ensures size == |Conn.EncodeVersion(v)| && dAtA[..] == Written(old(dAtA[..]), end - size, Conn.EncodeVersion(v))
  {
    hide EncodeFields, BytesField, RepeatedField;
    ghost var was := dAtA[..];
    ghost var from2 := RepeatedField(2, v.features) + [];
    SuffixFits(BytesField(1, v.identifier), from2);
    NoTail(was, end);
    var i := PutRepeated(dAtA, end, 2, v.features, was, end, []);
    i := PutBytesField(dAtA, i, 1, v.identifier, was, end, from2);
    return end - i;
  }

  method MarshalCounterparty(dAtA: array<byte>, end: nat, c: Conn.CounterpartyMessage) returns (size: nat)
    requires |Conn.EncodeCounterparty(c)| <= end <= dAtA.Length < TWO_63
    modifies dAtA
    ensures size == |Conn.EncodeCounterparty(c)|
    ensures dAtA[..] == Written(old(dAtA[..]), end - size, Conn.EncodeCounterparty(c))
  {
    hide EncodeFields, EncodeField, BytesField, Conn.EncodePrefix, Written;
    ghost var was := dAtA[..];
    ghost var from3 := Conn.PrefixField(c.prefix) + [];
    ghost var from2 := BytesField(2, c.connectionId) + from3;
    SuffixFits(BytesField(1, c.clientId), from2);
    SuffixFits(BytesField(2, c.connectionId), from3);
    NoTail(was, end);
    NoFields();
    var i := end;
    if c.prefix.Some? {
      EmbeddedFits(3, Conn.EncodePrefix(c.prefix.value), []);
      var n := MarshalPrefix(dAtA, i, c.prefix.value);
      i := PutEmbedded(dAtA, i, 3, n, Conn.EncodePrefix(c.prefix.value), was, was, end, []);
    } else {
      assert from3 == [];
    }
    i := PutBytesField(dAtA, i, 2, c.connectionId, was, end, from3);
    i := PutBytesField(dAtA, i, 1, c.clientId, was, end, from2);
    return end - i;
  }

  /** The loop over the versions, last one first. */
  method MarshalVersions(dAtA: array<byte>, i: nat, versions: seq<Version>, ghost was: Bytes, ghost end: nat,
                         ghost fields: seq<Field>) returns (j: nat)
    requires dAtA.Length < TWO_63
    requires |was| == dAtA.Length && Tail(dAtA[..], was, i, end, fields)
    requires |EncodeFields(RepeatedField(2, Conn.VersionBytes(versions)) + fields)| <= end
    modifies dAtA
    ensures Tail(dAtA[..], was, j, end, RepeatedField(2, Conn.VersionBytes(versions)) + fields)
  {
    hide Written, EncodeField, EncodeFields, Conn.EncodeVersion;
    ghost var bs := Conn.VersionBytes(versions);
    j := i;
    var k := |versions|;
    assert RepeatedField(2, bs[k..]) + fields == fields;
    while k > 0
      invariant 0 <= k <= |versions|
      invariant Tail(dAtA[..], was, j, end, RepeatedField(2, bs[k..]) + fields)
    {
      k := k - 1;
      ghost var rest := RepeatedField(2, bs[k + 1..]) + fields;
      RepeatedRest(2, bs, k, fields);
      EmbeddedFits(2, bs[k], rest);
      TailEnds(dAtA[..], was, j, end, rest);
      ghost var before := dAtA[..];
      var n := MarshalVersion(dAtA, j, versions[k]);
      j := PutEmbedded(dAtA, j, 2, n, bs[k], before, was, end, rest);
    }
    assert bs[0..] == bs;
  }

  method MarshalConnection(dAtA: array<byte>, end: nat, m: Conn.ConnectionMessage) returns (size: nat)
    requires |Conn.EncodeConnection(m)| <= end <= dAtA.Length < TWO_63
    modifies dAtA
    ensures size == |Conn.EncodeConnection(m)|
    ensures dAtA[..] == Written(old(dAtA[..]), end - size, Conn.EncodeConnection(m))
  {
    hide EncodeFields, EncodeField, BytesField, VarintField, RepeatedField, Conn.EncodeCounterparty, Written, SignExtend;
    hide Conn.VersionBytes;
    ghost var was := dAtA[..];
    ghost var from5 := VarintField(5, m.delayPeriod) + [];
    ghost var from4 := Conn.CounterpartyField(m.counterparty) + from5;
    ghost var from3 := VarintField(3, SignExtend(m.state)) + from4;
    ghost var from2 := RepeatedField(2, Conn.VersionBytes(m.versions)) + from3;
    SuffixFits(BytesField(1, m.clientId), from2);
    SuffixFits(RepeatedField(2, Conn.VersionBytes(m.versions)), from3);
    SuffixFits(VarintField(3, SignExtend(m.state)), from4);
    SuffixFits(Conn.CounterpartyField(m.counterparty), from5);
    NoTail(was, end);
    var i := PutVarintField(dAtA, end, 5, m.delayPeriod, was, end, []);
    TailEnds(dAtA[..], was, i, end, from5);
    if m.counterparty.Some? {
      ghost var payload := Conn.EncodeCounterparty(m.counterparty.value);
      EmbeddedFits(4, payload, from5);
      ghost var before := dAtA[..];
      var n := MarshalCounterparty(dAtA, i, m.counterparty.value);
      i := PutEmbedded(dAtA, i, 4, n, payload, before, was, end, from5);
    } else {
      assert from4 == from5;
    }
    i := PutVarintField(dAtA, i, 3, SignExtend(m.state), was, end, from4);
    i := MarshalVersions(dAtA, i, m.versions, was, end, from3);
    i := PutBytesField(dAtA, i, 1, m.clientId, was, end, from2);
    return end - i;
  }

  // ----- Marshal -----

  lemma WholeWritten(buffer: Bytes, s: Bytes)
    requires |buffer| == |s|
    ensures Written(buffer, 0, s) == s
  {
  }

  method DataBytes(m: App.FungibleTokenPacketData) returns (bytes: Bytes)
    requires DataSize(m) < TWO_63
    ensures bytes == App.Encode(m)
  {
    hide App.Encode, DataSize, Written;
    DataSizeIsLength(m);
    var size := DataSize(m);
    var dAtA := new byte[size](_ => 0);
    ghost var was := dAtA[..];
    var n := MarshalData(dAtA, size, m);
    WholeWritten(was, App.Encode(m));
    return dAtA[..n];
  }

  method PacketBytes(p: Packet) returns (bytes: Bytes)
    requires PacketSize(p) < TWO_63
    ensures bytes == Chan.EncodePacket(p)
  {
    hide Chan.EncodePacket, PacketSize, Written;
    PacketSizeIsLength(p);
    var size := PacketSize(p);
    var dAtA := new byte[size](_ => 0);
    ghost var was := dAtA[..];
    var n := MarshalPacket(dAtA, size, p);
    WholeWritten(was, Chan.EncodePacket(p));
    return dAtA[..n];
  }

  method ChannelBytes(m: Chan.ChannelMessage) returns (bytes: Bytes)
    requires ChannelSize(m) < TWO_63
    ensures bytes == Chan.EncodeChannel(m)
  {
    hide Chan.EncodeChannel, ChannelSize, Written;
    ChannelSizeIsLength(m);
    var size := ChannelSize(m);
    var dAtA := new byte[size](_ => 0);
    ghost var was := dAtA[..];
    var n := MarshalChannel(dAtA, size, m);
    WholeWritten(was, Chan.EncodeChannel(m));
    return dAtA[..n];
  }

  method ConnectionBytes(m: Conn.ConnectionMessage) returns (bytes: Bytes)
    requires ConnectionSize(m) < TWO_63
    ensures bytes == Conn.EncodeConnection(m)
  {
    hide Conn.EncodeConnection, ConnectionSize, Written;
    ConnectionSizeIsLength(m);
    var size := ConnectionSize(m);
    var dAtA := new byte[size](_ => 0);
    ghost var was := dAtA[..];
    var n := MarshalConnection(dAtA, size, m);
    WholeWritten(was, Conn.EncodeConnection(m));
    return dAtA[..n];
  }
}
