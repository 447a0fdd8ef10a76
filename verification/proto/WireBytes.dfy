/**
 The wire bytes of every message, written out with their tags. A string, a byte field or a
 number that is empty or zero is left out; an embedded message and every element of a repeated
 field are always written.
 */
module WireBytes {
  import opened Prelude
  import opened Wire
  import opened IBCTypes
  import App = AppMessages
  import Chan = ChannelMessages
  import Conn = ConnectionMessages

  // ----- One field -----

  function Block(tag: byte, s: Bytes): Bytes {
    [tag] + EncodeVarint(|s|) + s
  }

  function Text(tag: byte, s: Bytes): Bytes {
    if s == [] then [] else Block(tag, s)
  }

  function Number(tag: byte, v: uint64): Bytes {
    if v == 0 then [] else [tag] + EncodeVarint(v)
  }

  function Blocks(tag: byte, ss: seq<Bytes>): Bytes {
    if ss == [] then [] else Block(tag, ss[0]) + Blocks(tag, ss[1..])
  }

  lemma BlockField(tag: byte, num: nat, s: Bytes, rest: seq<Field>)
    requires 0 < num < 16 && tag as int == 8 * num + 2
    ensures EncodeFields([Delimited(num, s)] + rest) == Block(tag, s) + EncodeFields(rest)
  {
    var fs := [Delimited(num, s)] + rest;
    assert fs[0] == Delimited(num, s) && fs[1..] == rest;
    TagBytes(Delimited(num, s));
    ConcatAssociates([tag], EncodeVarint(|s|), s);
  }

  lemma TextField(tag: byte, num: nat, s: Bytes, rest: seq<Field>)
    requires 0 < num < 16 && tag as int == 8 * num + 2
    ensures EncodeFields(BytesField(num, s) + rest) == Text(tag, s) + EncodeFields(rest)
  {
    hide EncodeFields, Block;
    BlockField(tag, num, s, rest);
    assert s == [] ==> BytesField(num, s) + rest == rest;
  }

  lemma NumberField(tag: byte, num: nat, v: uint64, rest: seq<Field>)
    requires 0 < num < 16 && tag as int == 8 * num
    ensures EncodeFields(VarintField(num, v) + rest) == Number(tag, v) + EncodeFields(rest)
  {
    hide EncodeVarint;
    if v == 0 {
      assert VarintField(num, v) + rest == rest;
    } else {
      var fs := [Varint(num, v)] + rest;
      assert VarintField(num, v) + rest == fs && fs[0] == Varint(num, v) && fs[1..] == rest;
      TagBytes(Varint(num, v));
    }
  }

  lemma {:induction false} BlocksField(tag: byte, num: nat, ss: seq<Bytes>, rest: seq<Field>)
    requires 0 < num < 16 && tag as int == 8 * num + 2
    ensures EncodeFields(RepeatedField(num, ss) + rest) == Blocks(tag, ss) + EncodeFields(rest)
    decreases |ss|
  {
    hide EncodeFields, Block;
    if ss == [] {
      assert RepeatedField(num, ss) + rest == rest;
    } else {
      BlocksField(tag, num, ss[1..], rest);
      BlockField(tag, num, ss[0], RepeatedField(num, ss[1..]) + rest);
      assert RepeatedField(num, ss) + rest == [Delimited(num, ss[0])] + (RepeatedField(num, ss[1..]) + rest);
    }
  }

  lemma NoField()
    ensures EncodeFields([]) == []
  {
  }

  // ----- Packet data -----

  lemma DataOnWire(m: App.FungibleTokenPacketData)
    ensures App.Encode(m) == Text(0x0a, m.denom) + (Number(0x10, m.amount) + (Text(0x1a, m.sender) + Text(0x22, m.receiver)))
  {
    hide EncodeFields, BytesField, VarintField, Text, Number;
    var from4 := BytesField(4, m.receiver) + [];
    var from3 := BytesField(3, m.sender) + from4;
    var from2 := VarintField(2, m.amount) + from3;
    TextField(0x0a, 1, m.denom, from2);
    NumberField(0x10, 2, m.amount, from3);
    TextField(0x1a, 3, m.sender, from4);
    TextField(0x22, 4, m.receiver, []);
    NoField();
  }

  // ----- Packets -----

  function HeightOnWire(h: Height): Bytes {
    Number(0x08, h.revisionNumber) + Number(0x10, h.revisionHeight)
  }

  lemma HeightBytes(h: Height)
    ensures Chan.EncodeHeight(h) == HeightOnWire(h)
  {
    hide EncodeFields, VarintField, Number;
    NumberField(0x08, 1, h.revisionNumber, VarintField(2, h.revisionHeight) + []);
    NumberField(0x10, 2, h.revisionHeight, []);
    NoField();
  }

  lemma PacketOnWire(p: Packet)
    ensures Chan.EncodePacket(p)
         == Number(0x08, p.sequence)
            + (Text(0x12, p.sourcePort)
            + (Text(0x1a, p.sourceChannel)
            + (Text(0x22, p.destinationPort)
            + (Text(0x2a, p.destinationChannel)
            + (Text(0x32, p.data)
            + (Block(0x3a, HeightOnWire(p.timeoutHeight))
            + Number(0x40, p.timeoutTimestamp)))))))
  {
    hide EncodeFields, BytesField, VarintField, Text, Number, Block, HeightOnWire, Chan.EncodeHeight;
    HeightBytes(p.timeoutHeight);
    var from8 := VarintField(8, p.timeoutTimestamp) + [];
    var from7 := [Delimited(7, Chan.EncodeHeight(p.timeoutHeight))] + from8;
    var from6 := BytesField(6, p.data) + from7;
    var from5 := BytesField(5, p.destinationChannel) + from6;
    var from4 := BytesField(4, p.destinationPort) + from5;
    var from3 := BytesField(3, p.sourceChannel) + from4;
    var from2 := BytesField(2, p.sourcePort) + from3;
    NumberField(0x08, 1, p.sequence, from2);
    TextField(0x12, 2, p.sourcePort, from3);
    TextField(0x1a, 3, p.sourceChannel, from4);
    TextField(0x22, 4, p.destinationPort, from5);
    TextField(0x2a, 5, p.destinationChannel, from6);
    TextField(0x32, 6, p.data, from7);
    BlockField(0x3a, 7, Chan.EncodeHeight(p.timeoutHeight), from8);
    NumberField(0x40, 8, p.timeoutTimestamp, []);
    NoField();
  }

  // ----- Channel ends -----

  /** An enumeration as the 64 bits it is written as. */
  function Enum(x: int32): uint64 {
    if x >= 0 then x else x + TWO_64
  }

  function ChannelCounterpartyOnWire(c: ChannelCounterparty): Bytes {
    Text(0x0a, c.portId) + Text(0x12, c.channelId)
  }

  lemma ChannelCounterpartyBytes(c: ChannelCounterparty)
    ensures Chan.EncodeCounterparty(c) == ChannelCounterpartyOnWire(c)
  {
    hide EncodeFields, BytesField, Text;
    TextField(0x0a, 1, c.portId, BytesField(2, c.channelId) + []);
    TextField(0x12, 2, c.channelId, []);
    NoField();
  }

  lemma ChannelOnWire(m: Chan.ChannelMessage)
    ensures Chan.EncodeChannel(m)
         == Number(0x08, Enum(m.state))
            + (Number(0x10, Enum(m.ordering))
            + (Block(0x1a, ChannelCounterpartyOnWire(m.counterparty))
            + (Blocks(0x22, m.connectionHops)
            + Text(0x2a, m.version))))
  {
    hide EncodeFields, BytesField, VarintField, RepeatedField, Text, Number, Block, Blocks, ChannelCounterpartyOnWire;
    hide Chan.EncodeCounterparty;
    ChannelCounterpartyBytes(m.counterparty);
    var from5 := BytesField(5, m.version) + [];
    var from4 := RepeatedField(4, m.connectionHops) + from5;
    var from3 := [Delimited(3, Chan.EncodeCounterparty(m.counterparty))] + from4;
    var from2 := VarintField(2, SignExtend(m.ordering)) + from3;
    NumberField(0x08, 1, SignExtend(m.state), from2);
    NumberField(0x10, 2, SignExtend(m.ordering), from3);
    BlockField(0x1a, 3, Chan.EncodeCounterparty(m.counterparty), from4);
    BlocksField(0x22, 4, m.connectionHops, from5);
    TextField(0x2a, 5, m.version, []);
    NoField();
  }

  /** The numbers that states and orderings are written as are their places here. */
  lemma ChannelNumbers(k: nat)
    ensures k < 5 ==> Chan.StateNumber([CHAN_UNINITIALIZED, CHAN_INIT, CHAN_TRYOPEN, CHAN_OPEN, CHAN_CLOSED][k]) == k
    ensures k < 3 ==> Chan.OrderNumber([ORDER_NONE, ORDER_UNORDERED, ORDER_ORDERED][k]) == k
    ensures k < 4 ==> Conn.StateNumber([CONN_UNINITIALIZED, CONN_INIT, CONN_TRYOPEN, CONN_OPEN][k]) == k
  {
  }

  // ----- Connection ends -----

  lemma PrefixBytes(m: Conn.MerklePrefix)
    ensures Conn.EncodePrefix(m) == Text(0x0a, m.keyPrefix)
  {
    hide EncodeFields, BytesField, Text;
    TextField(0x0a, 1, m.keyPrefix, []);
    NoField();
  }

  function VersionOnWire(v: Version): Bytes {
    Text(0x0a, v.identifier) + Blocks(0x12, v.features)
  }

  lemma VersionBytes(v: Version)
    ensures Conn.EncodeVersion(v) == VersionOnWire(v)
  {
    hide EncodeFields, BytesField, RepeatedField, Text, Blocks;
    TextField(0x0a, 1, v.identifier, RepeatedField(2, v.features) + []);
    BlocksField(0x12, 2, v.features, []);
    NoField();
  }

  function CounterpartyOnWire(c: Conn.CounterpartyMessage): Bytes {
    Text(0x0a, c.clientId)
    + (Text(0x12, c.connectionId)
    + if c.prefix.None? then [] else Block(0x1a, Text(0x0a, c.prefix.value.keyPrefix)))
  }

  lemma CounterpartyBytes(c: Conn.CounterpartyMessage)
    ensures Conn.EncodeCounterparty(c) == CounterpartyOnWire(c)
  {
    hide EncodeFields, BytesField, Text, Block, Conn.EncodePrefix;
    var from3 := Conn.PrefixField(c.prefix) + [];
    TextField(0x0a, 1, c.clientId, BytesField(2, c.connectionId) + from3);
    TextField(0x12, 2, c.connectionId, from3);
    NoField();
    if c.prefix.None? {
      assert from3 == [];
    } else {
      PrefixBytes(c.prefix.value);
      BlockField(0x1a, 3, Conn.EncodePrefix(c.prefix.value), []);
    }
  }

  function VersionsOnWire(versions: seq<Version>): Bytes {
    if versions == [] then [] else Block(0x12, VersionOnWire(versions[0])) + VersionsOnWire(versions[1..])
  }

  lemma {:induction false} VersionsBytes(versions: seq<Version>)
    ensures Blocks(0x12, Conn.VersionBytes(versions)) == VersionsOnWire(versions)
  {
    hide Block, VersionOnWire, Conn.EncodeVersion;
    if versions != [] {
      VersionBytes(versions[0]);
      VersionsBytes(versions[1..]);
      assert Conn.VersionBytes(versions)[1..] == Conn.VersionBytes(versions[1..]);
    }
  }

  lemma ConnectionOnWire(m: Conn.ConnectionMessage)
    ensures Conn.EncodeConnection(m)
         == Text(0x0a, m.clientId)
            + (VersionsOnWire(m.versions)
            + (Number(0x18, Enum(m.state))
            + ((if m.counterparty.None? then [] else Block(0x22, CounterpartyOnWire(m.counterparty.value)))
            + Number(0x28, m.delayPeriod))))
  {
    hide EncodeFields, BytesField, VarintField, RepeatedField, Text, Number, Block, Blocks, CounterpartyOnWire, VersionsOnWire;
    hide Conn.EncodeCounterparty, Conn.VersionBytes;
    VersionsBytes(m.versions);
    var from5 := VarintField(5, m.delayPeriod) + [];
    var from4 := Conn.CounterpartyField(m.counterparty) + from5;
    var from3 := VarintField(3, SignExtend(m.state)) + from4;
    TextField(0x0a, 1, m.clientId, RepeatedField(2, Conn.VersionBytes(m.versions)) + from3);
    BlocksField(0x12, 2, Conn.VersionBytes(m.versions), from3);
    NumberField(0x18, 3, SignExtend(m.state), from4);
    if m.counterparty.None? {
      assert from4 == from5;
    } else {
      CounterpartyBytes(m.counterparty.value);
      BlockField(0x22, 4, Conn.EncodeCounterparty(m.counterparty.value), from5);
    }
    NumberField(0x28, 5, m.delayPeriod, []);
    NoField();
  }
}
