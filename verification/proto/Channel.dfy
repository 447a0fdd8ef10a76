/** `Height`, `Packet`, `Counterparty` and `Channel`: their bytes, and what their parsers make of bytes. */
module ChannelMessages {
  import opened Prelude
  import opened Wire
  import opened IBCTypes

  // ----- Height -----

  const NO_HEIGHT: Height := Height(0, 0)

  function HeightFields(h: Height): seq<Field> {
    VarintField(1, h.revisionNumber) + (VarintField(2, h.revisionHeight) + [])
  }

  function EncodeHeight(h: Height): Bytes {
    EncodeFields(HeightFields(h))
  }

  function ApplyHeight(h: Height, f: Field): Result<Height> {
    match f
    case Varint(1, v) => Ok(h.(revisionNumber := v))
    case Varint(2, v) => Ok(h.(revisionHeight := v))
    case _ => Revert
  }

  function HeightSchema(): Schema<Height> {
    Schema(map[1 := 0, 2 := 0], ApplyHeight)
  }

  function MergeHeight(b: Bytes, h: Height): Result<Height> {
    Merge(HeightSchema(), b, 0, h)
  }

  function OverlayHeight(into: Height, h: Height): Height {
    Height(OrNumber(h.revisionNumber, into.revisionNumber), OrNumber(h.revisionHeight, into.revisionHeight))
  }

  lemma HeightMerging(h: Height, into: Height)
    requires |EncodeHeight(h)| < TWO_63
    ensures MergeHeight(EncodeHeight(h), into) == Ok(OverlayHeight(into, h))
  {
    hide Merge, EncodeFields, Fold, VarintField;
    var s := HeightSchema();
    var n := into.(revisionNumber := OrNumber(h.revisionNumber, into.revisionNumber));
    FoldVarintField(s, 1, h.revisionNumber, VarintField(2, h.revisionHeight) + [], into);
    FoldVarintField(s, 2, h.revisionHeight, [], n);
    FoldNone(s, n);
    FoldNone(s, n.(revisionHeight := h.revisionHeight));
    assert forall f | f in HeightFields(h) :: Fits(s, f);
    MergeFields(s, EncodeHeight(h), 0, into, HeightFields(h));
  }

  // ----- Packet -----

  const NO_PACKET: Packet := Packet(0, [], [], [], [], [], NO_HEIGHT, 0)

  function PacketFields(p: Packet): seq<Field> {
    VarintField(1, p.sequence)
    + (BytesField(2, p.sourcePort)
    + (BytesField(3, p.sourceChannel)
    + (BytesField(4, p.destinationPort)
    + (BytesField(5, p.destinationChannel)
    + PacketFieldsFrom6(p)))))
  }

  function PacketFieldsFrom6(p: Packet): seq<Field> {
    BytesField(6, p.data)
    + ([Delimited(7, EncodeHeight(p.timeoutHeight))]
    + (VarintField(8, p.timeoutTimestamp)
    + []))
  }

  function EncodePacket(p: Packet): Bytes {
    EncodeFields(PacketFields(p))
  }

  function ApplyPacket(p: Packet, f: Field): Result<Packet> {
    match f
    case Varint(1, v) => Ok(p.(sequence := v))
    case Delimited(2, b) => Ok(p.(sourcePort := b))
    case Delimited(3, b) => Ok(p.(sourceChannel := b))
    case Delimited(4, b) => Ok(p.(destinationPort := b))
    case Delimited(5, b) => Ok(p.(destinationChannel := b))
    case Delimited(6, b) => Ok(p.(data := b))
    case Delimited(7, b) =>
      var h :- MergeHeight(b, p.timeoutHeight);
      Ok(p.(timeoutHeight := h))
    case Varint(8, v) => Ok(p.(timeoutTimestamp := v))
    case _ => Revert
  }

  function PacketSchema(): Schema<Packet> {
    Schema(map[1 := 0, 2 := 2, 3 := 2, 4 := 2, 5 := 2, 6 := 2, 7 := 2, 8 := 0], ApplyPacket)
  }

  function DecodePacket(b: Bytes): Result<Packet> {
    Merge(PacketSchema(), b, 0, NO_PACKET)
  }

  /** The timeouts and the data that parsing leaves. */
  function OverlayFrom6(into: Packet, p: Packet): Packet {
    into.(data := Or(p.data, into.data), timeoutHeight := OverlayHeight(into.timeoutHeight, p.timeoutHeight),
          timeoutTimestamp := OrNumber(p.timeoutTimestamp, into.timeoutTimestamp))
  }

  lemma FoldPacketFrom6(p: Packet, into: Packet)
    requires |EncodeHeight(p.timeoutHeight)| < TWO_63
    ensures Fold(PacketSchema(), PacketFieldsFrom6(p), into) == Ok(OverlayFrom6(into, p))
  {
    hide Fold, BytesField, VarintField, EncodeHeight, MergeHeight, OverlayHeight;
    var s := PacketSchema();
    var from8 := VarintField(8, p.timeoutTimestamp) + [];
    HeightMerging(p.timeoutHeight, into.timeoutHeight);
    FoldBytesField(s, 6, p.data, [Delimited(7, EncodeHeight(p.timeoutHeight))] + from8, into);
    var n := into.(data := Or(p.data, into.data));
    FoldDelimited(s, 7, EncodeHeight(p.timeoutHeight), from8, n);
    n := n.(timeoutHeight := OverlayHeight(into.timeoutHeight, p.timeoutHeight));
    FoldVarintField(s, 8, p.timeoutTimestamp, [], n);
    FoldNone(s, n);
    FoldNone(s, n.(timeoutTimestamp := p.timeoutTimestamp));
  }

  /** What `into` becomes when the bytes of `p` are parsed into it. */
  function OverlayPacket(into: Packet, p: Packet): Packet {
    Packet(OrNumber(p.sequence, into.sequence), Or(p.sourcePort, into.sourcePort), Or(p.sourceChannel, into.sourceChannel),
           Or(p.destinationPort, into.destinationPort), Or(p.destinationChannel, into.destinationChannel),
           Or(p.data, into.data), OverlayHeight(into.timeoutHeight, p.timeoutHeight),
           OrNumber(p.timeoutTimestamp, into.timeoutTimestamp))
  }

  lemma FoldPacket(p: Packet, into: Packet)
    requires |EncodeHeight(p.timeoutHeight)| < TWO_63
    ensures Fold(PacketSchema(), PacketFields(p), into) == Ok(OverlayPacket(into, p))
  {
    hide Fold, BytesField, VarintField, EncodeHeight, MergeHeight, PacketFieldsFrom6, OverlayHeight;
    var s := PacketSchema();
    var from6 := PacketFieldsFrom6(p);
    var from5 := BytesField(5, p.destinationChannel) + from6;
    var from4 := BytesField(4, p.destinationPort) + from5;
    var from3 := BytesField(3, p.sourceChannel) + from4;
    var from2 := BytesField(2, p.sourcePort) + from3;
    var m := into;
    FoldVarintField(s, 1, p.sequence, from2, m);
    m := m.(sequence := OrNumber(p.sequence, into.sequence));
    FoldBytesField(s, 2, p.sourcePort, from3, m);
    m := m.(sourcePort := Or(p.sourcePort, into.sourcePort));
    FoldBytesField(s, 3, p.sourceChannel, from4, m);
    m := m.(sourceChannel := Or(p.sourceChannel, into.sourceChannel));
    FoldBytesField(s, 4, p.destinationPort, from5, m);
    m := m.(destinationPort := Or(p.destinationPort, into.destinationPort));
    FoldBytesField(s, 5, p.destinationChannel, from6, m);
    FoldPacketFrom6(p, m.(destinationChannel := Or(p.destinationChannel, into.destinationChannel)));
  }

  /** Parsing the bytes of a packet into another one overwrites the fields that are set, those of the height one by one. */
  lemma PacketMerging(p: Packet, into: Packet)
    requires |EncodePacket(p)| < TWO_63
    ensures Merge(PacketSchema(), EncodePacket(p), 0, into) == Ok(OverlayPacket(into, p))
  {
    hide Merge, EncodeFields, Fold, BytesField, VarintField, EncodeHeight, ApplyPacket, OverlayPacket;
    PayloadWithin(PacketFields(p), EncodeHeight(p.timeoutHeight));
    FoldPacket(p, into);
    assert forall f | f in PacketFields(p) :: Fits(PacketSchema(), f);
    MergeFields(PacketSchema(), EncodePacket(p), 0, into, PacketFields(p));
  }

  /** Parsing the bytes of a packet into a fresh one gives the packet back. */
  lemma PacketRoundTrip(p: Packet)
    requires |EncodePacket(p)| < TWO_63
    ensures DecodePacket(EncodePacket(p)) == Ok(p)
  {
    hide Merge, EncodePacket;
    PacketMerging(p, NO_PACKET);
  }

  lemma PacketEncodingInjective(p: Packet, q: Packet)
    requires |EncodePacket(p)| < TWO_63 && EncodePacket(p) == EncodePacket(q)
    ensures p == q
  {
    PacketRoundTrip(p);
    PacketRoundTrip(q);
  }

  // ----- Channel -----

  /** The generated structure; its enumerations are any 32-bit numbers. */
  datatype ChannelMessage = ChannelMessage(
    state: int32,
    ordering: int32,
    counterparty: ChannelCounterparty,
    connectionHops: seq<Bytes>,
    version: Bytes)

  const NO_COUNTERPARTY: ChannelCounterparty := ChannelCounterparty([], [])

  function CounterpartyFields(c: ChannelCounterparty): seq<Field> {
    BytesField(1, c.portId) + (BytesField(2, c.channelId) + [])
  }

  function EncodeCounterparty(c: ChannelCounterparty): Bytes {
    EncodeFields(CounterpartyFields(c))
  }

  function ApplyCounterparty(c: ChannelCounterparty, f: Field): Result<ChannelCounterparty> {
    match f
    case Delimited(1, b) => Ok(c.(portId := b))
    case Delimited(2, b) => Ok(c.(channelId := b))
    case _ => Revert
  }

  function CounterpartySchema(): Schema<ChannelCounterparty> {
    Schema(map[1 := 2, 2 := 2], ApplyCounterparty)
  }

  function MergeCounterparty(b: Bytes, c: ChannelCounterparty): Result<ChannelCounterparty> {
    Merge(CounterpartySchema(), b, 0, c)
  }

  function OverlayCounterparty(into: ChannelCounterparty, c: ChannelCounterparty): ChannelCounterparty {
    ChannelCounterparty(Or(c.portId, into.portId), Or(c.channelId, into.channelId))
  }

  lemma CounterpartyMerging(c: ChannelCounterparty, into: ChannelCounterparty)
    requires |EncodeCounterparty(c)| < TWO_63
    ensures MergeCounterparty(EncodeCounterparty(c), into) == Ok(OverlayCounterparty(into, c))
  {
    hide Merge, EncodeFields, Fold, BytesField;
    var s := CounterpartySchema();
    var n := into.(portId := Or(c.portId, into.portId));
    FoldBytesField(s, 1, c.portId, BytesField(2, c.channelId) + [], into);
    FoldBytesField(s, 2, c.channelId, [], n);
    FoldNone(s, n);
    FoldNone(s, n.(channelId := c.channelId));
    assert forall f | f in CounterpartyFields(c) :: Fits(s, f);
    MergeFields(s, EncodeCounterparty(c), 0, into, CounterpartyFields(c));
  }

  const NO_CHANNEL: ChannelMessage := ChannelMessage(0, 0, NO_COUNTERPARTY, [], [])

  function ChannelFields(m: ChannelMessage): seq<Field> {
    VarintField(1, SignExtend(m.state))
    + (VarintField(2, SignExtend(m.ordering))
    + ([Delimited(3, EncodeCounterparty(m.counterparty))]
    + (RepeatedField(4, m.connectionHops)
    + (BytesField(5, m.version)
    + []))))
  }

  function EncodeChannel(m: ChannelMessage): Bytes {
    EncodeFields(ChannelFields(m))
  }

  function ApplyChannel(m: ChannelMessage, f: Field): Result<ChannelMessage> {
    match f
    case Varint(1, v) => Ok(m.(state := LowBits(v)))
    case Varint(2, v) => Ok(m.(ordering := LowBits(v)))
    case Delimited(3, b) =>
      var c :- MergeCounterparty(b, m.counterparty);
      Ok(m.(counterparty := c))
    case Delimited(4, b) => Ok(m.(connectionHops := m.connectionHops + [b]))
    case Delimited(5, b) => Ok(m.(version := b))
    case _ => Revert
  }

  function ChannelSchema(): Schema<ChannelMessage> {
    Schema(map[1 := 0, 2 := 0, 3 := 2, 4 := 2, 5 := 2], ApplyChannel)
  }

  function DecodeChannel(b: Bytes): Result<ChannelMessage> {
    Merge(ChannelSchema(), b, 0, NO_CHANNEL)
  }

  lemma {:induction false} FoldHops(hops: seq<Bytes>, rest: seq<Field>, m: ChannelMessage)
    ensures Fold(ChannelSchema(), RepeatedField(4, hops) + rest, m)
         == Fold(ChannelSchema(), rest, m.(connectionHops := m.connectionHops + hops))
    decreases |hops|
  {
    hide Fold, MergeCounterparty;
    if hops == [] {
      assert RepeatedField(4, hops) + rest == rest && m.connectionHops + hops == m.connectionHops;
    } else {
      FoldRepeatedField(ChannelSchema(), 4, hops, rest, m);
      var next := m.(connectionHops := m.connectionHops + [hops[0]]);
      FoldHops(hops[1..], rest, next);
      assert next.connectionHops + hops[1..] == m.connectionHops + hops;
    }
  }

  /** What `into` becomes when the bytes of `m` are parsed into it. */
  function OverlayChannel(into: ChannelMessage, m: ChannelMessage): ChannelMessage {
    ChannelMessage(OrNumber(m.state, into.state), OrNumber(m.ordering, into.ordering),
                   OverlayCounterparty(into.counterparty, m.counterparty), into.connectionHops + m.connectionHops,
                   Or(m.version, into.version))
  }

  lemma FoldChannel(m: ChannelMessage, into: ChannelMessage)
    requires |EncodeCounterparty(m.counterparty)| < TWO_63
    ensures Fold(ChannelSchema(), ChannelFields(m), into) == Ok(OverlayChannel(into, m))
  {
    hide Fold, BytesField, VarintField, RepeatedField, EncodeCounterparty, MergeCounterparty, OverlayCounterparty;
    hide LowBits, SignExtend;
    var s := ChannelSchema();
    var from5 := BytesField(5, m.version) + [];
    var from4 := RepeatedField(4, m.connectionHops) + from5;
    var from3 := [Delimited(3, EncodeCounterparty(m.counterparty))] + from4;
    var from2 := VarintField(2, SignExtend(m.ordering)) + from3;
    LowBitsOfSignExtend(m.state);
    LowBitsOfSignExtend(m.ordering);
    CounterpartyMerging(m.counterparty, into.counterparty);
    var n := into;
    FoldVarintField(s, 1, SignExtend(m.state), from2, n);
    n := n.(state := OrNumber(m.state, into.state));
    FoldVarintField(s, 2, SignExtend(m.ordering), from3, n);
    n := n.(ordering := OrNumber(m.ordering, into.ordering));
    FoldDelimited(s, 3, EncodeCounterparty(m.counterparty), from4, n);
    n := n.(counterparty := OverlayCounterparty(into.counterparty, m.counterparty));
    FoldHops(m.connectionHops, from5, n);
    n := n.(connectionHops := into.connectionHops + m.connectionHops);
    FoldBytesField(s, 5, m.version, [], n);
    FoldNone(s, n);
    FoldNone(s, n.(version := m.version));
  }

  /** Parsing the bytes of a channel end into another one overwrites the fields that are set, and adds the hops. */
  lemma ChannelMerging(m: ChannelMessage, into: ChannelMessage)
    requires |EncodeChannel(m)| < TWO_63
    ensures Merge(ChannelSchema(), EncodeChannel(m), 0, into) == Ok(OverlayChannel(into, m))
  {
    hide Merge, EncodeFields, Fold, BytesField, VarintField, RepeatedField, EncodeCounterparty, ApplyChannel;
    hide SignExtend, OverlayChannel;
    PayloadWithin(ChannelFields(m), EncodeCounterparty(m.counterparty));
    FoldChannel(m, into);
    assert forall f | f in ChannelFields(m) :: Fits(ChannelSchema(), f);
    MergeFields(ChannelSchema(), EncodeChannel(m), 0, into, ChannelFields(m));
  }

  /** Parsing the bytes of a channel end into a fresh one gives it back, whatever its enumerations. */
  lemma ChannelRoundTrip(m: ChannelMessage)
    requires |EncodeChannel(m)| < TWO_63
    ensures DecodeChannel(EncodeChannel(m)) == Ok(m)
  {
    hide Merge, EncodeChannel;
    ChannelMerging(m, NO_CHANNEL);
    assert [] + m.connectionHops == m.connectionHops;
  }

  /** A payload written as a field is no longer than the message. */
  lemma {:induction false} PayloadWithin(fs: seq<Field>, payload: Bytes)
    requires exists f :: f in fs && f.Delimited? && f.payload == payload
    ensures |payload| <= |EncodeFields(fs)|
  {
    if !(fs[0].Delimited? && fs[0].payload == payload) {
      var f :| f in fs && f.Delimited? && f.payload == payload;
      assert f in fs[1..];
      PayloadWithin(fs[1..], payload);
    }
  }

  // ----- The host's records -----

  function StateNumber(s: ChannelState): int32 {
    match s
    case CHAN_UNINITIALIZED => 0
    case CHAN_INIT => 1
    case CHAN_TRYOPEN => 2
    case CHAN_OPEN => 3
    case CHAN_CLOSED => 4
  }

  function OrderNumber(o: Order): int32 {
    match o
    case ORDER_NONE => 0
    case ORDER_UNORDERED => 1
    case ORDER_ORDERED => 2
  }

  /** A channel end of the host as a message. */
  function ToMessage(c: Channel): ChannelMessage {
    ChannelMessage(StateNumber(c.state), OrderNumber(c.ordering), c.counterparty, c.connectionHops, c.version)
  }

  /** Different channel ends have different bytes, so a digest of the bytes is one of the end. */
  lemma ChannelEncodingInjective(c: Channel, d: Channel)
    requires |EncodeChannel(ToMessage(c))| < TWO_63
    requires EncodeChannel(ToMessage(c)) == EncodeChannel(ToMessage(d))
    ensures c == d
  {
    hide EncodeChannel, DecodeChannel;
    ChannelRoundTrip(ToMessage(c));
    ChannelRoundTrip(ToMessage(d));
  }
}
