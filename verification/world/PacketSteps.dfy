/** Sending, receiving and acknowledging packets keep the protocol invariant. */
module PacketSteps {
  import opened Prelude
  import opened IBCIdentifier
  import opened IBCTypes
  import opened HostSpec
  import opened AppMessages
  import opened ChainSpec
  import opened TransferSpec
  import opened World
  import opened ProtocolInvariant
  import opened HandshakeSteps
  import opened ChannelSteps
  import ChannelSpec
  import Wire

  // ----- Appending to the logs -----

  lemma WasSentLonger(sent: seq<SendEvent>, e: SendEvent, p: Packet)
    requires WasSent(sent, p)
    ensures WasSent(sent + [e], p)
  {
    var i: nat :| i < |sent| && sent[i].packet == p;
    assert (sent + [e])[i].packet == p;
  }

  lemma SentAppended(sent: seq<SendEvent>, ends: Channels, sends: map<ChannelKey, uint64>, app: Address, e: SendEvent)
    requires SentInv(sent, ends, sends, app) && SequencesInv(sends, ends, |sent|)
    requires |sent| < TWO_64 - 2
    requires WellRouted(ends, SourceKey(e.packet), DestinationKey(e.packet)) && WellFormed(e, app)
    requires SourceKey(e.packet) in sends && e.packet.sequence == sends[SourceKey(e.packet)]
    ensures var next := sends[SourceKey(e.packet) := e.packet.sequence + 1];
            SentInv(sent + [e], ends, next, app) && SequencesInv(next, ends, |sent| + 1)
    ensures forall i | 0 <= i < |sent| :: SourcePacketKey(sent[i].packet) != SourcePacketKey(e.packet)
  {
    hide WellFormed, WellRouted;
  }

  lemma CommittedAppended(commitments: map<PacketKey, Digest>, sent: seq<SendEvent>, acknowledged: seq<AckEvent>,
                          ends: Channels, e: SendEvent)
    requires CommittedInv(commitments, sent, acknowledged) && AcknowledgedInv(acknowledged, sent, ends)
    requires forall i | 0 <= i < |sent| :: SourcePacketKey(sent[i].packet) != SourcePacketKey(e.packet)
    ensures CommittedInv(commitments[SourcePacketKey(e.packet) := MakePacketCommitment(e.packet)], sent + [e], acknowledged)
    ensures AcknowledgedInv(acknowledged, sent + [e], ends)
  {
    var k := SourcePacketKey(e.packet);
    var longer := sent + [e];
    var more := commitments[k := MakePacketCommitment(e.packet)];
    forall key | key in more
      ensures exists i: nat :: SentAt(longer, i, key) && more[key] == MakePacketCommitment(longer[i].packet)
    {
      if key == k {
        assert SentAt(longer, |sent|, k);
      } else {
        var i: nat :| SentAt(sent, i, key) && commitments[key] == MakePacketCommitment(sent[i].packet);
        assert SentAt(longer, i, key);
      }
    }
    assert !IsAcknowledged(acknowledged, k) by {
      forall j: nat
        ensures !AcknowledgedAt(acknowledged, j, k)
      {
        if j < |acknowledged| {
          assert WasSent(sent, acknowledged[j].packet);
          var i: nat :| i < |sent| && sent[i].packet == acknowledged[j].packet;
          assert SourcePacketKey(sent[i].packet) != k;
        }
      }
    }
    forall j | 0 <= j < |acknowledged|
      ensures WasSent(longer, acknowledged[j].packet)
    {
      WasSentLonger(sent, e, acknowledged[j].packet);
    }
  }

  // ----- Sending -----

  lemma DataRoundTrip(data: FungibleTokenPacketData)
    requires |data.denom| < TWO_62 && |data.sender| == 20 && |data.receiver| == 20
    ensures Decode(Encode(data)) == Ok(data)
  {
    hide Encode, Decode;
    EncodeSize(data);
    RoundTrip(data);
  }

  /** What an accepted transfer checked, and what it stores. */
  lemma SendShape(c: Chain, t: Transfer)
    requires ChainSpec.SendTransfer(c, t).Ok?
    ensures var key := ChannelKey(t.port, t.channel);
            && key in c.host.store.channels
            && var end := c.host.store.channels[key];
            && end.state == CHAN_OPEN
            && |t.denom| < TWO_62
            && var e := TransferEvent(t, SequenceAt(c.host.nextSequenceSends, key), end);
            && TakeTokens(c.bank, c.app, t).Ok?
            && ChainSpec.SendTransfer(c, t).value
               == c.(host := SetPacketCommitment(
                       c.host.(nextSequenceSends := c.host.nextSequenceSends[key := Inc64(e.packet.sequence)]), e.packet),
                     bank := TakeTokens(c.bank, c.app, t).value,
                     sent := c.sent + [e])
  {
    hide Encode, ChannelCapabilityPath, TakeTokens, AuthenticateCapability;
  }

  /** Only a packet is added to the host and the log. */
  lemma PacketSent(c: Chain, d: Chain, peer: Chain, e: SendEvent)
    requires LocalInv(c) && Links(c, peer)
    requires |c.sent| < TWO_64 - 2
    requires WellRouted(c.host.store.channels, SourceKey(e.packet), DestinationKey(e.packet))
    requires WellFormed(e, c.app.address)
    requires SourceKey(e.packet) in c.host.nextSequenceSends
    requires e.packet.sequence == c.host.nextSequenceSends[SourceKey(e.packet)]
    requires d == c.(host := SetPacketCommitment(
                       c.host.(nextSequenceSends :=
                                 c.host.nextSequenceSends[SourceKey(e.packet) := Inc64(e.packet.sequence)]), e.packet),
                     bank := d.bank,
                     sent := c.sent + [e])
    ensures Kept(c, d, peer)
  {
    var s := c.host.store;
    hide WellRouted, WellFormed, ConnectionsInv, ChannelsInv, ChannelLogInv, EscrowsInv, SequencesInv, SentInv;
    hide CommittedInv, AcknowledgedInv, ReceivedInv, WrittenInv, ConnectionLinks, ChannelLinks, PacketLinks, ClientsKnow;
    assert e.packet.sequence <= |c.sent| + 1 by { SendsBounded(c.host.nextSequenceSends, s.channels, |c.sent|, SourceKey(e.packet)); }
    SentAppended(c.sent, s.channels, c.host.nextSequenceSends, c.app.address, e);
    CommittedAppended(s.packetCommitments, c.sent, c.acknowledged, s.channels, e);
  }

  lemma SendsBounded(sends: map<ChannelKey, uint64>, ends: Channels, count: nat, key: ChannelKey)
    requires SequencesInv(sends, ends, count) && (key in ends || key in sends)
    ensures key in sends && 1 <= sends[key] <= count + 1
  {
  }

  lemma SendTransferStep(c: Chain, peer: Chain, t: Transfer)
    requires LocalInv(c) && Links(c, peer)
    requires |c.sent| < TWO_64 - 2
    requires t.sender != c.app.address && t.sender != ZERO_ADDRESS
    requires ChainSpec.SendTransfer(c, t).Ok?
    ensures Kept(c, ChainSpec.SendTransfer(c, t).value, peer)
  {
    SendShape(c, t);
    hide ChainSpec.SendTransfer, SetPacketCommitment, Kept, Encode, Decode, TakeTokens;
    var key := ChannelKey(t.port, t.channel);
    var e := TransferEvent(t, SequenceAt(c.host.nextSequenceSends, key), c.host.store.channels[key]);
    DataRoundTrip(e.data);
    hide ConnectionsInv, ChannelsInv, ChannelLogInv, EscrowsInv, SequencesInv, SentInv;
    hide CommittedInv, AcknowledgedInv, ReceivedInv, WrittenInv;
    SendsBounded(c.host.nextSequenceSends, c.host.store.channels, |c.sent|, key);
    hide LocalInv, Links;
    PacketSent(c, ChainSpec.SendTransfer(c, t).value, peer, e);
  }

  // ----- Receiving -----

  /** The end that an open end names points back at it. */
  lemma PeerPointsBack(c: Chain, peer: Chain, key: ChannelKey)
    requires LocalInv(c) && LocalInv(peer) && Links(c, peer)
    requires key in c.host.store.channels && c.host.store.channels[key].state == CHAN_OPEN
    ensures var end := c.host.store.channels[key];
            var other := CounterpartyKey(end);
            && other in peer.host.store.channels
            && CounterpartyKey(peer.host.store.channels[other]) == key
            && peer.host.store.channels[other].ordering == end.ordering
  {
    hide ConnectionsInv, ChannelsInv, ChannelLogInv, EscrowsInv, SequencesInv, SentInv, CommittedInv;
    hide AcknowledgedInv, ReceivedInv, WrittenInv, ConnectionLinks, ChannelLinks, PacketLinks, ClientsKnow;
    var s := c.host.store;
    var other := CounterpartyKey(s.channels[key]);
    ChannelBeginning(s.channels, c.channelOrigins, key);
    ChannelLinkOf(s.channels, c.channelOrigins, s.connections, peer, key);
    assert other in peer.host.store.channels by { OriginKeys(peer.host.store.channels, peer.channelOrigins); }
    ChannelBeginning(peer.host.store.channels, peer.channelOrigins, other);
  }

  lemma OriginKeys(ends: Channels, origins: Channels)
    requires ChannelsInv(ends, origins)
    ensures ends.Keys == origins.Keys
  {
  }

  /** A packet committed under the peer's end is one the peer sent, field by field. */
  lemma CommittedWasSent(sent: seq<SendEvent>, ends: Channels, sends: map<ChannelKey, uint64>, app: Address, i: nat, p: Packet)
    requires SentInv(sent, ends, sends, app)
    requires SentAt(sent, i, SourcePacketKey(p)) && MakePacketCommitment(sent[i].packet) == MakePacketCommitment(p)
    requires SourceKey(p) in ends && DestinationKey(p) == CounterpartyKey(ends[SourceKey(p)])
    ensures sent[i].packet == p && p.sequence >= 1 && WasSent(sent, p)
  {
    hide WellFormed;
    assert SourceKey(sent[i].packet) == SourceKey(p);
    assert WellRouted(ends, SourceKey(p), DestinationKey(sent[i].packet));
    assert sent[i].packet == p;
  }

  /** A verified commitment is that of a packet the peer sent. */
  lemma ProvedPacket(s: HostState, peer: Chain, connection: ConnectionEnd, height: uint64, proof: Bytes, p: Packet)
    requires ClientsKnow(s.store.consensusStates, peer)
    requires ChannelSpec.VerifyPacketCommitment(s, connection, height, proof, p.sourcePort, p.sourceChannel, p.sequence,
                                                MakePacketCommitment(p))
    ensures exists i: nat :: SentAt(peer.sent, i, SourcePacketKey(p))
                             && MakePacketCommitment(peer.sent[i].packet) == MakePacketCommitment(p)
  {
    hide MakePacketCommitment;
    var root := s.store.consensusStates[ConsensusKey(connection.clientId, height)].root;
    assert Past(peer, root);
    assert SourcePacketKey(p) in root.packetCommitments;
  }

  /** What the host checked to receive a packet, and what it stores. */
  lemma HostRecvShape(s: HostState, msg: MsgPacketRecv, env: Env)
    requires ChannelSpec.RecvPacket(s, msg, env).Ok?
    ensures var p := msg.packet;
            var key := DestinationKey(p);
            var t := ChannelSpec.RecvPacket(s, msg, env).value;
            && key in s.store.channels
            && var end := s.store.channels[key];
            && end.state == CHAN_OPEN && SourceKey(p) == CounterpartyKey(end)
            && (exists connection: ConnectionEnd ::
                  ChannelSpec.VerifyPacketCommitment(s, connection, msg.proofHeight, msg.proof, p.sourcePort,
                                                     p.sourceChannel, p.sequence, MakePacketCommitment(p)))
            && end.ordering != ORDER_NONE
            && t == s.(packetReceipts := t.packetReceipts, nextSequenceRecvs := t.nextSequenceRecvs)
            && t.nextSequenceRecvs
               == (if end.ordering == ORDER_ORDERED then s.nextSequenceRecvs[key := Inc64(p.sequence)] else s.nextSequenceRecvs)
            && (end.ordering == ORDER_ORDERED ==> p.sequence == SequenceAt(s.nextSequenceRecvs, key) > 0)
            && t.packetReceipts
               == (if end.ordering == ORDER_ORDERED then s.packetReceipts
                   else s.packetReceipts + {DestinationPacketKey(p)})
  {
    hide ChannelSpec.VerifyPacketCommitment, Inc64;
  }

  /** What a received packet's acceptance checked, and what it stores. */
  lemma RecvShape(c: Chain, msg: MsgPacketRecv, env: Env)
    requires ChainSpec.RecvPacket(c, msg, env).Ok?
    ensures var p := msg.packet;
            var key := DestinationKey(p);
            var d := ChainSpec.RecvPacket(c, msg, env).value;
            && key in c.host.store.channels
            && var end := c.host.store.channels[key];
            && end.state == CHAN_OPEN && SourceKey(p) == CounterpartyKey(end)
            && (exists connection: ConnectionEnd ::
                  ChannelSpec.VerifyPacketCommitment(c.host, connection, msg.proofHeight, msg.proof, p.sourcePort,
                                                     p.sourceChannel, p.sequence, MakePacketCommitment(p)))
            && DestinationPacketKey(p) !in c.host.store.acknowledgements
            && end.ordering != ORDER_NONE
            && d.host.nextSequenceRecvs
               == (if end.ordering == ORDER_ORDERED then c.host.nextSequenceRecvs[key := Inc64(p.sequence)]
                   else c.host.nextSequenceRecvs)
            && (end.ordering == ORDER_ORDERED ==> p.sequence == SequenceAt(c.host.nextSequenceRecvs, key) > 0)
            && d.host.packetReceipts <= c.host.packetReceipts + {DestinationPacketKey(p)}
            && OnRecvPacket(c.bank, c.app, p).Ok?
            && var (bank, ack) := OnRecvPacket(c.bank, c.app, p).value;
            && ack in {ACK_SUCCESS, ACK_FAILURE}
            && d == c.(host := SetAcknowledgement(
                         c.host.(packetReceipts := d.host.packetReceipts, nextSequenceRecvs := d.host.nextSequenceRecvs),
                         DestinationPacketKey(p), ack),
                       bank := bank,
                       received := c.received + [AckEvent(p, ack)],
                       direct := d.direct)
            && Decode(p.data).Ok?
            && var data := Decode(p.data).value;
               d.direct == (if ack == ACK_SUCCESS then PaidDirectly(c, data.receiver, ReceivedDenom(p, data.denom), data.amount)
                            else c.direct)
  {
    var p := msg.packet;
    hide ChannelCapabilityPath, ModuleOwner, ChannelSpec.VerifyPacketCommitment, Decode, ReceivedDenom, PaidDirectly;
    hide ChannelSpec.RecvPacket, OnRecvPacket, SetAcknowledgement;
    RecvAcks(c, p);
    HostRecvShape(c.host, msg, env);
    var host := ChannelSpec.RecvPacket(c.host, msg, env).value;
    var ack := OnRecvPacket(c.bank, c.app, p).value.1;
    var written := ChannelSpec.WriteAcknowledgement(host, p.destinationPort, p.destinationChannel, p.sequence, ack);
    assert written.Ok? && written.value == SetAcknowledgement(host, DestinationPacketKey(p), ack);
    assert SetAcknowledgement(host, DestinationPacketKey(p), ack).nextSequenceRecvs == host.nextSequenceRecvs
           && SetAcknowledgement(host, DestinationPacketKey(p), ack).packetReceipts == host.packetReceipts by {
      AckKeepsReceipts(host, DestinationPacketKey(p), ack);
    }
  }

  lemma AckKeepsReceipts(s: HostState, key: PacketKey, ack: Bytes)
    ensures var t := SetAcknowledgement(s, key, ack);
            t.nextSequenceRecvs == s.nextSequenceRecvs && t.packetReceipts == s.packetReceipts
  {
  }

  lemma RecvAcks(c: Chain, p: Packet)
    requires OnRecvPacket(c.bank, c.app, p).Ok?
    ensures OnRecvPacket(c.bank, c.app, p).value.1 in {ACK_SUCCESS, ACK_FAILURE}
  {
    hide Decode;
  }

  lemma ReceivedAppended(received: seq<AckEvent>, ends: Channels, acks: map<PacketKey, Digest>, e: AckEvent)
    requires ReceivedInv(received, ends) && WrittenInv(acks, received)
    requires WellRouted(ends, DestinationKey(e.packet), SourceKey(e.packet))
    requires e.acknowledgement in {ACK_SUCCESS, ACK_FAILURE}
    requires DestinationPacketKey(e.packet) !in acks
    ensures ReceivedInv(received + [e], ends)
    ensures WrittenInv(acks[DestinationPacketKey(e.packet) := AckDigest(e.acknowledgement)], received + [e])
  {
    hide WellRouted;
    var k := DestinationPacketKey(e.packet);
    var longer := received + [e];
    var more := acks[k := AckDigest(e.acknowledgement)];
    forall key | key in more
      ensures exists i: nat :: ReceivedAt(longer, i, key) && more[key] == AckDigest(longer[i].acknowledgement)
    {
      if key == k {
        assert ReceivedAt(longer, |received|, k);
      } else {
        var i: nat :| ReceivedAt(received, i, key) && acks[key] == AckDigest(received[i].acknowledgement);
        assert ReceivedAt(longer, i, key);
      }
    }
  }

  /** Only an acknowledgement is added to the store and an event to the log. */
  lemma PacketReceived(c: Chain, d: Chain, peer: Chain, e: AckEvent)
    requires LocalInv(c) && Links(c, peer)
    requires WellRouted(c.host.store.channels, DestinationKey(e.packet), SourceKey(e.packet))
    requires e.acknowledgement in {ACK_SUCCESS, ACK_FAILURE}
    requires DestinationPacketKey(e.packet) !in c.host.store.acknowledgements
    requires WasSent(peer.sent, e.packet)
    requires d == c.(host := SetAcknowledgement(
                       c.host.(packetReceipts := d.host.packetReceipts, nextSequenceRecvs := d.host.nextSequenceRecvs),
                       DestinationPacketKey(e.packet), e.acknowledgement),
                     bank := d.bank,
                     received := c.received + [e],
                     direct := d.direct)
    ensures Kept(c, d, peer)
  {
    var s := c.host.store;
    hide WellRouted, ConnectionsInv, ChannelsInv, ChannelLogInv, EscrowsInv, SequencesInv, SentInv, WasSent;
    hide CommittedInv, AcknowledgedInv, ReceivedInv, WrittenInv, ConnectionLinks, ChannelLinks, ClientsKnow;
    ReceivedAppended(c.received, s.channels, s.acknowledgements, e);
  }

  lemma RecvPacketStep(c: Chain, peer: Chain, msg: MsgPacketRecv, env: Env)
    requires LocalInv(c) && Links(c, peer) && LocalInv(peer)
    requires ChainSpec.RecvPacket(c, msg, env).Ok?
    ensures WasSent(peer.sent, msg.packet)
    ensures Kept(c, ChainSpec.RecvPacket(c, msg, env).value, peer)
  {
    var p := msg.packet;
    var d := ChainSpec.RecvPacket(c, msg, env).value;
    RecvShape(c, msg, env);
    hide ChainSpec.RecvPacket, SetAcknowledgement, Kept, Decode, OnRecvPacket, PaidDirectly, ReceivedDenom;
    hide ConnectionsInv, ChannelsInv, ChannelLogInv, EscrowsInv, SequencesInv, SentInv, SentAt, WasSent;
    hide CommittedInv, AcknowledgedInv, ReceivedInv, WrittenInv, ConnectionLinks, ChannelLinks, ClientsKnow, PacketLinks;
    hide ChannelSpec.VerifyPacketCommitment, MakePacketCommitment;
    var connection: ConnectionEnd :|
      ChannelSpec.VerifyPacketCommitment(c.host, connection, msg.proofHeight, msg.proof, p.sourcePort,
                                         p.sourceChannel, p.sequence, MakePacketCommitment(p));
    ProvedPacket(c.host, peer, connection, msg.proofHeight, msg.proof, p);
    var i: nat :| SentAt(peer.sent, i, SourcePacketKey(p)) && MakePacketCommitment(peer.sent[i].packet) == MakePacketCommitment(p);
    PeerPointsBack(c, peer, DestinationKey(p));
    CommittedWasSent(peer.sent, peer.host.store.channels, peer.host.nextSequenceSends, peer.app.address, i, p);
    hide LocalInv, Links;
    PacketReceived(c, d, peer, AckEvent(p, OnRecvPacket(c.bank, c.app, p).value.1));
  }

  // ----- Acknowledging -----

  /** What an acknowledgement's acceptance checked, and what it stores. */
  lemma AckShape(c: Chain, msg: MsgPacketAcknowledgement)
    requires ChainSpec.AcknowledgePacket(c, msg).Ok?
    ensures var p := msg.packet;
            var key := SourceKey(p);
            var d := ChainSpec.AcknowledgePacket(c, msg).value;
            && key in c.host.store.channels
            && var end := c.host.store.channels[key];
            && end.state == CHAN_OPEN && DestinationKey(p) == CounterpartyKey(end)
            && SourcePacketKey(p) in c.host.store.packetCommitments
            && c.host.store.packetCommitments[SourcePacketKey(p)] == MakePacketCommitment(p)
            && (exists connection: ConnectionEnd ::
                  ChannelSpec.VerifyPacketAcknowledgement(c.host, connection, msg.proofHeight, msg.proof, p.destinationPort,
                                                          p.destinationChannel, p.sequence, msg.acknowledgement))
            && (end.ordering == ORDER_ORDERED ==> p.sequence == 0)
            && |msg.acknowledgement| == 1
            && OnAcknowledgementPacket(c.bank, c.app, p, msg.acknowledgement).Ok?
            && d == c.(host := DeletePacketCommitment(c.host.(nextSequenceAcks := d.host.nextSequenceAcks),
                                                      SourcePacketKey(p)),
                       bank := OnAcknowledgementPacket(c.bank, c.app, p, msg.acknowledgement).value,
                       acknowledged := c.acknowledged + [AckEvent(p, msg.acknowledgement)])
  {
    hide ChannelCapabilityPath, ModuleOwner, ChannelSpec.VerifyPacketAcknowledgement;
    assert |msg.acknowledgement| == 1;
    hide OnAcknowledgementPacket;
  }

  /** A verified acknowledgement is what the peer wrote. */
  lemma ProvedAcknowledgement(s: HostState, peer: Chain, connection: ConnectionEnd, height: uint64, proof: Bytes,
                              p: Packet, ack: Bytes)
    requires ClientsKnow(s.store.consensusStates, peer)
    requires ChannelSpec.VerifyPacketAcknowledgement(s, connection, height, proof, p.destinationPort, p.destinationChannel,
                                                     p.sequence, ack)
    ensures DestinationPacketKey(p) in peer.host.store.acknowledgements
    ensures peer.host.store.acknowledgements[DestinationPacketKey(p)] == AckDigest(ack)
  {
    var root := s.store.consensusStates[ConsensusKey(connection.clientId, height)].root;
    assert Past(peer, root);
    assert DestinationPacketKey(p) in root.acknowledgements;
  }

  /** The committed packet is the one sent under that key. */
  lemma CommittedHere(commitments: map<PacketKey, Digest>, sent: seq<SendEvent>, acknowledged: seq<AckEvent>, ends: Channels,
                      sends: map<ChannelKey, uint64>, app: Address, p: Packet)
    requires CommittedInv(commitments, sent, acknowledged) && SentInv(sent, ends, sends, app)
    requires SourcePacketKey(p) in commitments && commitments[SourcePacketKey(p)] == MakePacketCommitment(p)
    requires SourceKey(p) in ends && DestinationKey(p) == CounterpartyKey(ends[SourceKey(p)])
    ensures WasSent(sent, p) && p.sequence >= 1
    ensures !IsAcknowledged(acknowledged, SourcePacketKey(p))
  {
    var i: nat :| SentAt(sent, i, SourcePacketKey(p)) && commitments[SourcePacketKey(p)] == MakePacketCommitment(sent[i].packet);
    assert SourcePacketKey(sent[i].packet) == SourcePacketKey(p);
    hide SentInv, MakePacketCommitment;
    CommittedWasSent(sent, ends, sends, app, i, p);
  }

  lemma CommittedDeleted(commitments: map<PacketKey, Digest>, sent: seq<SendEvent>, acknowledged: seq<AckEvent>,
                         ends: Channels, e: AckEvent)
    requires CommittedInv(commitments, sent, acknowledged) && AcknowledgedInv(acknowledged, sent, ends)
    requires WasSent(sent, e.packet) && !IsAcknowledged(acknowledged, SourcePacketKey(e.packet))
    requires SourceKey(e.packet) in ends && ends[SourceKey(e.packet)].ordering != ORDER_ORDERED
    requires |e.acknowledgement| == 1
    ensures CommittedInv(commitments - {SourcePacketKey(e.packet)}, sent, acknowledged + [e])
    ensures AcknowledgedInv(acknowledged + [e], sent, ends)
  {
    hide WasSent, MakePacketCommitment;
    var k := SourcePacketKey(e.packet);
    var longer := acknowledged + [e];
    assert AcknowledgedAt(longer, |acknowledged|, k);
    forall key | key != k
      ensures IsAcknowledged(longer, key) <==> IsAcknowledged(acknowledged, key)
    {
      assert forall j: nat :: AcknowledgedAt(longer, j, key) <==> AcknowledgedAt(acknowledged, j, key);
    }
    forall j: nat | j < |acknowledged|
      ensures SourcePacketKey(acknowledged[j].packet) != k
    {
      assert !AcknowledgedAt(acknowledged, j, k);
    }
  }

  /** Only a commitment is deleted from the store and an event added to the log. */
  lemma PacketAcknowledged(c: Chain, d: Chain, peer: Chain, e: AckEvent)
    requires LocalInv(c) && Links(c, peer)
    requires WasSent(c.sent, e.packet) && !IsAcknowledged(c.acknowledged, SourcePacketKey(e.packet))
    requires SourceKey(e.packet) in c.host.store.channels
    requires c.host.store.channels[SourceKey(e.packet)].ordering != ORDER_ORDERED
    requires |e.acknowledgement| == 1
    requires DestinationPacketKey(e.packet) in peer.host.store.acknowledgements
    requires peer.host.store.acknowledgements[DestinationPacketKey(e.packet)] == AckDigest(e.acknowledgement)
    requires d == c.(host := DeletePacketCommitment(c.host.(nextSequenceAcks := d.host.nextSequenceAcks),
                                                    SourcePacketKey(e.packet)),
                     bank := d.bank,
                     acknowledged := c.acknowledged + [e])
    ensures Kept(c, d, peer)
  {
    var s := c.host.store;
    hide ConnectionsInv, ChannelsInv, ChannelLogInv, EscrowsInv, SequencesInv, SentInv, WasSent, IsAcknowledged;
    hide CommittedInv, AcknowledgedInv, ReceivedInv, WrittenInv, ConnectionLinks, ChannelLinks, ClientsKnow;
    CommittedDeleted(s.packetCommitments, c.sent, c.acknowledged, s.channels, e);
  }

  lemma AcknowledgePacketStep(c: Chain, peer: Chain, msg: MsgPacketAcknowledgement)
    requires LocalInv(c) && Links(c, peer)
    requires ChainSpec.AcknowledgePacket(c, msg).Ok?
    ensures WasSent(c.sent, msg.packet) && !IsAcknowledged(c.acknowledged, SourcePacketKey(msg.packet))
    ensures DestinationPacketKey(msg.packet) in peer.host.store.acknowledgements
    ensures peer.host.store.acknowledgements[DestinationPacketKey(msg.packet)] == AckDigest(msg.acknowledgement)
    ensures Kept(c, ChainSpec.AcknowledgePacket(c, msg).value, peer)
  {
    var p := msg.packet;
    var d := ChainSpec.AcknowledgePacket(c, msg).value;
    AckShape(c, msg);
    hide ChainSpec.AcknowledgePacket, DeletePacketCommitment, Kept, OnAcknowledgementPacket;
    hide ConnectionsInv, ChannelsInv, ChannelLogInv, EscrowsInv, SequencesInv, SentInv, WasSent, IsAcknowledged;
    hide CommittedInv, AcknowledgedInv, ReceivedInv, WrittenInv, ConnectionLinks, ChannelLinks, ClientsKnow, PacketLinks;
    hide ChannelSpec.VerifyPacketAcknowledgement, MakePacketCommitment;
    var connection: ConnectionEnd :|
      ChannelSpec.VerifyPacketAcknowledgement(c.host, connection, msg.proofHeight, msg.proof, p.destinationPort,
                                              p.destinationChannel, p.sequence, msg.acknowledgement);
    ProvedAcknowledgement(c.host, peer, connection, msg.proofHeight, msg.proof, p, msg.acknowledgement);
    CommittedHere(c.host.store.packetCommitments, c.sent, c.acknowledged, c.host.store.channels, c.host.nextSequenceSends,
                  c.app.address, p);
    hide LocalInv, Links;
    PacketAcknowledged(c, d, peer, AckEvent(p, msg.acknowledgement));
  }
}
