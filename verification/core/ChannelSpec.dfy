/** The channel handshake and the packet flow as functions of the host's state. */
module ChannelSpec {
  import opened Prelude
  import opened IBCIdentifier
  import opened IBCTypes
  import opened HostSpec

  predicate VerifyChannelState(s: HostState, connection: ConnectionEnd, height: uint64, proof: Bytes,
                               portId: Bytes, channelId: Bytes, expected: Channel)
  {
    VerifyMembership(s, connection.clientId, height, connection.counterparty.prefix, proof,
                     ChannelPath(portId, channelId), ChannelDigest(expected))
  }

  predicate VerifyPacketCommitment(s: HostState, connection: ConnectionEnd, height: uint64, proof: Bytes,
                                   portId: Bytes, channelId: Bytes, sequence: uint64, commitment: Digest)
  {
    VerifyMembership(s, connection.clientId, height, connection.counterparty.prefix, proof,
                     PacketPath(portId, channelId, sequence), commitment)
  }

  predicate VerifyPacketAcknowledgement(s: HostState, connection: ConnectionEnd, height: uint64, proof: Bytes,
                                        portId: Bytes, channelId: Bytes, sequence: uint64, acknowledgement: Bytes)
  {
    VerifyMembership(s, connection.clientId, height, connection.counterparty.prefix, proof,
                     AckPath(portId, channelId, sequence), AckDigest(acknowledgement))
  }

  function GetCounterpartyHops(s: HostState, channel: Channel): Result<seq<Bytes>> {
    var _ :- Require(|channel.connectionHops| == 1);
    var connection :- GetConnection(s, channel.connectionHops[0]);
    Ok([connection.counterparty.connectionId])
  }

  /** Stores a channel under a freshly generated identifier, with its sequences at 1. */
  function AddChannel(s: HostState, portId: Bytes, channel: Channel): (HostState, Bytes) {
    var channelId := ChannelId(s.nextChannelSequence);
    var key := ChannelKey(portId, channelId);
    var s1 := SetChannel(s.(nextChannelSequence := Inc64(s.nextChannelSequence)), portId, channelId, channel);
    (s1.(nextSequenceSends := s1.nextSequenceSends[key := 1],
         nextSequenceRecvs := s1.nextSequenceRecvs[key := 1],
         nextSequenceAcks := s1.nextSequenceAcks[key := 1]),
     channelId)
  }

  /** The connection a new channel runs over. */
  function HopConnection(s: HostState, channel: Channel): Result<ConnectionEnd> {
    var _ :- Require(|channel.connectionHops| == 1);
    var connection :- GetConnection(s, channel.connectionHops[0]);
    var _ :- Require(|connection.versions| == 1);
    Ok(connection)
  }

  function ChannelOpenInit(s: HostState, msg: MsgChannelOpenInit): Result<(HostState, Bytes)> {
    var _ :- HopConnection(s, msg.channel);
    var _ :- Require(msg.channel.state == CHAN_INIT);
    Ok(AddChannel(s, msg.portId, msg.channel))
  }

  function ChannelOpenTry(s: HostState, msg: MsgChannelOpenTry): Result<(HostState, Bytes)> {
    var connection :- HopConnection(s, msg.channel);
    var _ :- Require(msg.channel.state == CHAN_TRYOPEN);
    var hops :- GetCounterpartyHops(s, msg.channel);
    var expected :=
      Channel(CHAN_INIT, msg.channel.ordering, ChannelCounterparty(msg.portId, []), hops, msg.counterpartyVersion);
    var _ :- Require(VerifyChannelState(s, connection, msg.proofHeight, msg.proofInit,
                                        msg.channel.counterparty.portId, msg.channel.counterparty.channelId, expected));
    Ok(AddChannel(s, msg.portId, msg.channel))
  }

  /** The open connection under a stored channel. */
  function OpenConnection(s: HostState, channel: Channel): Result<ConnectionEnd> {
    var _ :- Require(|channel.connectionHops| > 0);
    var connection :- GetConnection(s, channel.connectionHops[0]);
    var _ :- Require(connection.state == CONN_OPEN);
    Ok(connection)
  }

  function ChannelOpenAck(s: HostState, msg: MsgChannelOpenAck): Result<HostState> {
    var channel :- GetChannel(s, msg.portId, msg.channelId);
    var _ :- Require(channel.state == CHAN_INIT || channel.state == CHAN_TRYOPEN);
    var connection :- OpenConnection(s, channel);
    var hops :- GetCounterpartyHops(s, channel);
    var expected :=
      Channel(CHAN_TRYOPEN, channel.ordering, ChannelCounterparty(msg.portId, msg.channelId), hops,
              msg.counterpartyVersion);
    var _ :- Require(VerifyChannelState(s, connection, msg.proofHeight, msg.proofTry,
                                        channel.counterparty.portId, msg.counterpartyChannelId, expected));
    Ok(SetChannel(s, msg.portId, msg.channelId,
                  channel.(state := CHAN_OPEN, version := msg.counterpartyVersion,
                           counterparty := channel.counterparty.(channelId := msg.counterpartyChannelId))))
  }

  function ChannelOpenConfirm(s: HostState, msg: MsgChannelOpenConfirm): Result<HostState> {
    var channel :- GetChannel(s, msg.portId, msg.channelId);
    var _ :- Require(channel.state == CHAN_TRYOPEN);
    var connection :- OpenConnection(s, channel);
    var hops :- GetCounterpartyHops(s, channel);
    var expected :=
      Channel(CHAN_OPEN, channel.ordering, ChannelCounterparty(msg.portId, msg.channelId), hops, channel.version);
    var _ :- Require(VerifyChannelState(s, connection, msg.proofHeight, msg.proofAck,
                                        channel.counterparty.portId, channel.counterparty.channelId, expected));
    Ok(SetChannel(s, msg.portId, msg.channelId, channel.(state := CHAN_OPEN)))
  }

  // ----- Packet flow -----

  /** The latest height of a client, 0 when there is no such client. */
  function LatestHeight(s: HostState, clientId: Bytes): uint64 {
    if clientId in s.store.clientStates then s.store.clientStates[clientId].latestHeight else 0
  }

  predicate TimedOut(p: Packet, number: nat, timestamp: nat) {
    || (p.timeoutHeight.revisionHeight != 0 && number >= p.timeoutHeight.revisionHeight)
    || (p.timeoutTimestamp != 0 && timestamp >= p.timeoutTimestamp)
  }

  function SendPacket(s: HostState, p: Packet): Result<HostState> {
    var channel :- GetChannel(s, p.sourcePort, p.sourceChannel);
    var _ :- Require(channel.state == CHAN_OPEN);
    var _ :- Require(p.destinationPort == channel.counterparty.portId);
    var _ :- Require(p.destinationChannel == channel.counterparty.channelId);
    var _ :- Require(|channel.connectionHops| > 0);
    var connection :- GetConnection(s, channel.connectionHops[0]);
    var _ :- Require(HasClientImpl(s, connection.clientId));
    var latest := LatestHeight(s, connection.clientId);
    var _ :- Require(ConsensusKey(connection.clientId, latest) in s.store.consensusStates);
    var timestamp := s.store.consensusStates[ConsensusKey(connection.clientId, latest)].timestamp;
    var _ :- Require(!TimedOut(p, latest, timestamp));
    var next := SequenceAt(s.nextSequenceSends, SourceKey(p));
    var _ :- Require(next > 0 && p.sequence == next);
    Ok(SetPacketCommitment(s.(nextSequenceSends := s.nextSequenceSends[SourceKey(p) := Inc64(next)]), p))
  }

  function RecvPacket(s: HostState, msg: MsgPacketRecv, env: Env): Result<HostState> {
    var p := msg.packet;
    var key := DestinationKey(p);
    var channel :- GetChannel(s, p.destinationPort, p.destinationChannel);
    var _ :- Require(channel.state == CHAN_OPEN);
    var _ :- Require(p.sourcePort == channel.counterparty.portId);
    var _ :- Require(p.sourceChannel == channel.counterparty.channelId);
    var connection :- OpenConnection(s, channel);
    var _ :- Require(!TimedOut(p, env.number, env.timestamp));
    var _ :- Require(VerifyPacketCommitment(s, connection, msg.proofHeight, msg.proof, p.sourcePort, p.sourceChannel,
                                            p.sequence, MakePacketCommitment(p)));
    match channel.ordering
    case ORDER_UNORDERED =>
      var _ :- Require(PacketKey(key, p.sequence) !in s.packetReceipts);
      Ok(s.(packetReceipts := s.packetReceipts + {PacketKey(key, p.sequence)}))
    case ORDER_ORDERED =>
      var next := SequenceAt(s.nextSequenceRecvs, key);
      var _ :- Require(next > 0 && next == p.sequence);
      Ok(s.(nextSequenceRecvs := s.nextSequenceRecvs[key := Inc64(next)]))
    case ORDER_NONE => Revert
  }

  function WriteAcknowledgement(s: HostState, portId: Bytes, channelId: Bytes, sequence: uint64, ack: Bytes):
    Result<HostState>
  {
    var channel :- GetChannel(s, portId, channelId);
    var _ :- Require(channel.state == CHAN_OPEN);
    var key := PacketKey(ChannelKey(portId, channelId), sequence);
    var _ :- Require(key !in s.store.acknowledgements);
    var _ :- Require(|ack| > 0);
    Ok(SetAcknowledgement(s, key, ack))
  }

  function AcknowledgePacket(s: HostState, msg: MsgPacketAcknowledgement): Result<HostState> {
    var p := msg.packet;
    var key := SourcePacketKey(p);
    var channel :- GetChannel(s, p.sourcePort, p.sourceChannel);
    var _ :- Require(channel.state == CHAN_OPEN);
    var _ :- Require(p.destinationPort == channel.counterparty.portId);
    var _ :- Require(p.destinationChannel == channel.counterparty.channelId);
    var connection :- OpenConnection(s, channel);
    var _ :- Require(key in s.store.packetCommitments && s.store.packetCommitments[key] == MakePacketCommitment(p));
    var _ :- Require(VerifyPacketAcknowledgement(s, connection, msg.proofHeight, msg.proof, p.destinationPort,
                                                 p.destinationChannel, p.sequence, msg.acknowledgement));
    if channel.ordering == ORDER_ORDERED then
      var next := SequenceAt(s.nextSequenceAcks, SourceKey(p));
      var _ :- Require(next == 0 && p.sequence == next);
      Ok(DeletePacketCommitment(s.(nextSequenceAcks := s.nextSequenceAcks[SourceKey(p) := Inc64(next)]), key))
    else
      Ok(DeletePacketCommitment(s, key))
  }
}
