/** The channel handshake and the packet flow, on the host contract. */
module ChannelContract {
  import opened Prelude
  import opened IBCIdentifier
  import opened IBCTypes
  import opened HostSpec
  import opened ChannelSpec
  import opened HostContract
  import opened ClientContract

  // ----- Channel handshake -----

  method HopOf(host: IBCHost, channel: Channel) returns (r: Result<ConnectionEnd>)
    ensures r == HopConnection(host.State(), channel)
  {
    if |channel.connectionHops| != 1 {
      return Revert;
    }
    var connection, found := host.GetConnection(channel.connectionHops[0]);
    if !found || |connection.versions| != 1 {
      return Revert;
    }
    return Ok(connection);
  }

  method OpenHopOf(host: IBCHost, channel: Channel) returns (r: Result<ConnectionEnd>)
    ensures r == OpenConnection(host.State(), channel)
  {
    if |channel.connectionHops| == 0 {
      return Revert;
    }
    var connection, found := host.GetConnection(channel.connectionHops[0]);
    if !found || connection.state != CONN_OPEN {
      return Revert;
    }
    return Ok(connection);
  }

  /** `getCounterpartyHops`. */
  method CounterpartyHops(host: IBCHost, channel: Channel) returns (r: Result<seq<Bytes>>)
    ensures r == GetCounterpartyHops(host.State(), channel)
  {
    if |channel.connectionHops| != 1 {
      return Revert;
    }
    var connection, found := host.GetConnection(channel.connectionHops[0]);
    if !found {
      return Revert;
    }
    return Ok([connection.counterparty.connectionId]);
  }

  method Add(host: IBCHost, portId: Bytes, channel: Channel) returns (id: Bytes)
    requires host.Valid()
    modifies host
    ensures SlashFree(portId) ==> host.Valid()
    ensures (host.State(), id) == AddChannel(old(host.State()), portId, channel)
  {
    hide ChannelId, SlashFree, Synced;
    ChannelIdSlashFree(host.nextChannelSequence);
    id := host.GenerateChannelIdentifier();
    host.SetChannel(portId, id, channel);
    host.SetNextSequenceSend(ChannelKey(portId, id), 1);
    host.SetNextSequenceRecv(ChannelKey(portId, id), 1);
    host.SetNextSequenceAck(ChannelKey(portId, id), 1);
  }

  method OpenInit(host: IBCHost, msg: MsgChannelOpenInit) returns (r: Result<Bytes>)
    requires host.Valid()
    modifies host
    ensures match ChannelOpenInit(old(host.State()), msg)
            case Ok((s, id)) => r == Ok(id) && (SlashFree(msg.portId) ==> host.Valid()) && host.State() == s
            case Revert => r.Revert?
  {
    hide AddChannel, HopConnection, SlashFree;
    var connection := HopOf(host, msg.channel);
    if connection.Revert? || msg.channel.state != CHAN_INIT {
      return Revert;
    }
    var id := Add(host, msg.portId, msg.channel);
    return Ok(id);
  }

  method OpenTry(host: IBCHost, msg: MsgChannelOpenTry) returns (r: Result<Bytes>)
    requires host.Valid()
    modifies host
    ensures match ChannelOpenTry(old(host.State()), msg)
            case Ok((s, id)) => r == Ok(id) && (SlashFree(msg.portId) ==> host.Valid()) && host.State() == s
            case Revert => r.Revert?
  {
    hide AddChannel, HopConnection, GetCounterpartyHops, SlashFree, VerifyMembership;
    var connection := HopOf(host, msg.channel);
    if connection.Revert? || msg.channel.state != CHAN_TRYOPEN {
      return Revert;
    }
    var hops := CounterpartyHops(host, msg.channel);
    if hops.Revert? {
      return Revert;
    }
    var expected :=
      Channel(CHAN_INIT, msg.channel.ordering, ChannelCounterparty(msg.portId, []), hops.value, msg.counterpartyVersion);
    var end := connection.value;
    var proved := Verify(host, end.clientId, msg.proofHeight, end.counterparty.prefix, msg.proofInit,
                         ChannelPath(msg.channel.counterparty.portId, msg.channel.counterparty.channelId), ChannelDigest(expected));
    if !proved {
      return Revert;
    }
    var id := Add(host, msg.portId, msg.channel);
    return Ok(id);
  }

  /** A stored channel has no '/' in its names. */
  lemma StoredSlashFree(host: IBCHost, portId: Bytes, channelId: Bytes)
    requires host.Valid() && GetChannel(host.State(), portId, channelId).Ok?
    ensures SlashFree(portId) && SlashFree(channelId)
  {
    hide Synced;
  }

  method OpenAck(host: IBCHost, msg: MsgChannelOpenAck) returns (r: Result<()>)
    requires host.Valid()
    modifies host
    ensures match ChannelOpenAck(old(host.State()), msg)
            case Ok(s) => r.Ok? && host.Valid() && host.State() == s
            case Revert => r.Revert?
  {
    hide OpenConnection, GetCounterpartyHops, SlashFree, VerifyMembership, Synced;
    var channel, found := host.GetChannel(msg.portId, msg.channelId);
    if !found || (channel.state != CHAN_INIT && channel.state != CHAN_TRYOPEN) {
      return Revert;
    }
    var connection := OpenHopOf(host, channel);
    if connection.Revert? {
      return Revert;
    }
    var hops := CounterpartyHops(host, channel);
    if hops.Revert? {
      return Revert;
    }
    var expected :=
      Channel(CHAN_TRYOPEN, channel.ordering, ChannelCounterparty(msg.portId, msg.channelId), hops.value, msg.counterpartyVersion);
    var end := connection.value;
    var proved := Verify(host, end.clientId, msg.proofHeight, end.counterparty.prefix, msg.proofTry,
                         ChannelPath(channel.counterparty.portId, msg.counterpartyChannelId), ChannelDigest(expected));
    if !proved {
      return Revert;
    }
    StoredSlashFree(host, msg.portId, msg.channelId);
    channel := channel.(state := CHAN_OPEN, version := msg.counterpartyVersion,
                        counterparty := channel.counterparty.(channelId := msg.counterpartyChannelId));
    host.SetChannel(msg.portId, msg.channelId, channel);
    return Ok(());
  }

  method OpenConfirm(host: IBCHost, msg: MsgChannelOpenConfirm) returns (r: Result<()>)
    requires host.Valid()
    modifies host
    ensures match ChannelOpenConfirm(old(host.State()), msg)
            case Ok(s) => r.Ok? && host.Valid() && host.State() == s
            case Revert => r.Revert?
  {
    hide OpenConnection, GetCounterpartyHops, SlashFree, VerifyMembership, Synced;
    var channel, found := host.GetChannel(msg.portId, msg.channelId);
    if !found || channel.state != CHAN_TRYOPEN {
      return Revert;
    }
    var connection := OpenHopOf(host, channel);
    if connection.Revert? {
      return Revert;
    }
    var hops := CounterpartyHops(host, channel);
    if hops.Revert? {
      return Revert;
    }
    var expected :=
      Channel(CHAN_OPEN, channel.ordering, ChannelCounterparty(msg.portId, msg.channelId), hops.value, channel.version);
    var end := connection.value;
    var proved := Verify(host, end.clientId, msg.proofHeight, end.counterparty.prefix, msg.proofAck,
                         ChannelPath(channel.counterparty.portId, channel.counterparty.channelId), ChannelDigest(expected));
    if !proved {
      return Revert;
    }
    StoredSlashFree(host, msg.portId, msg.channelId);
    host.SetChannel(msg.portId, msg.channelId, channel.(state := CHAN_OPEN));
    return Ok(());
  }

  // ----- Packet flow -----

  method Send(host: IBCHost, p: Packet) returns (r: Result<()>)
    requires host.Valid()
    modifies host
    ensures match SendPacket(old(host.State()), p)
            case Ok(s) => r.Ok? && host.Valid() && host.State() == s
            case Revert => r.Revert?
  {
    hide SlashFree, Synced, HasClientImpl, MakePacketCommitment, CommittedAt;
    var channel, found := host.GetChannel(p.sourcePort, p.sourceChannel);
    if !found || channel.state != CHAN_OPEN
       || p.destinationPort != channel.counterparty.portId || p.destinationChannel != channel.counterparty.channelId
       || |channel.connectionHops| == 0 {
      return Revert;
    }
    var connection: ConnectionEnd;
    connection, found := host.GetConnection(channel.connectionHops[0]);
    if !found {
      return Revert;
    }
    found := HasClient(host, connection.clientId);
    if !found {
      return Revert;
    }
    var latestHeight :=
      if connection.clientId in host.clientStates then host.clientStates[connection.clientId].latestHeight else 0;
    if p.timeoutHeight.revisionHeight != 0 && latestHeight >= p.timeoutHeight.revisionHeight {
      return Revert;
    }
    var at := ConsensusKey(connection.clientId, latestHeight);
    if at !in host.consensusStates {
      return Revert;
    }
    if p.timeoutTimestamp != 0 && host.consensusStates[at].timestamp >= p.timeoutTimestamp {
      return Revert;
    }
    var key := SourceKey(p);
    var nextSequenceSend := if key in host.nextSequenceSends then host.nextSequenceSends[key] else 0;
    if nextSequenceSend == 0 || p.sequence != nextSequenceSend {
      return Revert;
    }
    StoredSlashFree(host, p.sourcePort, p.sourceChannel);
    host.SetNextSequenceSend(key, Inc64(nextSequenceSend));
    host.SetPacketCommitment(p);
    return Ok(());
  }

  method Recv(host: IBCHost, msg: MsgPacketRecv, env: Env) returns (r: Result<()>)
    requires host.Valid()
    modifies host
    ensures match RecvPacket(old(host.State()), msg, env)
            case Ok(s) => r.Ok? && host.Valid() && host.State() == s
            case Revert => r.Revert?
  {
    hide OpenConnection, SlashFree, VerifyMembership, Synced, TimedOut, MakePacketCommitment;
    var p := msg.packet;
    var channel, found := host.GetChannel(p.destinationPort, p.destinationChannel);
    if !found || channel.state != CHAN_OPEN
       || p.sourcePort != channel.counterparty.portId || p.sourceChannel != channel.counterparty.channelId {
      return Revert;
    }
    var connection := OpenHopOf(host, channel);
    if connection.Revert? || TimedOut(p, env.number, env.timestamp) {
      return Revert;
    }
    var end := connection.value;
    var proved := Verify(host, end.clientId, msg.proofHeight, end.counterparty.prefix, msg.proof,
                         PacketPath(p.sourcePort, p.sourceChannel, p.sequence), MakePacketCommitment(p));
    if !proved {
      return Revert;
    }
    var key := DestinationKey(p);
    if channel.ordering == ORDER_UNORDERED {
      if PacketKey(key, p.sequence) in host.packetReceipts {
        return Revert;
      }
      host.SetPacketReceipt(PacketKey(key, p.sequence));
    } else if channel.ordering == ORDER_ORDERED {
      var nextSequenceRecv := if key in host.nextSequenceRecvs then host.nextSequenceRecvs[key] else 0;
      if nextSequenceRecv == 0 || nextSequenceRecv != p.sequence {
        return Revert;
      }
      host.SetNextSequenceRecv(key, Inc64(nextSequenceRecv));
    } else {
      return Revert;
    }
    return Ok(());
  }

  method WriteAck(host: IBCHost, portId: Bytes, channelId: Bytes, sequence: uint64, ack: Bytes) returns (r: Result<()>)
    requires host.Valid()
    modifies host
    ensures match WriteAcknowledgement(old(host.State()), portId, channelId, sequence, ack)
            case Ok(s) => r.Ok? && host.Valid() && host.State() == s
            case Revert => r.Revert?
  {
    hide SlashFree, Synced;
    var channel, found := host.GetChannel(portId, channelId);
    if !found || channel.state != CHAN_OPEN {
      return Revert;
    }
    var key := PacketKey(ChannelKey(portId, channelId), sequence);
    var written := host.GetPacketAcknowledgementCommitment(key);
    if written.Some? || |ack| == 0 {
      return Revert;
    }
    StoredSlashFree(host, portId, channelId);
    host.SetPacketAcknowledgementCommitment(key, ack);
    return Ok(());
  }

  method Acknowledge(host: IBCHost, msg: MsgPacketAcknowledgement) returns (r: Result<()>)
    requires host.Valid()
    modifies host
    ensures match AcknowledgePacket(old(host.State()), msg)
            case Ok(s) => r.Ok? && host.Valid() && host.State() == s
            case Revert => r.Revert?
  {
    hide OpenConnection, SlashFree, VerifyMembership, Synced, MakePacketCommitment;
    var p := msg.packet;
    var channel, found := host.GetChannel(p.sourcePort, p.sourceChannel);
    if !found || channel.state != CHAN_OPEN
       || p.destinationPort != channel.counterparty.portId || p.destinationChannel != channel.counterparty.channelId {
      return Revert;
    }
    var connection := OpenHopOf(host, channel);
    if connection.Revert? {
      return Revert;
    }
    var commitment := host.GetPacketCommitment(SourcePacketKey(p));
    if commitment != Some(MakePacketCommitment(p)) {
      return Revert;
    }
    var end := connection.value;
    var proved := Verify(host, end.clientId, msg.proofHeight, end.counterparty.prefix, msg.proof,
                         AckPath(p.destinationPort, p.destinationChannel, p.sequence), AckDigest(msg.acknowledgement));
    if !proved {
      return Revert;
    }
    if channel.ordering == ORDER_ORDERED {
      var key := SourceKey(p);
      var nextSequenceAck := if key in host.nextSequenceAcks then host.nextSequenceAcks[key] else 0;
      if nextSequenceAck != 0 || p.sequence != nextSequenceAck {
        return Revert;
      }
      host.SetNextSequenceAck(key, Inc64(nextSequenceAck));
    }
    StoredSlashFree(host, p.sourcePort, p.sourceChannel);
    host.DeletePacketCommitment(SourcePacketKey(p));
    return Ok(());
  }
}
