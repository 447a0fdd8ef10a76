/** The records the host stores and the messages the handler accepts. */
module IBCTypes {
  import opened Prelude
  import opened IBCIdentifier

  // ----- Connections -----

  datatype ConnectionState = CONN_UNINITIALIZED | CONN_INIT | CONN_TRYOPEN | CONN_OPEN

  datatype Version = Version(identifier: Bytes, features: seq<Bytes>)

  datatype Counterparty = Counterparty(clientId: Bytes, connectionId: Bytes, prefix: Bytes)

  datatype ConnectionEnd = ConnectionEnd(
    clientId: Bytes,
    versions: seq<Version>,
    state: ConnectionState,
    delayPeriod: uint64,
    counterparty: Counterparty)

  // ----- Channels and packets -----

  datatype ChannelState = CHAN_UNINITIALIZED | CHAN_INIT | CHAN_TRYOPEN | CHAN_OPEN | CHAN_CLOSED

  datatype Order = ORDER_NONE | ORDER_UNORDERED | ORDER_ORDERED

  datatype ChannelCounterparty = ChannelCounterparty(portId: Bytes, channelId: Bytes)

  datatype Channel = Channel(
    state: ChannelState,
    ordering: Order,
    counterparty: ChannelCounterparty,
    connectionHops: seq<Bytes>,
    version: Bytes)

  datatype Height = Height(revisionNumber: uint64, revisionHeight: uint64)

  datatype Packet = Packet(
    sequence: uint64,
    sourcePort: Bytes,
    sourceChannel: Bytes,
    destinationPort: Bytes,
    destinationChannel: Bytes,
    data: Bytes,
    timeoutHeight: Height,
    timeoutTimestamp: uint64)

  datatype ChannelKey = ChannelKey(portId: Bytes, channelId: Bytes)

  datatype PacketKey = PacketKey(channel: ChannelKey, sequence: uint64)

  function SourceKey(p: Packet): ChannelKey {
    ChannelKey(p.sourcePort, p.sourceChannel)
  }

  function DestinationKey(p: Packet): ChannelKey {
    ChannelKey(p.destinationPort, p.destinationChannel)
  }

  function SourcePacketKey(p: Packet): PacketKey {
    PacketKey(SourceKey(p), p.sequence)
  }

  function DestinationPacketKey(p: Packet): PacketKey {
    PacketKey(DestinationKey(p), p.sequence)
  }

  // ----- Light client states and committed stores -----

  /** A client state; `rest` stands for the fields that only the light client reads. */
  datatype ClientState = ClientState(latestHeight: uint64, rest: Bytes)

  /**
   A consensus state. The storage root is an injective digest of what the counterparty
   had committed at that height, so that store stands for it; `rest` is what only the
   light client reads.
   */
  datatype ConsensusState = ConsensusState(timestamp: uint64, root: Store, rest: Bytes)

  datatype ConsensusKey = ConsensusKey(clientId: Bytes, height: uint64)

  /** What a host commits to, as six separate maps. */
  datatype Store = Store(
    clientStates: map<Bytes, ClientState>,
    consensusStates: map<ConsensusKey, ConsensusState>,
    connections: map<Bytes, ConnectionEnd>,
    channels: map<ChannelKey, Channel>,
    packetCommitments: map<PacketKey, Digest>,
    acknowledgements: map<PacketKey, Digest>)

  /** The digest of an encoded record, injective in the record. */
  datatype Digest =
    | ClientDigest(clientState: ClientState)
    | ConsensusDigest(consensusState: ConsensusState)
    | ConnectionDigest(connection: ConnectionEnd)
    | ChannelDigest(channel: Channel)
    | PacketDigest(timeoutTimestamp: uint64, timeoutHeight: Height, data: Bytes)
    | AckDigest(acknowledgement: Bytes)

  /** The digest committed at `path`, if any. */
  function CommittedAt(s: Store, path: Path): Option<Digest> {
    match path
    case ClientPath(id) => if id in s.clientStates then Some(ClientDigest(s.clientStates[id])) else None
    case ConsensusPath(id, h) =>
      var key := ConsensusKey(id, h);
      if key in s.consensusStates then Some(ConsensusDigest(s.consensusStates[key])) else None
    case ConnectionPath(id) => if id in s.connections then Some(ConnectionDigest(s.connections[id])) else None
    case ChannelPath(p, ch) =>
      var key := ChannelKey(p, ch);
      if key in s.channels then Some(ChannelDigest(s.channels[key])) else None
    case PacketPath(p, ch, n) =>
      var key := PacketKey(ChannelKey(p, ch), n);
      if key in s.packetCommitments then Some(s.packetCommitments[key]) else None
    case AckPath(p, ch, n) =>
      var key := PacketKey(ChannelKey(p, ch), n);
      if key in s.acknowledgements then Some(s.acknowledgements[key]) else None
  }

  // ----- Messages -----

  datatype MsgConnectionOpenInit = MsgConnectionOpenInit(
    clientId: Bytes, counterparty: Counterparty, delayPeriod: uint64)

  datatype MsgConnectionOpenTry = MsgConnectionOpenTry(
    counterparty: Counterparty, delayPeriod: uint64, clientId: Bytes, clientState: ClientState,
    counterpartyVersions: seq<Version>, proofInit: Bytes, proofClient: Bytes,
    proofHeight: uint64)

  datatype MsgConnectionOpenAck = MsgConnectionOpenAck(
    connectionId: Bytes, clientState: ClientState, version: Version, counterpartyConnectionId: Bytes,
    proofTry: Bytes, proofClient: Bytes, proofHeight: uint64)

  datatype MsgConnectionOpenConfirm = MsgConnectionOpenConfirm(connectionId: Bytes, proofAck: Bytes, proofHeight: uint64)

  datatype MsgChannelOpenInit = MsgChannelOpenInit(portId: Bytes, channel: Channel)

  datatype MsgChannelOpenTry = MsgChannelOpenTry(
    portId: Bytes, channel: Channel, counterpartyVersion: Bytes, proofInit: Bytes, proofHeight: uint64)

  datatype MsgChannelOpenAck = MsgChannelOpenAck(
    portId: Bytes, channelId: Bytes, counterpartyVersion: Bytes, counterpartyChannelId: Bytes,
    proofTry: Bytes, proofHeight: uint64)

  datatype MsgChannelOpenConfirm = MsgChannelOpenConfirm(portId: Bytes, channelId: Bytes, proofAck: Bytes, proofHeight: uint64)

  datatype MsgPacketRecv = MsgPacketRecv(packet: Packet, proof: Bytes, proofHeight: uint64)

  datatype MsgPacketAcknowledgement = MsgPacketAcknowledgement(
    packet: Packet, acknowledgement: Bytes, proof: Bytes, proofHeight: uint64)

  /** A call of `sendTransfer`, with its sender. */
  datatype Transfer = Transfer(
    sender: Address, denom: Bytes, amount: uint64, receiver: Address, port: Bytes, channel: Bytes, timeoutHeight: uint64)

  /** The block a transaction runs in. */
  datatype Env = Env(number: nat, timestamp: nat)
}
