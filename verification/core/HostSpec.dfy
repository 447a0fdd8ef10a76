/** The state the host keeps, as a value, and what each of its accessors does to it. */
module HostSpec {
  import opened Prelude
  import opened IBCIdentifier
  import opened IBCTypes

  /**
   What a light client's code decides and the host does not: whether it accepts a header it is
   shown for a height, and whether a commitment can be proved to it at all. The IBFT 2.0 client
   accepts headers as `IBFT2Client.CheckHeader` says, and proves all digests but those that
   start with a zero byte.
   */
  datatype LightClient = LightClient(accepts: (Bytes, uint64) -> bool, proves: Digest -> bool)

  /** The host: what it commits to, its uncommitted mappings and counters, and its light client. */
  datatype HostState = HostState(
    lightClient: LightClient,
    store: Store,
    clientImpls: set<Bytes>,
    clientTypes: map<Bytes, Bytes>,
    nextSequenceSends: map<ChannelKey, uint64>,
    nextSequenceRecvs: map<ChannelKey, uint64>,
    nextSequenceAcks: map<ChannelKey, uint64>,
    packetReceipts: set<PacketKey>,
    capabilities: map<Bytes, seq<Address>>,
    nextClientSequence: uint64,
    nextConnectionSequence: uint64,
    nextChannelSequence: uint64)

  /** The state of a freshly deployed host. */
  function EmptyHost(lightClient: LightClient): HostState {
    HostState(lightClient, Store(map[], map[], map[], map[], map[], map[]), {}, map[], map[], map[], map[], {}, map[], 0, 0, 0)
  }

  // ----- Clients -----

  function SetClientState(s: HostState, clientId: Bytes, c: ClientState): HostState {
    s.(store := s.store.(clientStates := s.store.clientStates[clientId := c]))
  }

  function SetConsensusState(s: HostState, clientId: Bytes, height: uint64, c: ConsensusState): HostState {
    s.(store := s.store.(consensusStates := s.store.consensusStates[ConsensusKey(clientId, height) := c]))
  }

  /** Whether `IBCClient.getClient` finds an implementation for the client. */
  predicate HasClientImpl(s: HostState, clientId: Bytes) {
    (if clientId in s.clientTypes then s.clientTypes[clientId] else []) in s.clientImpls
  }

  // ----- Connections and channels -----

  function SetConnection(s: HostState, connectionId: Bytes, c: ConnectionEnd): HostState {
    s.(store := s.store.(connections := s.store.connections[connectionId := c]))
  }

  function GetConnection(s: HostState, connectionId: Bytes): (r: Result<ConnectionEnd>)
    ensures r.Ok? <==> connectionId in s.store.connections
                       && s.store.connections[connectionId].state != CONN_UNINITIALIZED
    ensures r.Ok? ==> r.value == s.store.connections[connectionId]
  {
    var connections := s.store.connections;
    if connectionId in connections && connections[connectionId].state != CONN_UNINITIALIZED
    then Ok(connections[connectionId]) else Revert
  }

  function SetChannel(s: HostState, portId: Bytes, channelId: Bytes, c: Channel): HostState {
    s.(store := s.store.(channels := s.store.channels[ChannelKey(portId, channelId) := c]))
  }

  function GetChannel(s: HostState, portId: Bytes, channelId: Bytes): (r: Result<Channel>)
    ensures r.Ok? <==> ChannelKey(portId, channelId) in s.store.channels
                       && s.store.channels[ChannelKey(portId, channelId)].state != CHAN_UNINITIALIZED
    ensures r.Ok? ==> r.value == s.store.channels[ChannelKey(portId, channelId)]
  {
    var channels, key := s.store.channels, ChannelKey(portId, channelId);
    if key in channels && channels[key].state != CHAN_UNINITIALIZED then Ok(channels[key]) else Revert
  }

  /** A sequence mapping reads 0 where nothing was stored. */
  function SequenceAt(m: map<ChannelKey, uint64>, key: ChannelKey): uint64 {
    if key in m then m[key] else 0
  }

  // ----- Packets -----

  function MakePacketCommitment(p: Packet): Digest {
    PacketDigest(p.timeoutTimestamp, p.timeoutHeight, p.data)
  }

  function SetPacketCommitment(s: HostState, p: Packet): HostState {
    s.(store := s.store.(packetCommitments := s.store.packetCommitments[SourcePacketKey(p) := MakePacketCommitment(p)]))
  }

  function DeletePacketCommitment(s: HostState, key: PacketKey): HostState {
    s.(store := s.store.(packetCommitments := s.store.packetCommitments - {key}))
  }

  function SetAcknowledgement(s: HostState, key: PacketKey, ack: Bytes): HostState {
    s.(store := s.store.(acknowledgements := s.store.acknowledgements[key := AckDigest(ack)]))
  }

  // ----- Capabilities -----

  function CapabilityOwners(s: HostState, name: Bytes): seq<Address> {
    if name in s.capabilities then s.capabilities[name] else []
  }

  function ClaimCapability(s: HostState, name: Bytes, addr: Address): Result<HostState> {
    if addr in CapabilityOwners(s, name) then Revert
    else Ok(s.(capabilities := s.capabilities[name := CapabilityOwners(s, name) + [addr]]))
  }

  predicate AuthenticateCapability(s: HostState, name: Bytes, addr: Address) {
    addr in CapabilityOwners(s, name)
  }

  /** The first claimant of a capability. */
  function ModuleOwner(s: HostState, name: Bytes): Result<Address> {
    if CapabilityOwners(s, name) == [] then Revert else Ok(CapabilityOwners(s, name)[0])
  }

  // ----- Verification against a stored consensus state -----

  /** The argument checks every verification starts with. */
  predicate ValidateArgs(c: ClientState, height: uint64, prefix: Bytes, proof: Bytes) {
    height <= c.latestHeight && prefix != [] && proof != []
  }

  /**
   Whether the client accepts that the counterparty committed `digest` at `path` at the
   given height. Storage proofs are sound, and complete for the digests that can be proved at
   all, so a proof stands for membership in the root.
   */
  predicate VerifyMembership(s: HostState, clientId: Bytes, height: uint64, prefix: Bytes, proof: Bytes,
                             path: Path, digest: Digest)
  {
    && HasClientImpl(s, clientId)
    && clientId in s.store.clientStates
    && ValidateArgs(s.store.clientStates[clientId], height, prefix, proof)
    && ConsensusKey(clientId, height) in s.store.consensusStates
    && CommittedAt(s.store.consensusStates[ConsensusKey(clientId, height)].root, path) == Some(digest)
    && s.lightClient.proves(digest)
  }
}
