/**
 The host contract: typed stores, the one flat map of commitments, counters and
 capabilities, each updated in place.
 */
module HostContract {
  import opened Prelude
  import opened IBCIdentifier
  import opened IBCTypes
  import opened HostSpec

  // ----- One flat map for six -----

  /** The flat map holds exactly what the six maps of the store commit to, at their packed keys. */
  ghost predicate Synced(flat: map<Bytes, Digest>, s: Store) {
    && (forall path :: CommittedAt(s, path).Some? ==>
          && Regular(path)
          && Pack(path) in flat && flat[Pack(path)] == CommittedAt(s, path).value)
    && (forall k | k in flat :: exists path :: Pack(path) == k && CommittedAt(s, path).Some?)
  }

  function Found(flat: map<Bytes, Digest>, k: Bytes): Option<Digest> {
    if k in flat then Some(flat[k]) else None
  }

  /** Whatever path is looked up, even with '/' in its parts, the flat map reads as the six maps do. */
  lemma SixMaps(flat: map<Bytes, Digest>, s: Store, path: Path)
    requires Synced(flat, s)
    ensures Found(flat, Pack(path)) == CommittedAt(s, path)
  {
    hide Pack, CommittedAt, Regular;
    if Pack(path) in flat {
      var other :| Pack(other) == Pack(path) && CommittedAt(s, other).Some?;
      PackInjective(path, other);
    }
  }

  lemma SyncedPut(flat: map<Bytes, Digest>, s: Store, t: Store, path: Path, digest: Digest)
    requires Synced(flat, s) && Regular(path)
    requires forall p :: CommittedAt(t, p) == if p == path then Some(digest) else CommittedAt(s, p)
    ensures Synced(flat[Pack(path) := digest], t)
  {
    hide Pack, CommittedAt, Regular;
    var more := flat[Pack(path) := digest];
    forall p | CommittedAt(t, p).Some?
      ensures Regular(p) && Pack(p) in more && more[Pack(p)] == CommittedAt(t, p).value
    {
      if Pack(p) == Pack(path) {
        PackInjective(p, path);
      }
    }
    forall k | k in more
      ensures exists p :: Pack(p) == k && CommittedAt(t, p).Some?
    {
      if k == Pack(path) {
        assert CommittedAt(t, path).Some?;
      } else {
        var p :| Pack(p) == k && CommittedAt(s, p).Some?;
        assert CommittedAt(t, p).Some?;
      }
    }
  }

  lemma SyncedDelete(flat: map<Bytes, Digest>, s: Store, t: Store, path: Path)
    requires Synced(flat, s) && Regular(path)
    requires forall p :: CommittedAt(t, p) == if p == path then None else CommittedAt(s, p)
    ensures Synced(flat - {Pack(path)}, t)
  {
    hide Pack, CommittedAt, Regular;
    var less := flat - {Pack(path)};
    forall p | CommittedAt(t, p).Some?
      ensures Regular(p) && Pack(p) in less && less[Pack(p)] == CommittedAt(t, p).value
    {
      if Pack(p) == Pack(path) {
        PackInjective(p, path);
      }
    }
    forall k | k in less
      ensures exists p :: Pack(p) == k && CommittedAt(t, p).Some?
    {
      var p :| Pack(p) == k && CommittedAt(s, p).Some?;
      assert CommittedAt(t, p).Some?;
    }
  }

  lemma CommittedAfterDelete(s: Store, key: PacketKey)
    ensures var path := PacketPath(key.channel.portId, key.channel.channelId, key.sequence);
            forall p :: CommittedAt(s.(packetCommitments := s.packetCommitments - {key}), p)
                        == if p == path then None else CommittedAt(s, p)
  {
  }

  lemma RegularPacket(path: Path)
    requires path.PacketPath? && SlashFree(path.portId) && SlashFree(path.channelId)
    ensures Regular(path)
  {
  }

  lemma SyncedEmpty()
    ensures Synced(map[], Store(map[], map[], map[], map[], map[], map[]))
  {
  }

  // ----- Copying versions -----

  /** A bound on the passes that one transaction can pay for; any bound from 255 on gives the same results. */
  const GAS_LIMIT: nat := 30_000_000

  /**
   The loop of `setConnection`, whose counter is a `uint8`: from 256 versions on the counter
   wraps before it gets there, and the transaction ends by running out of gas.
   */
  method CopyVersions(versions: seq<Version>, gas: nat) returns (r: Result<seq<Version>>)
    ensures r == if |versions| < 256 && |versions| <= gas then Ok(versions) else Revert
  {
    var copied: seq<Version> := [];
    var i, left := 0, gas;
    while i < |versions| && left > 0
      invariant 0 <= i <= |versions| && i < 256 && 0 <= left <= gas
      invariant |versions| < 256 ==> i == gas - left && copied == versions[..i]
      decreases left
    {
      copied := copied + [versions[i]];
      i := (i + 1) % 256;
      left := left - 1;
    }
    if i < |versions| {
      return Revert;
    }
    assert copied == versions;
    return Ok(copied);
  }

  // ----- The contract -----

  class IBCHost {
    const lightClient: LightClient
    var commitments: map<Bytes, Digest>
    var clientRegistry: set<Bytes>
    var clientTypes: map<Bytes, Bytes>
    var clientStates: map<Bytes, ClientState>
    var consensusStates: map<ConsensusKey, ConsensusState>
    var connections: map<Bytes, ConnectionEnd>
    var channels: map<ChannelKey, Channel>
    var nextSequenceSends: map<ChannelKey, uint64>
    var nextSequenceRecvs: map<ChannelKey, uint64>
    var nextSequenceAcks: map<ChannelKey, uint64>
    var packetReceipts: set<PacketKey>
    var capabilities: map<Bytes, seq<Address>>
    var nextClientSequence: uint64
    var nextConnectionSequence: uint64
    var nextChannelSequence: uint64
    /** The commitments of packets and acknowledgements, which the contract keeps in the flat map alone. */
    ghost var packetCommitments: map<PacketKey, Digest>
    ghost var acknowledgements: map<PacketKey, Digest>

    ghost function State(): HostState
      reads this
    {
      HostState(lightClient, Store(clientStates, consensusStates, connections, channels, packetCommitments, acknowledgements),
                clientRegistry, clientTypes, nextSequenceSends, nextSequenceRecvs, nextSequenceAcks, packetReceipts,
                capabilities, nextClientSequence, nextConnectionSequence, nextChannelSequence)
    }

    ghost predicate Valid()
      reads this
    {
      && Synced(commitments, State().store)
      && (forall key | key in channels :: SlashFree(key.portId) && SlashFree(key.channelId))
    }

    constructor (lightClient: LightClient)
      ensures Valid() && State() == EmptyHost(lightClient) && this.lightClient == lightClient
    {
      this.lightClient := lightClient;
      commitments, clientRegistry, clientTypes, clientStates, consensusStates := map[], {}, map[], map[], map[];
      connections, channels, nextSequenceSends, nextSequenceRecvs, nextSequenceAcks := map[], map[], map[], map[], map[];
      packetReceipts, capabilities := {}, map[];
      nextClientSequence, nextConnectionSequence, nextChannelSequence := 0, 0, 0;
      packetCommitments, acknowledgements := map[], map[];
      new;
      SyncedEmpty();
    }

    /** The state a revert goes back to. */
    method Snapshot() returns (s: IBCHost)
      requires Valid()
      ensures fresh(s) && s.Valid() && s.State() == State() && s.lightClient == lightClient
    {
      s := new IBCHost(lightClient);
      s.Restore(this);
    }

    /** What a revert does to the contract's storage. */
    method Restore(s: IBCHost)
      requires s != this && s.Valid() && s.lightClient == lightClient
      modifies this
      ensures Valid() && State() == s.State()
    {
      hide Synced, SlashFree;
      PutClients(s.clientRegistry, s.clientTypes);
      PutSequences(s.nextSequenceSends, s.nextSequenceRecvs, s.nextSequenceAcks);
      PutCounters(s.nextClientSequence, s.nextConnectionSequence, s.nextChannelSequence);
      PutCapabilities(s.packetReceipts, s.capabilities);
      PutCommitted(s);
    }

    method PutClients(registry: set<Bytes>, types: map<Bytes, Bytes>)
      modifies this
      ensures State() == old(State()).(clientImpls := registry, clientTypes := types)
    {
      clientRegistry, clientTypes := registry, types;
    }

    method PutSequences(sends: map<ChannelKey, uint64>, recvs: map<ChannelKey, uint64>, acks: map<ChannelKey, uint64>)
      modifies this
      ensures State() == old(State()).(nextSequenceSends := sends, nextSequenceRecvs := recvs, nextSequenceAcks := acks)
    {
      nextSequenceSends, nextSequenceRecvs, nextSequenceAcks := sends, recvs, acks;
    }

    method PutCounters(clients: uint64, connections: uint64, channels: uint64)
      modifies this
      ensures State() == old(State()).(nextClientSequence := clients, nextConnectionSequence := connections,
                                       nextChannelSequence := channels)
    {
      nextClientSequence, nextConnectionSequence, nextChannelSequence := clients, connections, channels;
    }

    method PutCapabilities(receipts: set<PacketKey>, owners: map<Bytes, seq<Address>>)
      modifies this
      ensures State() == old(State()).(packetReceipts := receipts, capabilities := owners)
    {
      packetReceipts, capabilities := receipts, owners;
    }

    method PutCommitted(s: IBCHost)
      requires s != this && s.Valid()
      modifies this
      ensures Valid() && State() == old(State()).(store := s.State().store)
    {
      hide Synced, SlashFree;
      PutEnds(s.connections, s.channels);
      PutStates(s.clientStates, s.consensusStates);
      PutFlat(s.commitments, s.packetCommitments, s.acknowledgements);
      assert State().store == s.State().store;
    }

    method PutEnds(ends: map<Bytes, ConnectionEnd>, channelEnds: map<ChannelKey, Channel>)
      modifies this
      ensures State() == old(State()).(store := old(State()).store.(connections := ends, channels := channelEnds))
      ensures channels == channelEnds
    {
      connections, channels := ends, channelEnds;
    }

    method PutStates(clients: map<Bytes, ClientState>, states: map<ConsensusKey, ConsensusState>)
      modifies this
      ensures State() == old(State()).(store := old(State()).store.(clientStates := clients, consensusStates := states))
      ensures channels == old(channels)
    {
      clientStates, consensusStates := clients, states;
    }

    method PutFlat(flat: map<Bytes, Digest>, ghost packets: map<PacketKey, Digest>, ghost acks: map<PacketKey, Digest>)
      modifies this
      ensures State() == old(State()).(store := old(State()).store.(packetCommitments := packets, acknowledgements := acks))
      ensures channels == old(channels) && commitments == flat
    {
      commitments, packetCommitments, acknowledgements := flat, packets, acks;
    }

    // ----- Clients -----

    method SetClientImpl(clientType: Bytes) returns (r: Result<()>)
      requires Valid()
      modifies this
      ensures Valid()
      ensures r.Ok? <==> clientType !in old(clientRegistry)
      ensures State() == if r.Ok? then old(State()).(clientImpls := old(clientRegistry) + {clientType}) else old(State())
    {
      if clientType in clientRegistry {
        return Revert;
      }
      clientRegistry := clientRegistry + {clientType};
      return Ok(());
    }

    method SetClientType(clientId: Bytes, clientType: Bytes) returns (r: Result<()>)
      requires Valid()
      modifies this
      ensures Valid()
      ensures r.Ok? <==> (clientId in old(clientTypes) ==> old(clientTypes)[clientId] == []) && clientType != []
      ensures State() == if r.Ok? then old(State()).(clientTypes := old(clientTypes)[clientId := clientType]) else old(State())
    {
      if (clientId in clientTypes && |clientTypes[clientId]| != 0) || |clientType| == 0 {
        return Revert;
      }
      clientTypes := clientTypes[clientId := clientType];
      return Ok(());
    }

    method SetClientState(clientId: Bytes, clientState: ClientState)
      requires Valid()
      modifies this
      ensures Valid() && State() == HostSpec.SetClientState(old(State()), clientId, clientState)
    {
      ghost var s := State().store;
      clientStates := clientStates[clientId := clientState];
      commitments := commitments[Pack(ClientPath(clientId)) := ClientDigest(clientState)];
      SyncedPut(old(commitments), s, State().store, ClientPath(clientId), ClientDigest(clientState));
    }

    method SetConsensusState(clientId: Bytes, height: uint64, consensusState: ConsensusState)
      requires Valid()
      modifies this
      ensures Valid() && State() == HostSpec.SetConsensusState(old(State()), clientId, height, consensusState)
    {
      ghost var s := State().store;
      consensusStates := consensusStates[ConsensusKey(clientId, height) := consensusState];
      commitments := commitments[Pack(ConsensusPath(clientId, height)) := ConsensusDigest(consensusState)];
      SyncedPut(old(commitments), s, State().store, ConsensusPath(clientId, height), ConsensusDigest(consensusState));
    }

    // ----- Connections and channels -----

    /** `setConnection`; a connection with 256 versions or more never gets through. */
    method SetConnection(connectionId: Bytes, connection: ConnectionEnd) returns (r: Result<()>)
      requires Valid()
      modifies this
      ensures Valid() && (r.Ok? <==> |connection.versions| < 256)
      ensures State() == if r.Ok? then HostSpec.SetConnection(old(State()), connectionId, connection) else old(State())
    {
      ghost var s := State().store;
      var versions := CopyVersions(connection.versions, GAS_LIMIT);
      if versions.Revert? {
        return Revert;
      }
      connections := connections[connectionId :=
        ConnectionEnd(connection.clientId, versions.value, connection.state, connection.delayPeriod, connection.counterparty)];
      commitments := commitments[Pack(ConnectionPath(connectionId)) := ConnectionDigest(connection)];
      SyncedPut(old(commitments), s, State().store, ConnectionPath(connectionId), ConnectionDigest(connection));
      return Ok(());
    }

    method GetConnection(connectionId: Bytes) returns (connection: ConnectionEnd, found: bool)
      ensures found <==> HostSpec.GetConnection(State(), connectionId).Ok?
      ensures found ==> connection == HostSpec.GetConnection(State(), connectionId).value
    {
      if connectionId in connections {
        return connections[connectionId], connections[connectionId].state != CONN_UNINITIALIZED;
      }
      return ConnectionEnd([], [], CONN_UNINITIALIZED, 0, Counterparty([], [], [])), false;
    }

    method SetChannel(portId: Bytes, channelId: Bytes, channel: Channel)
      requires Valid()
      modifies this
      ensures SlashFree(portId) && SlashFree(channelId) ==> Valid()
      ensures State() == HostSpec.SetChannel(old(State()), portId, channelId, channel)
      ensures commitments == old(commitments)[Pack(ChannelPath(portId, channelId)) := ChannelDigest(channel)]
    {
      ghost var s := State().store;
      channels := channels[ChannelKey(portId, channelId) := channel];
      commitments := commitments[Pack(ChannelPath(portId, channelId)) := ChannelDigest(channel)];
      if SlashFree(portId) && SlashFree(channelId) {
        SyncedPut(old(commitments), s, State().store, ChannelPath(portId, channelId), ChannelDigest(channel));
      }
    }

    method GetChannel(portId: Bytes, channelId: Bytes) returns (channel: Channel, found: bool)
      ensures found <==> HostSpec.GetChannel(State(), portId, channelId).Ok?
      ensures found ==> channel == HostSpec.GetChannel(State(), portId, channelId).value
    {
      var key := ChannelKey(portId, channelId);
      if key in channels {
        return channels[key], channels[key].state != CHAN_UNINITIALIZED;
      }
      return Channel(CHAN_UNINITIALIZED, ORDER_NONE, ChannelCounterparty([], []), [], []), false;
    }

    // ----- Packets -----

    method SetNextSequenceSend(key: ChannelKey, sequence: uint64)
      modifies this
      ensures old(Valid()) ==> Valid()
      ensures State() == old(State()).(nextSequenceSends := old(nextSequenceSends)[key := sequence])
    {
      nextSequenceSends := nextSequenceSends[key := sequence];
    }

    method SetNextSequenceRecv(key: ChannelKey, sequence: uint64)
      modifies this
      ensures old(Valid()) ==> Valid()
      ensures State() == old(State()).(nextSequenceRecvs := old(nextSequenceRecvs)[key := sequence])
    {
      nextSequenceRecvs := nextSequenceRecvs[key := sequence];
    }

    method SetNextSequenceAck(key: ChannelKey, sequence: uint64)
      modifies this
      ensures old(Valid()) ==> Valid()
      ensures State() == old(State()).(nextSequenceAcks := old(nextSequenceAcks)[key := sequence])
    {
      nextSequenceAcks := nextSequenceAcks[key := sequence];
    }

    method SetPacketCommitment(p: Packet)
      requires Valid()
      modifies this
      ensures SlashFree(p.sourcePort) && SlashFree(p.sourceChannel) ==> Valid()
      ensures State() == HostSpec.SetPacketCommitment(old(State()), p)
      ensures commitments
           == old(commitments)[Pack(PacketPath(p.sourcePort, p.sourceChannel, p.sequence)) := MakePacketCommitment(p)]
    {
      ghost var s := State().store;
      var path := PacketPath(p.sourcePort, p.sourceChannel, p.sequence);
      packetCommitments := packetCommitments[SourcePacketKey(p) := MakePacketCommitment(p)];
      commitments := commitments[Pack(path) := MakePacketCommitment(p)];
      if SlashFree(p.sourcePort) && SlashFree(p.sourceChannel) {
        SyncedPut(old(commitments), s, State().store, path, MakePacketCommitment(p));
      }
    }

    method DeletePacketCommitment(key: PacketKey)
      requires Valid()
      modifies this
      ensures SlashFree(key.channel.portId) && SlashFree(key.channel.channelId) ==> Valid()
      ensures State() == HostSpec.DeletePacketCommitment(old(State()), key)
      ensures commitments == old(commitments) - {Pack(PacketPath(key.channel.portId, key.channel.channelId, key.sequence))}
    {
      hide Synced, CommittedAt, Pack, Regular, SlashFree;
      ghost var s := State().store;
      var path := PacketPath(key.channel.portId, key.channel.channelId, key.sequence);
      CommittedAfterDelete(s, key);
      packetCommitments := packetCommitments - {key};
      commitments := commitments - {Pack(path)};
      if SlashFree(key.channel.portId) && SlashFree(key.channel.channelId) {
        RegularPacket(path);
        SyncedDelete(old(commitments), s, State().store, path);
      }
    }

    method GetPacketCommitment(key: PacketKey) returns (r: Option<Digest>)
      requires Valid()
      ensures r == CommittedAt(State().store, PacketPath(key.channel.portId, key.channel.channelId, key.sequence))
    {
      var path := PacketPath(key.channel.portId, key.channel.channelId, key.sequence);
      SixMaps(commitments, State().store, path);
      return Found(commitments, Pack(path));
    }

    method SetPacketAcknowledgementCommitment(key: PacketKey, acknowledgement: Bytes)
      requires Valid()
      modifies this
      ensures SlashFree(key.channel.portId) && SlashFree(key.channel.channelId) ==> Valid()
      ensures State() == HostSpec.SetAcknowledgement(old(State()), key, acknowledgement)
      ensures commitments
           == old(commitments)[Pack(AckPath(key.channel.portId, key.channel.channelId, key.sequence)) := AckDigest(acknowledgement)]
    {
      ghost var s := State().store;
      var path := AckPath(key.channel.portId, key.channel.channelId, key.sequence);
      acknowledgements := acknowledgements[key := AckDigest(acknowledgement)];
      commitments := commitments[Pack(path) := AckDigest(acknowledgement)];
      if SlashFree(key.channel.portId) && SlashFree(key.channel.channelId) {
        SyncedPut(old(commitments), s, State().store, path, AckDigest(acknowledgement));
      }
    }

    method GetPacketAcknowledgementCommitment(key: PacketKey) returns (r: Option<Digest>)
      requires Valid()
      ensures r == CommittedAt(State().store, AckPath(key.channel.portId, key.channel.channelId, key.sequence))
    {
      var path := AckPath(key.channel.portId, key.channel.channelId, key.sequence);
      SixMaps(commitments, State().store, path);
      return Found(commitments, Pack(path));
    }

    method SetPacketReceipt(key: PacketKey)
      requires Valid()
      modifies this
      ensures Valid() && State() == old(State()).(packetReceipts := old(packetReceipts) + {key})
    {
      packetReceipts := packetReceipts + {key};
    }

    // ----- Capabilities -----

    method ClaimCapability(name: Bytes, addr: Address) returns (r: Result<()>)
      modifies this
      ensures old(Valid()) ==> Valid()
      ensures match HostSpec.ClaimCapability(old(State()), name, addr)
              case Ok(s) => r.Ok? && State() == s
              case Revert => r.Revert? && State() == old(State())
    {
      var owners := if name in capabilities then capabilities[name] else [];
      for i := 0 to |owners|
        invariant addr !in owners[..i]
        invariant State() == old(State()) && (old(Valid()) ==> Valid())
      {
        if owners[i] == addr {
          return Revert;
        }
      }
      capabilities := capabilities[name := owners + [addr]];
      return Ok(());
    }

    method AuthenticateCapability(name: Bytes, addr: Address) returns (found: bool)
      ensures found == HostSpec.AuthenticateCapability(State(), name, addr)
    {
      var owners := if name in capabilities then capabilities[name] else [];
      for i := 0 to |owners|
        invariant addr !in owners[..i]
      {
        if owners[i] == addr {
          return true;
        }
      }
      return false;
    }

    method GetModuleOwner(name: Bytes) returns (r: Result<Address>)
      ensures r == ModuleOwner(State(), name)
    {
      if name !in capabilities || |capabilities[name]| == 0 {
        return Revert;
      }
      return Ok(capabilities[name][0]);
    }

    // ----- Identifiers -----

    method GenerateClientIdentifier(clientType: Bytes) returns (id: Bytes)
      requires Valid()
      modifies this
      ensures Valid() && id == ClientId(clientType, old(nextClientSequence))
      ensures State() == old(State()).(nextClientSequence := Inc64(old(nextClientSequence)))
    {
      var text := Uint2Str(nextClientSequence);
      id := clientType + [DASH] + text;
      nextClientSequence := Inc64(nextClientSequence);
    }

    method GenerateConnectionIdentifier() returns (id: Bytes)
      requires Valid()
      modifies this
      ensures Valid() && id == ConnectionId(old(nextConnectionSequence))
      ensures State() == old(State()).(nextConnectionSequence := Inc64(old(nextConnectionSequence)))
    {
      var text := Uint2Str(nextConnectionSequence);
      id := CONNECTION_PREFIX + text;
      nextConnectionSequence := Inc64(nextConnectionSequence);
    }

    method GenerateChannelIdentifier() returns (id: Bytes)
      requires Valid()
      modifies this
      ensures Valid() && id == ChannelId(old(nextChannelSequence))
      ensures State() == old(State()).(nextChannelSequence := Inc64(old(nextChannelSequence)))
    {
      var text := Uint2Str(nextChannelSequence);
      id := CHANNEL_PREFIX + text;
      nextChannelSequence := Inc64(nextChannelSequence);
    }
  }

  // ----- Printing numbers -----

  /** `uint2str`: counts the digits, then fills the buffer from its end; it prints the exact decimal. */
  method Uint2Str(n: uint64) returns (text: Bytes)
    ensures text == Decimal(n)
  {
    if n == 0 {
      return [48];
    }
    var j, len: nat := n, 0;
    while j != 0
      invariant len + (if j == 0 then 0 else |Decimal(j)|) == |Decimal(n)|
      decreases j
    {
      len := len + 1;
      j := j / 10;
    }
    var bstr := new byte[len](_ => 0);
    var i, k: nat := n, len;
    while i != 0
      invariant k <= len
      invariant (if i == 0 then [] else Decimal(i)) + bstr[k..] == Decimal(n)
      decreases i
    {
      k := k - 1;
      bstr[k] := (48 + (i - i / 10 * 10)) as byte;
      assert bstr[k..] == [bstr[k]] + bstr[k + 1..];
      assert Decimal(i) == (if i < 10 then [] else Decimal(i / 10)) + [bstr[k]];
      i := i / 10;
    }
    assert |bstr[k..]| == |Decimal(n)|;
    return bstr[..];
  }
}
