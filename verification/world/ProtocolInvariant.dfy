/** What every reachable pair of chains satisfies, bank aside. */
module ProtocolInvariant {
  import opened Prelude
  import opened IBCIdentifier
  import opened IBCTypes
  import opened HostSpec
  import opened AppMessages
  import opened TransferSpec
  import opened ChainSpec
  import opened World
  import ConnectionSpec

  type Connections = map<Bytes, ConnectionEnd>
  type Channels = map<ChannelKey, Channel>

  // ----- The life of one end -----

  /** A connection end changes at most once, to OPEN; one that began as TRYOPEN changes nothing else. */
  predicate ConnectionEvolves(from: ConnectionEnd, to: ConnectionEnd) {
    || to == from
    || (&& from.state in {CONN_INIT, CONN_TRYOPEN}
        && to.state == CONN_OPEN
        && |to.versions| == 1
        && to == from.(state := CONN_OPEN, versions := to.versions,
                       counterparty := from.counterparty.(connectionId := to.counterparty.connectionId))
        && (from.state == CONN_TRYOPEN ==> to == from.(state := CONN_OPEN)))
  }

  /** A channel end changes at most once, to OPEN; one that began as TRYOPEN changes nothing else. */
  predicate ChannelEvolves(from: Channel, to: Channel) {
    || to == from
    || (&& from.state in {CHAN_INIT, CHAN_TRYOPEN}
        && to.state == CHAN_OPEN
        && to == from.(state := CHAN_OPEN, version := to.version,
                       counterparty := from.counterparty.(channelId := to.counterparty.channelId))
        && (from.state == CHAN_TRYOPEN ==> to == from.(state := CHAN_OPEN)))
  }

  ghost predicate ConnectionsInv(ends: Connections, origins: Connections, next: nat) {
    && origins.Keys == ends.Keys
    && forall id | id in ends ::
         && origins[id].state in {CONN_INIT, CONN_TRYOPEN}
         && origins[id].versions == ConnectionSpec.GetVersions()
         && ConnectionEvolves(origins[id], ends[id])
         && exists n: nat :: n < next && id == ConnectionId(n)
  }

  ghost predicate ChannelsInv(ends: Channels, origins: Channels) {
    && origins.Keys == ends.Keys
    && forall key | key in ends ::
         && origins[key].state in {CHAN_INIT, CHAN_TRYOPEN}
         && ChannelEvolves(origins[key], ends[key])
         && |ends[key].connectionHops| == 1
  }

  /** The channels are those of the log, numbered in order of creation. */
  ghost predicate ChannelLogInv(ends: Channels, log: seq<ChannelKey>, next: nat) {
    && |log| == next
    && (forall key | key in ends :: key in log)
    && (forall i | 0 <= i < |log| ::
          log[i] in ends && SlashFree(log[i].portId) && log[i].channelId == ChannelId(i))
  }

  ghost predicate EscrowsInv(ends: Channels, app: AppState) {
    && app.address != ZERO_ADDRESS
    && forall key | key in ends :: key.channelId in app.escrows && app.escrows[key.channelId] == app.address
  }

  // ----- Packets -----

  ghost predicate SentAt(sent: seq<SendEvent>, i: nat, key: PacketKey) {
    i < |sent| && SourcePacketKey(sent[i].packet) == key
  }

  ghost predicate WasSent(sent: seq<SendEvent>, p: Packet) {
    exists i: nat :: i < |sent| && sent[i].packet == p
  }

  ghost predicate ReceivedAt(received: seq<AckEvent>, i: nat, key: PacketKey) {
    i < |received| && DestinationPacketKey(received[i].packet) == key
  }

  ghost predicate AcknowledgedAt(acknowledged: seq<AckEvent>, i: nat, key: PacketKey) {
    i < |acknowledged| && SourcePacketKey(acknowledged[i].packet) == key
  }

  ghost predicate IsAcknowledged(acknowledged: seq<AckEvent>, key: PacketKey) {
    exists i: nat :: AcknowledgedAt(acknowledged, i, key)
  }

  /** The counterparty of a channel end, as a key on the other chain. */
  function CounterpartyKey(end: Channel): ChannelKey {
    ChannelKey(end.counterparty.portId, end.counterparty.channelId)
  }

  /** A packet sent over an open channel, to its counterparty. */
  ghost predicate WellRouted(ends: Channels, here: ChannelKey, there: ChannelKey) {
    here in ends && ends[here].state == CHAN_OPEN && there == CounterpartyKey(ends[here])
  }

  /** Packet data as the application writes it; neither its own account nor the zero address sends. */
  ghost predicate WellFormed(e: SendEvent, app: Address) {
    && e.packet.data == Encode(e.data)
    && Decode(e.packet.data) == Ok(e.data)
    && |e.data.sender| == 20 && e.data.sender != app && e.data.sender != ZERO_ADDRESS
    && |e.data.receiver| == 20
  }

  ghost predicate SentInv(sent: seq<SendEvent>, ends: Channels, sends: map<ChannelKey, uint64>, app: Address) {
    && (forall i | 0 <= i < |sent| ::
          && WellRouted(ends, SourceKey(sent[i].packet), DestinationKey(sent[i].packet))
          && WellFormed(sent[i], app)
          && SourceKey(sent[i].packet) in sends
          && 1 <= sent[i].packet.sequence < sends[SourceKey(sent[i].packet)])
    && (forall i, j | 0 <= i < j < |sent| :: SourcePacketKey(sent[i].packet) != SourcePacketKey(sent[j].packet))
  }

  ghost predicate SequencesInv(sends: map<ChannelKey, uint64>, ends: Channels, count: nat) {
    && sends.Keys == ends.Keys
    && forall key | key in sends :: 1 <= sends[key] <= count + 1
  }

  /** A commitment is present exactly for the packets sent and not yet acknowledged. */
  ghost predicate CommittedInv(commitments: map<PacketKey, Digest>, sent: seq<SendEvent>, acknowledged: seq<AckEvent>) {
    && (forall key | key in commitments ::
          exists i: nat :: SentAt(sent, i, key) && commitments[key] == MakePacketCommitment(sent[i].packet))
    && (forall i | 0 <= i < |sent| ::
          SourcePacketKey(sent[i].packet) in commitments
          <==> !IsAcknowledged(acknowledged, SourcePacketKey(sent[i].packet)))
  }

  ghost predicate AcknowledgedInv(acknowledged: seq<AckEvent>, sent: seq<SendEvent>, ends: Channels) {
    && (forall j | 0 <= j < |acknowledged| ::
          && WasSent(sent, acknowledged[j].packet)
          && SourceKey(acknowledged[j].packet) in ends
          && ends[SourceKey(acknowledged[j].packet)].ordering != ORDER_ORDERED
          && |acknowledged[j].acknowledgement| == 1)
    && (forall i, j | 0 <= i < j < |acknowledged| ::
          SourcePacketKey(acknowledged[i].packet) != SourcePacketKey(acknowledged[j].packet))
  }

  ghost predicate ReceivedInv(received: seq<AckEvent>, ends: Channels) {
    && (forall i | 0 <= i < |received| ::
          && WellRouted(ends, DestinationKey(received[i].packet), SourceKey(received[i].packet))
          && received[i].acknowledgement in {ACK_SUCCESS, ACK_FAILURE})
    && (forall i, j | 0 <= i < j < |received| ::
          DestinationPacketKey(received[i].packet) != DestinationPacketKey(received[j].packet))
  }

  /** The acknowledgements written are those of the packets received. */
  ghost predicate WrittenInv(acks: map<PacketKey, Digest>, received: seq<AckEvent>) {
    && (forall key | key in acks ::
          exists i: nat :: ReceivedAt(received, i, key) && acks[key] == AckDigest(received[i].acknowledgement))
    && (forall i | 0 <= i < |received| ::
          && DestinationPacketKey(received[i].packet) in acks
          && acks[DestinationPacketKey(received[i].packet)] == AckDigest(received[i].acknowledgement))
  }

  ghost predicate LocalInv(c: Chain) {
    var s := c.host.store;
    && ConnectionsInv(s.connections, c.connectionOrigins, c.host.nextConnectionSequence)
    && ChannelsInv(s.channels, c.channelOrigins)
    && ChannelLogInv(s.channels, c.channelLog, c.host.nextChannelSequence)
    && EscrowsInv(s.channels, c.app)
    && SequencesInv(c.host.nextSequenceSends, s.channels, |c.sent|)
    && SentInv(c.sent, s.channels, c.host.nextSequenceSends, c.app.address)
    && CommittedInv(s.packetCommitments, c.sent, c.acknowledged)
    && AcknowledgedInv(c.acknowledged, c.sent, s.channels)
    && ReceivedInv(c.received, s.channels)
    && WrittenInv(s.acknowledgements, c.received)
  }

  // ----- The past -----

  /** What a store the chain once committed to says about the chain now. */
  ghost predicate Past(c: Chain, root: Store) {
    && (forall id | id in root.connections ::
          && id in c.host.store.connections && id in c.connectionOrigins
          && (root.connections[id] == c.connectionOrigins[id] || root.connections[id] == c.host.store.connections[id]))
    && (forall key | key in root.channels ::
          && key in c.host.store.channels && key in c.channelOrigins
          && (root.channels[key] == c.channelOrigins[key] || root.channels[key] == c.host.store.channels[key]))
    && (forall key | key in root.packetCommitments ::
          exists i: nat :: SentAt(c.sent, i, key) && root.packetCommitments[key] == MakePacketCommitment(c.sent[i].packet))
    && (forall key | key in root.acknowledgements ::
          && key in c.host.store.acknowledgements
          && c.host.store.acknowledgements[key] == root.acknowledgements[key])
  }

  ghost predicate BlocksInv(c: Chain) {
    forall h | 0 <= h < |c.blocks| :: Past(c, c.blocks[h].root)
  }

  // ----- Facts about the peer -----

  /** Every root a client accepted is a past of the peer. */
  ghost predicate ClientsKnow(states: map<ConsensusKey, ConsensusState>, peer: Chain) {
    forall k | k in states :: Past(peer, states[k].root)
  }

  /** The end that the handshake proofs of the connection end `id` were about. */
  ghost predicate ConnectionLink(id: Bytes, origin: ConnectionEnd, end: ConnectionEnd, peer: Chain) {
    var other := end.counterparty.connectionId;
    var back := Counterparty(end.clientId, id, ConnectionSpec.COMMITMENT_PREFIX);
    if origin.state == CONN_TRYOPEN then
      && other in peer.connectionOrigins
      && peer.connectionOrigins[other].state == CONN_INIT
      && peer.connectionOrigins[other].clientId == end.counterparty.clientId
      && peer.connectionOrigins[other].delayPeriod == end.delayPeriod
      && (end.state == CONN_OPEN ==>
            && other in peer.host.store.connections
            && peer.host.store.connections[other]
               == ConnectionEnd(end.counterparty.clientId, end.versions, CONN_OPEN, end.delayPeriod, back))
    else
      end.state == CONN_OPEN ==>
        && other in peer.connectionOrigins
        && peer.connectionOrigins[other]
           == ConnectionEnd(end.counterparty.clientId, end.versions, CONN_TRYOPEN, end.delayPeriod, back)
  }

  ghost predicate ConnectionLinks(ends: Connections, origins: Connections, peer: Chain) {
    forall id | id in ends && id in origins :: ConnectionLink(id, origins[id], ends[id], peer)
  }

  /** The end that the handshake proofs of the channel end `key` were about. */
  ghost predicate ChannelLink(key: ChannelKey, origin: Channel, end: Channel, connections: Connections, peer: Chain) {
    var other := CounterpartyKey(end);
    var back := ChannelCounterparty(key.portId, key.channelId);
    && (origin.state == CHAN_TRYOPEN ==>
          && other in peer.channelOrigins
          && peer.channelOrigins[other].state == CHAN_INIT
          && peer.channelOrigins[other].ordering == end.ordering
          && peer.channelOrigins[other].counterparty.portId == key.portId)
    && (end.state == CHAN_OPEN ==>
          && |end.connectionHops| == 1
          && end.connectionHops[0] in connections
          && connections[end.connectionHops[0]].state == CONN_OPEN
          && var peerHops := [connections[end.connectionHops[0]].counterparty.connectionId];
             if origin.state == CHAN_TRYOPEN then
               && other in peer.host.store.channels
               && peer.host.store.channels[other] == Channel(CHAN_OPEN, end.ordering, back, peerHops, end.version)
             else
               && other in peer.channelOrigins
               && peer.channelOrigins[other] == Channel(CHAN_TRYOPEN, end.ordering, back, peerHops, end.version))
  }

  ghost predicate ChannelLinks(ends: Channels, origins: Channels, connections: Connections, peer: Chain) {
    forall key | key in ends && key in origins :: ChannelLink(key, origins[key], ends[key], connections, peer)
  }

  ghost predicate PacketLinks(received: seq<AckEvent>, acknowledged: seq<AckEvent>, peer: Chain) {
    && (forall i | 0 <= i < |received| :: WasSent(peer.sent, received[i].packet))
    && (forall j | 0 <= j < |acknowledged| ::
          && var key := DestinationPacketKey(acknowledged[j].packet);
             key in peer.host.store.acknowledgements
             && peer.host.store.acknowledgements[key] == AckDigest(acknowledged[j].acknowledgement))
  }

  ghost predicate Links(c: Chain, peer: Chain) {
    var s := c.host.store;
    && ClientsKnow(s.consensusStates, peer)
    && ConnectionLinks(s.connections, c.connectionOrigins, peer)
    && ChannelLinks(s.channels, c.channelOrigins, s.connections, peer)
    && PacketLinks(c.received, c.acknowledged, peer)
  }

  /** Counters stay below the number of steps so far. */
  ghost predicate Bounded(c: Chain, n: nat) {
    && c.host.nextConnectionSequence <= n
    && c.host.nextChannelSequence <= n
    && |c.sent| <= n && |c.received| <= n && |c.blocks| <= n
  }

  /** What holds after `n` steps, bank aside. */
  ghost predicate ProtocolInv(w: World, n: nat) {
    && LocalInv(w.a) && BlocksInv(w.a) && Bounded(w.a, n)
    && LocalInv(w.b) && BlocksInv(w.b) && Bounded(w.b, n)
    && Links(w.a, w.b) && Links(w.b, w.a)
  }

  // ----- How a chain may change -----

  ghost predicate ConnectionsGrow(c: Connections, origins: Connections, d: Connections, newOrigins: Connections) {
    forall id | id in c && id in origins ::
      && id in d && id in newOrigins
      && newOrigins[id] == origins[id]
      && (d[id] == c[id] || (c[id] == origins[id] && c[id].state != CONN_OPEN))
  }

  ghost predicate ChannelsGrow(c: Channels, origins: Channels, d: Channels, newOrigins: Channels) {
    forall key | key in c && key in origins ::
      && key in d && key in newOrigins
      && newOrigins[key] == origins[key]
      && (d[key] == c[key] || (c[key] == origins[key] && c[key].state != CHAN_OPEN))
  }

  ghost predicate AcksGrow(c: map<PacketKey, Digest>, d: map<PacketKey, Digest>) {
    forall key | key in c :: key in d && d[key] == c[key]
  }

  /** No transaction takes back what a past block could prove. */
  ghost predicate Grows(c: Chain, d: Chain) {
    && ConnectionsGrow(c.host.store.connections, c.connectionOrigins, d.host.store.connections, d.connectionOrigins)
    && ChannelsGrow(c.host.store.channels, c.channelOrigins, d.host.store.channels, d.channelOrigins)
    && c.sent <= d.sent
    && AcksGrow(c.host.store.acknowledgements, d.host.store.acknowledgements)
  }

  lemma PastGrows(c: Chain, d: Chain, root: Store)
    requires Grows(c, d)
    requires Past(c, root)
    ensures Past(d, root)
  {
    forall key | key in root.packetCommitments
      ensures exists i: nat :: SentAt(d.sent, i, key) && root.packetCommitments[key] == MakePacketCommitment(d.sent[i].packet)
    {
      var i: nat :| SentAt(c.sent, i, key) && root.packetCommitments[key] == MakePacketCommitment(c.sent[i].packet);
      assert d.sent[i] == c.sent[i] && SentAt(d.sent, i, key);
    }
  }

  /** What is committed now is a past of the chain. */
  lemma PresentIsPast(c: Chain)
    requires LocalInv(c)
    ensures Past(c, c.host.store)
  {
    hide ConnectionEvolves, ChannelEvolves, WellFormed, WellRouted;
  }

  lemma ClientsKnowGrows(states: map<ConsensusKey, ConsensusState>, c: Chain, d: Chain)
    requires Grows(c, d) && ClientsKnow(states, c)
    ensures ClientsKnow(states, d)
  {
    hide Past, Grows;
    forall k | k in states
      ensures Past(d, states[k].root)
    {
      PastGrows(c, d, states[k].root);
    }
  }

  lemma ConnectionLinkGrows(id: Bytes, origin: ConnectionEnd, end: ConnectionEnd, c: Chain, d: Chain)
    requires Grows(c, d) && LocalInv(c)
    requires ConnectionLink(id, origin, end, c)
    ensures ConnectionLink(id, origin, end, d)
  {
    hide ConnectionId, ChannelsInv, ChannelLogInv, SentInv, ReceivedInv, CommittedInv, WrittenInv, AcknowledgedInv;
  }

  lemma ChannelLinkGrows(key: ChannelKey, origin: Channel, end: Channel, connections: Connections, c: Chain, d: Chain)
    requires Grows(c, d) && LocalInv(c)
    requires ChannelLink(key, origin, end, connections, c)
    ensures ChannelLink(key, origin, end, connections, d)
  {
    hide ConnectionsInv, ChannelLogInv, SentInv, ReceivedInv, CommittedInv, WrittenInv, AcknowledgedInv;
  }

  lemma PacketLinksGrow(received: seq<AckEvent>, acknowledged: seq<AckEvent>, c: Chain, d: Chain)
    requires Grows(c, d)
    requires PacketLinks(received, acknowledged, c)
    ensures PacketLinks(received, acknowledged, d)
  {
    hide ConnectionsGrow, ChannelsGrow;
    forall i | 0 <= i < |received|
      ensures WasSent(d.sent, received[i].packet)
    {
      assert WasSent(c.sent, received[i].packet);
      var j: nat :| j < |c.sent| && c.sent[j].packet == received[i].packet;
      assert d.sent[j].packet == received[i].packet;
    }
  }

  /** What the peer knows about a chain survives the chain's own transactions. */
  lemma LinksGrow(peer: Chain, c: Chain, d: Chain)
    requires Grows(c, d) && LocalInv(c)
    requires Links(peer, c)
    ensures Links(peer, d)
  {
    hide Grows, LocalInv, ConnectionLink, ChannelLink, PacketLinks, ClientsKnow;
    var s := peer.host.store;
    ClientsKnowGrows(s.consensusStates, c, d);
    forall id | id in s.connections && id in peer.connectionOrigins
      ensures ConnectionLink(id, peer.connectionOrigins[id], s.connections[id], d)
    {
      ConnectionLinkGrows(id, peer.connectionOrigins[id], s.connections[id], c, d);
    }
    forall key | key in s.channels && key in peer.channelOrigins
      ensures ChannelLink(key, peer.channelOrigins[key], s.channels[key], s.connections, d)
    {
      ChannelLinkGrows(key, peer.channelOrigins[key], s.channels[key], s.connections, c, d);
    }
    PacketLinksGrow(peer.received, peer.acknowledged, c, d);
  }
}
