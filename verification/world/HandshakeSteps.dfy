/** The client and handshake transactions keep the protocol invariant. */
module HandshakeSteps {
  import opened Prelude
  import opened IBCIdentifier
  import opened IBCTypes
  import opened HostSpec
  import opened ChainSpec
  import opened TransferSpec
  import opened World
  import opened ProtocolInvariant
  import ClientSpec
  import ConnectionSpec
  import ChannelSpec

  /** What a transaction on `c` keeps. */
  ghost predicate Kept(c: Chain, d: Chain, peer: Chain) {
    LocalInv(d) && Links(d, peer) && Grows(c, d)
  }

  // ----- Claims -----

  /** A verified connection claim is about an end the peer had, as created or as it is. */
  lemma ProvedConnection(s: HostState, peer: Chain, connection: ConnectionEnd, height: uint64, proof: Bytes, id: Bytes,
                         expected: ConnectionEnd)
    requires ClientsKnow(s.store.consensusStates, peer)
    requires ConnectionSpec.VerifyConnectionState(s, connection, height, proof, id, expected)
    ensures id in peer.host.store.connections && id in peer.connectionOrigins
    ensures expected == peer.connectionOrigins[id] || expected == peer.host.store.connections[id]
  {
    assert Past(peer, s.store.consensusStates[ConsensusKey(connection.clientId, height)].root);
  }

  /** A verified channel claim is about an end the peer had, as created or as it is. */
  lemma ProvedChannel(s: HostState, peer: Chain, connection: ConnectionEnd, height: uint64, proof: Bytes,
                      portId: Bytes, channelId: Bytes, expected: Channel)
    requires ClientsKnow(s.store.consensusStates, peer)
    requires ChannelSpec.VerifyChannelState(s, connection, height, proof, portId, channelId, expected)
    ensures var key := ChannelKey(portId, channelId);
            && key in peer.host.store.channels && key in peer.channelOrigins
            && (expected == peer.channelOrigins[key] || expected == peer.host.store.channels[key])
  {
    assert Past(peer, s.store.consensusStates[ConsensusKey(connection.clientId, height)].root);
  }

  // ----- Clients -----

  /** A client learns a root of the peer's; nothing else that is shared changes. */
  lemma ClientStep(c: Chain, peer: Chain, host: HostState, clientId: Bytes, height: uint64, client: ClientState,
                   consensus: ConsensusState)
    requires LocalInv(c) && Links(c, peer)
    requires Past(peer, consensus.root)
    requires host == SetConsensusState(
               SetClientState(c.host.(clientTypes := host.clientTypes, nextClientSequence := host.nextClientSequence),
                              clientId, client),
               clientId, height, consensus)
    ensures Kept(c, c.(host := host), peer)
  {
    hide ConnectionsInv, ChannelsInv, ChannelLogInv, EscrowsInv, SequencesInv, SentInv, CommittedInv, AcknowledgedInv;
    hide ReceivedInv, WrittenInv, ConnectionLinks, ChannelLinks, PacketLinks, Past;
  }

  // ----- Connections -----

  lemma FreshConnectionId(ends: Connections, origins: Connections, next: nat)
    requires ConnectionsInv(ends, origins, next)
    ensures ConnectionId(next) !in ends
  {
    if ConnectionId(next) in ends {
      var m: nat :| m < next && ConnectionId(next) == ConnectionId(m);
      ConnectionIdInjective(next, m);
      assert false;
    }
  }

  lemma ConnectionAdded(ends: Connections, origins: Connections, next: nat, end: ConnectionEnd)
    requires ConnectionsInv(ends, origins, next)
    requires end.state in {CONN_INIT, CONN_TRYOPEN} && end.versions == ConnectionSpec.GetVersions()
    ensures var id := ConnectionId(next);
            && id !in ends
            && ConnectionsInv(ends[id := end], origins[id := end], next + 1)
            && ConnectionsGrow(ends, origins, ends[id := end], origins[id := end])
  {
    FreshConnectionId(ends, origins, next);
    hide ConnectionId, ConnectionEvolves;
    var id := ConnectionId(next);
    var grown := ends[id := end];
    forall k | k in grown
      ensures exists n: nat :: n < next + 1 && k == ConnectionId(n)
    {
      if k != id {
        var n: nat :| n < next && k == ConnectionId(n);
        assert n < next + 1;
      }
    }
    assert ConnectionEvolves(end, end) by { EvolvesRefl(end); }
  }

  lemma EvolvesRefl(end: ConnectionEnd)
    ensures ConnectionEvolves(end, end)
  {
  }

  /** Channels look only at the connections that are open, and those never change. */
  lemma ChannelLinksKeep(ends: Channels, origins: Channels, c: Connections, d: Connections, peer: Chain)
    requires ChannelLinks(ends, origins, c, peer)
    requires forall id | id in c && c[id].state == CONN_OPEN :: id in d && d[id] == c[id]
    ensures ChannelLinks(ends, origins, d, peer)
  {
    forall key | key in ends && key in origins
      ensures ChannelLink(key, origins[key], ends[key], d, peer)
    {
      assert ChannelLink(key, origins[key], ends[key], c, peer);
    }
  }

  lemma ConnectionLinkAdded(ends: Connections, origins: Connections, id: Bytes, end: ConnectionEnd, peer: Chain)
    requires ConnectionLinks(ends, origins, peer)
    requires ConnectionLink(id, end, end, peer)
    ensures ConnectionLinks(ends[id := end], origins[id := end], peer)
  {
    hide ConnectionLink;
  }

  /** Only the connections change. */
  ghost predicate OnlyConnections(c: Chain, d: Chain) {
    && d == c.(host := d.host, connectionOrigins := d.connectionOrigins)
    && d.host == c.host.(store := d.host.store, nextConnectionSequence := d.host.nextConnectionSequence)
    && d.host.store == c.host.store.(connections := d.host.store.connections)
  }

  lemma ConnectionsChanged(c: Chain, d: Chain, peer: Chain)
    requires LocalInv(c) && Links(c, peer)
    requires OnlyConnections(c, d)
    requires ConnectionsInv(d.host.store.connections, d.connectionOrigins, d.host.nextConnectionSequence)
    requires ConnectionLinks(d.host.store.connections, d.connectionOrigins, peer)
    requires ConnectionsGrow(c.host.store.connections, c.connectionOrigins, d.host.store.connections, d.connectionOrigins)
    requires forall id | id in c.host.store.connections && c.host.store.connections[id].state == CONN_OPEN ::
               id in d.host.store.connections && d.host.store.connections[id] == c.host.store.connections[id]
    ensures Kept(c, d, peer)
  {
    var s := c.host.store;
    ChannelLinksKeep(s.channels, c.channelOrigins, s.connections, d.host.store.connections, peer);
    hide ConnectionsInv, ChannelsInv, ChannelLogInv, EscrowsInv, SequencesInv, SentInv, CommittedInv;
    hide AcknowledgedInv, ReceivedInv, WrittenInv, ConnectionLinks, ChannelLinks, PacketLinks, ClientsKnow;
    hide ConnectionsGrow;
  }

  /** What the invariant says of connections alone. */
  lemma ConnectionFacts(c: Chain, peer: Chain)
    requires LocalInv(c) && Links(c, peer)
    ensures ConnectionsInv(c.host.store.connections, c.connectionOrigins, c.host.nextConnectionSequence)
    ensures ConnectionLinks(c.host.store.connections, c.connectionOrigins, peer)
    ensures ClientsKnow(c.host.store.consensusStates, peer)
  {
    hide ConnectionsInv, ChannelsInv, ChannelLogInv, EscrowsInv, SequencesInv, SentInv, CommittedInv;
    hide AcknowledgedInv, ReceivedInv, WrittenInv, ConnectionLinks, ChannelLinks, PacketLinks, ClientsKnow;
  }

  /** An end that is not open is as it was created, as INIT or TRYOPEN. */
  lemma EndRecorded(c: Chain, id: Bytes)
    requires LocalInv(c) && id in c.host.store.connections
    ensures id in c.connectionOrigins && c.connectionOrigins[id].state in {CONN_INIT, CONN_TRYOPEN}
    ensures c.connectionOrigins[id].versions == ConnectionSpec.GetVersions()
    ensures var end := c.host.store.connections[id]; end.state != CONN_OPEN ==> end == c.connectionOrigins[id]
  {
    hide ConnectionId, ChannelsInv, ChannelLogInv, EscrowsInv, SequencesInv, SentInv, CommittedInv;
    hide AcknowledgedInv, ReceivedInv, WrittenInv;
    assert ConnectionEvolves(c.connectionOrigins[id], c.host.store.connections[id]);
  }

  lemma LinkOf(ends: Connections, origins: Connections, peer: Chain, id: Bytes)
    requires ConnectionLinks(ends, origins, peer) && id in ends && id in origins
    ensures ConnectionLink(id, origins[id], ends[id], peer)
  {
    hide ConnectionLink;
  }

  lemma AddConnectionStep(c: Chain, peer: Chain, end: ConnectionEnd)
    requires LocalInv(c) && Links(c, peer)
    requires c.host.nextConnectionSequence < TWO_64 - 1
    requires end.state in {CONN_INIT, CONN_TRYOPEN} && end.versions == ConnectionSpec.GetVersions()
    requires ConnectionLink(ConnectionId(c.host.nextConnectionSequence), end, end, peer)
    ensures var (host, id) := ConnectionSpec.AddConnection(c.host, end);
            Kept(c, RecordConnection(c, host, id), peer)
  {
    hide Kept, LocalInv, Links, ConnectionId, ConnectionsInv, ConnectionLinks, ConnectionLink, ConnectionsGrow, ClientsKnow;
    hide ConnectionSpec.GetVersions;
    var (host, id) := ConnectionSpec.AddConnection(c.host, end);
    var d := RecordConnection(c, host, id);
    var s := c.host.store;
    ConnectionFacts(c, peer);
    ConnectionAdded(s.connections, c.connectionOrigins, c.host.nextConnectionSequence, end);
    ConnectionLinkAdded(s.connections, c.connectionOrigins, id, end, peer);
    ConnectionsChanged(c, d, peer);
  }

  lemma ConnectionOpenInitStep(c: Chain, peer: Chain, msg: MsgConnectionOpenInit)
    requires LocalInv(c) && Links(c, peer)
    requires c.host.nextConnectionSequence < TWO_64 - 1
    ensures Kept(c, ChainSpec.ConnectionOpenInit(c, msg), peer)
  {
    hide LocalInv, Links, Kept;
    AddConnectionStep(c, peer, ConnectionEnd(msg.clientId, ConnectionSpec.GetVersions(), CONN_INIT, msg.delayPeriod, msg.counterparty));
  }

  lemma ConnectionOpenTryStep(c: Chain, peer: Chain, msg: MsgConnectionOpenTry)
    requires LocalInv(c) && Links(c, peer) && LocalInv(peer)
    requires c.host.nextConnectionSequence < TWO_64 - 1
    requires ChainSpec.ConnectionOpenTry(c, msg).Ok?
    ensures Kept(c, ChainSpec.ConnectionOpenTry(c, msg).value, peer)
  {
    hide Kept, LocalInv, Links, ConnectionId, ConnectionsInv, ConnectionLinks, ClientsKnow;
    ConnectionFacts(c, peer);
    var end := ConnectionEnd(msg.clientId, ConnectionSpec.GetVersions(), CONN_TRYOPEN, msg.delayPeriod, msg.counterparty);
    var expected :=
      ConnectionEnd(msg.counterparty.clientId, msg.counterpartyVersions, CONN_INIT, msg.delayPeriod,
                    Counterparty(msg.clientId, [], ConnectionSpec.COMMITMENT_PREFIX));
    ProvedConnection(c.host, peer, end, msg.proofHeight, msg.proofInit, msg.counterparty.connectionId, expected);
    EndRecorded(peer, msg.counterparty.connectionId);
    AddConnectionStep(c, peer, end);
  }

  lemma ConnectionOpened(ends: Connections, origins: Connections, next: nat, id: Bytes, end: ConnectionEnd, peer: Chain)
    requires ConnectionsInv(ends, origins, next) && ConnectionLinks(ends, origins, peer)
    requires id in ends && ends[id] == origins[id] && ends[id].state != CONN_OPEN
    requires end.state == CONN_OPEN && ConnectionEvolves(ends[id], end)
    requires ConnectionLink(id, origins[id], end, peer)
    ensures ConnectionsInv(ends[id := end], origins, next)
    ensures ConnectionLinks(ends[id := end], origins, peer)
    ensures ConnectionsGrow(ends, origins, ends[id := end], origins)
  {
    hide ConnectionId, ConnectionLink, ConnectionEvolves;
  }

  /** Opening an end that still is as it was created. */
  lemma OpenConnectionStep(c: Chain, peer: Chain, id: Bytes, end: ConnectionEnd)
    requires LocalInv(c) && Links(c, peer)
    requires id in c.host.store.connections && c.host.store.connections[id].state in {CONN_INIT, CONN_TRYOPEN}
    requires end.state == CONN_OPEN && ConnectionEvolves(c.host.store.connections[id], end)
    requires id in c.connectionOrigins && ConnectionLink(id, c.connectionOrigins[id], end, peer)
    ensures Kept(c, c.(host := SetConnection(c.host, id, end)), peer)
  {
    hide Kept, LocalInv, Links, ConnectionId, ConnectionsInv, ConnectionLinks, ConnectionsGrow, ConnectionLink, ClientsKnow;
    hide ConnectionEvolves;
    var d := c.(host := SetConnection(c.host, id, end));
    var s := c.host.store;
    ConnectionFacts(c, peer);
    EndRecorded(c, id);
    ConnectionOpened(s.connections, c.connectionOrigins, c.host.nextConnectionSequence, id, end, peer);
    ConnectionsChanged(c, d, peer);
  }

  /**
   An end that some TRYOPEN end of the peer ever pointed back at began as INIT: the peer
   had answered an INIT end under that identifier, and identifiers are never reused.
   Acknowledging from TRYOPEN is thus unreachable.
   */
  lemma PointedAtEndBeganAsInit(c: Chain, peer: Chain, id: Bytes, other: Bytes, claimed: ConnectionEnd)
    requires LocalInv(c) && LocalInv(peer) && Links(peer, c)
    requires id in c.connectionOrigins
    requires other in peer.host.store.connections && other in peer.connectionOrigins
    requires claimed == peer.connectionOrigins[other] || claimed == peer.host.store.connections[other]
    requires claimed.state == CONN_TRYOPEN && claimed.counterparty.connectionId == id
    ensures c.connectionOrigins[id].state == CONN_INIT
  {
    hide ConnectionId, ChannelsInv, ChannelLogInv, EscrowsInv, SequencesInv, SentInv, CommittedInv;
    hide AcknowledgedInv, ReceivedInv, WrittenInv, ChannelLinks, PacketLinks, ClientsKnow;
    assert ConnectionLink(other, peer.connectionOrigins[other], peer.host.store.connections[other], c);
  }

  lemma ConnectionOpenAckStep(c: Chain, peer: Chain, msg: MsgConnectionOpenAck)
    requires LocalInv(c) && Links(c, peer) && LocalInv(peer) && Links(peer, c)
    requires ChainSpec.ConnectionOpenAck(c, msg).Ok?
    ensures c.connectionOrigins[msg.connectionId].state == CONN_INIT
    ensures Kept(c, ChainSpec.ConnectionOpenAck(c, msg).value, peer)
  {
    hide Kept, LocalInv, Links, ConnectionId, ConnectionsInv, ConnectionLinks, ClientsKnow;
    ConnectionFacts(c, peer);
    EndRecorded(c, msg.connectionId);
    var end := c.host.store.connections[msg.connectionId];
    var expected :=
      ConnectionEnd(end.counterparty.clientId, [msg.version], CONN_TRYOPEN, end.delayPeriod,
                    Counterparty(end.clientId, msg.connectionId, ConnectionSpec.COMMITMENT_PREFIX));
    ProvedConnection(c.host, peer, end, msg.proofHeight, msg.proofTry, msg.counterpartyConnectionId, expected);
    EndRecorded(peer, msg.counterpartyConnectionId);
    PointedAtEndBeganAsInit(c, peer, msg.connectionId, msg.counterpartyConnectionId, expected);
    var agreed := end.(state := CONN_OPEN, versions := [msg.version],
                       counterparty := end.counterparty.(connectionId := msg.counterpartyConnectionId));
    OpenConnectionStep(c, peer, msg.connectionId, agreed);
  }

  lemma ConnectionOpenConfirmStep(c: Chain, peer: Chain, msg: MsgConnectionOpenConfirm)
    requires LocalInv(c) && Links(c, peer) && LocalInv(peer)
    requires ChainSpec.ConnectionOpenConfirm(c, msg).Ok?
    ensures Kept(c, ChainSpec.ConnectionOpenConfirm(c, msg).value, peer)
  {
    hide Kept, LocalInv, Links, ConnectionId, ConnectionsInv, ConnectionLinks, ClientsKnow;
    ConnectionFacts(c, peer);
    EndRecorded(c, msg.connectionId);
    var id := msg.connectionId;
    var end := c.host.store.connections[id];
    var expected :=
      ConnectionEnd(end.counterparty.clientId, end.versions, CONN_OPEN, end.delayPeriod,
                    Counterparty(end.clientId, id, ConnectionSpec.COMMITMENT_PREFIX));
    ProvedConnection(c.host, peer, end, msg.proofHeight, msg.proofAck, end.counterparty.connectionId, expected);
    EndRecorded(peer, end.counterparty.connectionId);
    LinkOf(c.host.store.connections, c.connectionOrigins, peer, id);
    OpenConnectionStep(c, peer, id, end.(state := CONN_OPEN));
  }
}
