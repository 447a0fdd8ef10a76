/** The channel handshake keeps the protocol invariant. */
module ChannelSteps {
  import opened Prelude
  import opened IBCIdentifier
  import opened IBCTypes
  import opened HostSpec
  import opened ChainSpec
  import opened TransferSpec
  import opened World
  import opened ProtocolInvariant
  import opened HandshakeSteps
  import ChannelSpec

  /** Open ends stay as they are, and no end changes its ordering. */
  ghost predicate EndsKeep(c: Channels, d: Channels) {
    && (forall key | key in c && c[key].state == CHAN_OPEN :: key in d && d[key] == c[key])
    && (forall key | key in c :: key in d && d[key].ordering == c[key].ordering)
  }

  ghost predicate SendsKeep(c: map<ChannelKey, uint64>, d: map<ChannelKey, uint64>) {
    && (forall key | key in c :: key in d && d[key] == c[key])
    && (forall key | key in d && key !in c :: d[key] == 1)
  }

  lemma PacketsKeep(c: Chain, d: Chain)
    requires LocalInv(c)
    requires EndsKeep(c.host.store.channels, d.host.store.channels)
    requires SendsKeep(c.host.nextSequenceSends, d.host.nextSequenceSends)
    ensures SentInv(c.sent, d.host.store.channels, d.host.nextSequenceSends, c.app.address)
    ensures AcknowledgedInv(c.acknowledged, c.sent, d.host.store.channels)
    ensures ReceivedInv(c.received, d.host.store.channels)
  {
    hide WellFormed, ConnectionsInv, ChannelsInv, ChannelLogInv, EscrowsInv, CommittedInv, WrittenInv, WasSent;
  }

  /** Only the channels change, with their sequences, capabilities and escrow accounts. */
  ghost predicate OnlyChannels(c: Chain, d: Chain) {
    && d == c.(host := d.host, app := d.app, channelOrigins := d.channelOrigins, channelLog := d.channelLog)
    && d.app.address == c.app.address
    && d.host.nextConnectionSequence == c.host.nextConnectionSequence
    && d.host.store == c.host.store.(channels := d.host.store.channels)
  }

  lemma ChannelsChanged(c: Chain, d: Chain, peer: Chain)
    requires LocalInv(c) && Links(c, peer)
    requires OnlyChannels(c, d)
    requires EndsKeep(c.host.store.channels, d.host.store.channels)
    requires SendsKeep(c.host.nextSequenceSends, d.host.nextSequenceSends)
    requires ChannelsInv(d.host.store.channels, d.channelOrigins)
    requires ChannelLogInv(d.host.store.channels, d.channelLog, d.host.nextChannelSequence)
    requires EscrowsInv(d.host.store.channels, d.app)
    requires SequencesInv(d.host.nextSequenceSends, d.host.store.channels, |d.sent|)
    requires ChannelLinks(d.host.store.channels, d.channelOrigins, d.host.store.connections, peer)
    requires ChannelsGrow(c.host.store.channels, c.channelOrigins, d.host.store.channels, d.channelOrigins)
    ensures Kept(c, d, peer)
  {
    PacketsKeep(c, d);
    hide ConnectionsInv, ChannelsInv, ChannelLogInv, EscrowsInv, SequencesInv, SentInv, CommittedInv;
    hide AcknowledgedInv, ReceivedInv, WrittenInv, ConnectionLinks, ChannelLinks, PacketLinks, ClientsKnow;
    hide ChannelsGrow, EndsKeep, SendsKeep;
  }

  // ----- New channels -----

  lemma FreshChannelId(ends: Channels, log: seq<ChannelKey>, next: nat, key: ChannelKey)
    requires ChannelLogInv(ends, log, next)
    requires key.channelId == ChannelId(next)
    ensures key !in ends
  {
    if key in ends {
      var i :| 0 <= i < |log| && log[i] == key;
      ChannelIdInjective(i, next);
    }
  }

  lemma ChannelAdded(ends: Channels, origins: Channels, key: ChannelKey, end: Channel)
    requires ChannelsInv(ends, origins)
    requires key !in ends
    requires end.state in {CHAN_INIT, CHAN_TRYOPEN} && |end.connectionHops| == 1
    ensures ChannelsInv(ends[key := end], origins[key := end])
    ensures ChannelsGrow(ends, origins, ends[key := end], origins[key := end])
    ensures EndsKeep(ends, ends[key := end])
  {
    assert ChannelEvolves(end, end);
    hide ChannelEvolves;
  }

  lemma ChannelLogged(ends: Channels, log: seq<ChannelKey>, next: nat, key: ChannelKey, end: Channel)
    requires ChannelLogInv(ends, log, next)
    requires key.channelId == ChannelId(next) && SlashFree(key.portId)
    ensures ChannelLogInv(ends[key := end], log + [key], next + 1)
  {
    hide ChannelId, SlashFree;
    var newLog := log + [key];
    assert newLog[|log|] == key;
    assert forall k | k in log :: k in newLog;
  }

  lemma SequencesAdded(sends: map<ChannelKey, uint64>, ends: Channels, count: nat, key: ChannelKey, end: Channel)
    requires SequencesInv(sends, ends, count)
    requires key !in ends
    ensures SequencesInv(sends[key := 1], ends[key := end], count)
    ensures SendsKeep(sends, sends[key := 1])
  {
  }

  lemma EscrowAdded(ends: Channels, app: AppState, key: ChannelKey, end: Channel)
    requires EscrowsInv(ends, app)
    ensures EscrowsInv(ends[key := end], app.(escrows := app.escrows[key.channelId := app.address]))
  {
  }

  lemma ChannelLinkAdded(ends: Channels, origins: Channels, connections: Connections, key: ChannelKey, end: Channel,
                         peer: Chain)
    requires ChannelLinks(ends, origins, connections, peer)
    requires ChannelLink(key, end, end, connections, peer)
    ensures ChannelLinks(ends[key := end], origins[key := end], connections, peer)
  {
    hide ChannelLink;
  }

  /** What storing and recording a new channel does to a chain. */
  lemma NewChannelShape(c: Chain, portId: Bytes, end: Channel)
    requires c.host.nextChannelSequence < TWO_64 - 1
    requires var (host, id) := ChannelSpec.AddChannel(c.host, portId, end); RecordChannel(c, host, portId, id).Ok?
    ensures var (host, id) := ChannelSpec.AddChannel(c.host, portId, end);
            var d := RecordChannel(c, host, portId, id).value;
            var key := ChannelKey(portId, id);
            && id == ChannelId(c.host.nextChannelSequence)
            && OnlyChannels(c, d)
            && d.host.store.channels == c.host.store.channels[key := end]
            && d.channelOrigins == c.channelOrigins[key := end]
            && d.channelLog == c.channelLog + [key]
            && d.host.nextChannelSequence == c.host.nextChannelSequence + 1
            && d.host.nextSequenceSends == c.host.nextSequenceSends[key := 1]
            && d.app == c.app.(escrows := c.app.escrows[id := c.app.address])
  {
    hide ChannelId, ChannelCapabilityPath;
  }

  lemma AddChannelStep(c: Chain, peer: Chain, portId: Bytes, end: Channel)
    requires LocalInv(c) && Links(c, peer)
    requires c.host.nextChannelSequence < TWO_64 - 1
    requires SlashFree(portId)
    requires end.state in {CHAN_INIT, CHAN_TRYOPEN} && |end.connectionHops| == 1
    requires ChannelLink(ChannelKey(portId, ChannelId(c.host.nextChannelSequence)), end, end, c.host.store.connections, peer)
    requires var (host, id) := ChannelSpec.AddChannel(c.host, portId, end); RecordChannel(c, host, portId, id).Ok?
    ensures var (host, id) := ChannelSpec.AddChannel(c.host, portId, end);
            Kept(c, RecordChannel(c, host, portId, id).value, peer)
  {
    var (host, id) := ChannelSpec.AddChannel(c.host, portId, end);
    var d := RecordChannel(c, host, portId, id).value;
    NewChannelShape(c, portId, end);
    hide ChannelSpec.AddChannel, RecordChannel, ChannelId, ChannelLink, SlashFree, Kept, OnlyChannels;
    hide ConnectionsInv, ChannelsInv, ChannelLogInv, SequencesInv, EscrowsInv, SentInv, CommittedInv, AcknowledgedInv;
    hide ReceivedInv, WrittenInv, ChannelLinks, ConnectionLinks, PacketLinks, ClientsKnow;
    hide ChannelsGrow, EndsKeep, SendsKeep;
    var ends, key := c.host.store.channels, ChannelKey(portId, id);
    FreshChannelId(ends, c.channelLog, c.host.nextChannelSequence, key);
    ChannelAdded(ends, c.channelOrigins, key, end);
    ChannelLogged(ends, c.channelLog, c.host.nextChannelSequence, key, end);
    SequencesAdded(c.host.nextSequenceSends, ends, |c.sent|, key, end);
    EscrowAdded(ends, c.app, key, end);
    ChannelLinkAdded(ends, c.channelOrigins, c.host.store.connections, key, end, peer);
    UnhideOnlyChannels(c, d);
    hide LocalInv, Links;
    ChannelsChanged(c, d, peer);
  }

  lemma UnhideOnlyChannels(c: Chain, d: Chain)
    requires OnlyChannels(c, d)
    ensures d.sent == c.sent && d.host.store.connections == c.host.store.connections
  {
  }

  lemma ChannelOpenInitStep(c: Chain, peer: Chain, msg: MsgChannelOpenInit)
    requires LocalInv(c) && Links(c, peer)
    requires c.host.nextChannelSequence < TWO_64 - 1
    requires SlashFree(msg.portId)
    requires ChainSpec.ChannelOpenInit(c, msg).Ok?
    ensures Kept(c, ChainSpec.ChannelOpenInit(c, msg).value, peer)
  {
    hide LocalInv, Links, Kept, SlashFree, RecordChannel;
    AddChannelStep(c, peer, msg.portId, msg.channel);
  }

  lemma ChannelOpenTryStep(c: Chain, peer: Chain, msg: MsgChannelOpenTry)
    requires LocalInv(c) && Links(c, peer) && LocalInv(peer)
    requires c.host.nextChannelSequence < TWO_64 - 1
    requires SlashFree(msg.portId)
    requires ChainSpec.ChannelOpenTry(c, msg).Ok?
    ensures Kept(c, ChainSpec.ChannelOpenTry(c, msg).value, peer)
  {
    hide Kept, SlashFree, RecordChannel, ChannelId;
    hide ConnectionsInv, ChannelLogInv, EscrowsInv, SequencesInv, SentInv, CommittedInv;
    hide AcknowledgedInv, ReceivedInv, WrittenInv, ConnectionLinks, ChannelLinks, PacketLinks;
    var connection := ChannelSpec.HopConnection(c.host, msg.channel).value;
    var expected :=
      Channel(CHAN_INIT, msg.channel.ordering, ChannelCounterparty(msg.portId, []),
              [connection.counterparty.connectionId], msg.counterpartyVersion);
    ProvedChannel(c.host, peer, connection, msg.proofHeight, msg.proofInit,
                  msg.channel.counterparty.portId, msg.channel.counterparty.channelId, expected);
    AddChannelStep(c, peer, msg.portId, msg.channel);
  }

  // ----- Opening channels -----

  /** How an end began: it never began open, and until it opens it is as it began. */
  lemma ChannelBeginning(ends: Channels, origins: Channels, key: ChannelKey)
    requires ChannelsInv(ends, origins) && key in ends
    ensures key in origins && origins[key].state in {CHAN_INIT, CHAN_TRYOPEN}
    ensures ChannelEvolves(origins[key], ends[key])
    ensures ends[key].state != CHAN_OPEN ==> ends[key] == origins[key]
    ensures |ends[key].connectionHops| == 1
  {
  }

  lemma ChannelLinkOf(ends: Channels, origins: Channels, connections: Connections, peer: Chain, key: ChannelKey)
    requires ChannelLinks(ends, origins, connections, peer)
    requires key in ends && key in origins
    ensures ChannelLink(key, origins[key], ends[key], connections, peer)
  {
    hide ChannelLink;
  }

  lemma ChannelEndOpened(ends: Channels, origins: Channels, connections: Connections, key: ChannelKey, end: Channel,
                         peer: Chain)
    requires ChannelsInv(ends, origins) && ChannelLinks(ends, origins, connections, peer)
    requires key in ends && ends[key].state in {CHAN_INIT, CHAN_TRYOPEN}
    requires end.state == CHAN_OPEN && ChannelEvolves(ends[key], end)
    requires ChannelLink(key, origins[key], end, connections, peer)
    ensures ChannelsInv(ends[key := end], origins)
    ensures ChannelLinks(ends[key := end], origins, connections, peer)
    ensures ChannelsGrow(ends, origins, ends[key := end], origins)
    ensures EndsKeep(ends, ends[key := end])
  {
    hide ChannelLink;
  }

  lemma SameKeysKeep(ends: Channels, log: seq<ChannelKey>, next: nat, app: AppState, sends: map<ChannelKey, uint64>,
                     count: nat, key: ChannelKey, end: Channel)
    requires ChannelLogInv(ends, log, next) && EscrowsInv(ends, app) && SequencesInv(sends, ends, count)
    requires key in ends
    ensures ChannelLogInv(ends[key := end], log, next)
    ensures EscrowsInv(ends[key := end], app)
    ensures SequencesInv(sends, ends[key := end], count)
    ensures SendsKeep(sends, sends)
  {
    hide ChannelId, SlashFree;
    assert ends[key := end].Keys == ends.Keys;
  }

  lemma OpenChannelStep(c: Chain, peer: Chain, key: ChannelKey, end: Channel)
    requires LocalInv(c) && Links(c, peer)
    requires key in c.host.store.channels && c.host.store.channels[key].state in {CHAN_INIT, CHAN_TRYOPEN}
    requires end.state == CHAN_OPEN && ChannelEvolves(c.host.store.channels[key], end)
    requires key in c.channelOrigins && ChannelLink(key, c.channelOrigins[key], end, c.host.store.connections, peer)
    ensures Kept(c, c.(host := SetChannel(c.host, key.portId, key.channelId, end)), peer)
  {
    var d := c.(host := SetChannel(c.host, key.portId, key.channelId, end));
    var s := c.host.store;
    hide ChannelLink, ChannelEvolves, Kept, ConnectionsInv, ChannelLogInv, SequencesInv, EscrowsInv, SentInv;
    hide CommittedInv, AcknowledgedInv, ReceivedInv, WrittenInv, ConnectionLinks, PacketLinks, ClientsKnow;
    assert ChannelsInv(s.channels, c.channelOrigins);
    ChannelEndOpened(s.channels, c.channelOrigins, s.connections, key, end, peer);
    SameKeysKeep(s.channels, c.channelLog, c.host.nextChannelSequence, c.app, c.host.nextSequenceSends, |c.sent|, key, end);
    hide LocalInv, Links, ChannelsInv, ChannelLinks, ChannelsGrow, EndsKeep, SendsKeep;
    ChannelsChanged(c, d, peer);
  }

  /** As for connections: an end some TRYOPEN end of the peer ever named began as INIT. */
  lemma NamedEndBeganAsInit(c: Chain, peer: Chain, key: ChannelKey, other: ChannelKey, claimed: Channel)
    requires LocalInv(c) && LocalInv(peer) && Links(peer, c)
    requires key in c.channelOrigins
    requires other in peer.host.store.channels && other in peer.channelOrigins
    requires claimed == peer.channelOrigins[other] || claimed == peer.host.store.channels[other]
    requires claimed.state == CHAN_TRYOPEN && CounterpartyKey(claimed) == key
    ensures c.channelOrigins[key].state == CHAN_INIT
  {
    hide ConnectionsInv, ChannelLogInv, EscrowsInv, SequencesInv, SentInv, CommittedInv;
    hide AcknowledgedInv, ReceivedInv, WrittenInv, ConnectionLinks, PacketLinks, ClientsKnow;
    assert ChannelLink(other, peer.channelOrigins[other], peer.host.store.channels[other], peer.host.store.connections, c);
  }

  function Agreed(end: Channel, channelId: Bytes, version: Bytes): Channel {
    end.(state := CHAN_OPEN, version := version, counterparty := end.counterparty.(channelId := channelId))
  }

  /** What an accepted acknowledgement checked, and what it stores. */
  lemma ChannelAckShape(c: Chain, msg: MsgChannelOpenAck)
    requires ChainSpec.ChannelOpenAck(c, msg).Ok?
    ensures var key := ChannelKey(msg.portId, msg.channelId);
            && key in c.host.store.channels
            && var end := c.host.store.channels[key];
            && end.state in {CHAN_INIT, CHAN_TRYOPEN}
            && |end.connectionHops| == 1
            && end.connectionHops[0] in c.host.store.connections
            && var connection := c.host.store.connections[end.connectionHops[0]];
            && connection.state == CONN_OPEN
            && ChannelSpec.VerifyChannelState(
                 c.host, connection, msg.proofHeight, msg.proofTry, end.counterparty.portId, msg.counterpartyChannelId,
                 Channel(CHAN_TRYOPEN, end.ordering, ChannelCounterparty(msg.portId, msg.channelId),
                         [connection.counterparty.connectionId], msg.counterpartyVersion))
            && ChainSpec.ChannelOpenAck(c, msg).value
               == c.(host := SetChannel(c.host, msg.portId, msg.channelId,
                                        Agreed(end, msg.counterpartyChannelId, msg.counterpartyVersion)))
  {
    hide ChannelSpec.VerifyChannelState;
  }

  /** The TRYOPEN end the peer proved is still how that end began. */
  lemma AckedChannelLink(key: ChannelKey, origin: Channel, end: Channel, connections: Connections, peer: Chain,
                         channelId: Bytes, version: Bytes)
    requires origin.state == CHAN_INIT
    requires |end.connectionHops| == 1 && end.connectionHops[0] in connections
    requires connections[end.connectionHops[0]].state == CONN_OPEN
    requires var other := ChannelKey(end.counterparty.portId, channelId);
             var expected := Channel(CHAN_TRYOPEN, end.ordering, ChannelCounterparty(key.portId, key.channelId),
                                     [connections[end.connectionHops[0]].counterparty.connectionId], version);
             && other in peer.host.store.channels && other in peer.channelOrigins
             && ChannelEvolves(peer.channelOrigins[other], peer.host.store.channels[other])
             && (expected == peer.channelOrigins[other] || expected == peer.host.store.channels[other])
    ensures ChannelLink(key, origin, Agreed(end, channelId, version), connections, peer)
  {
  }

  /** The OPEN end the peer proved is how that end is now. */
  lemma ConfirmedChannelLink(key: ChannelKey, origin: Channel, end: Channel, connections: Connections, peer: Chain)
    requires end.state != CHAN_OPEN && ChannelLink(key, origin, end, connections, peer)
    requires origin.state == CHAN_TRYOPEN
    requires |end.connectionHops| == 1 && end.connectionHops[0] in connections
    requires connections[end.connectionHops[0]].state == CONN_OPEN
    requires var other := CounterpartyKey(end);
             var expected := Channel(CHAN_OPEN, end.ordering, ChannelCounterparty(key.portId, key.channelId),
                                     [connections[end.connectionHops[0]].counterparty.connectionId], end.version);
             && other in peer.host.store.channels && other in peer.channelOrigins
             && peer.channelOrigins[other].state != CHAN_OPEN
             && (expected == peer.channelOrigins[other] || expected == peer.host.store.channels[other])
    ensures ChannelLink(key, origin, end.(state := CHAN_OPEN), connections, peer)
  {
  }

  lemma ChannelOpenAckStep(c: Chain, peer: Chain, msg: MsgChannelOpenAck)
    requires LocalInv(c) && Links(c, peer) && LocalInv(peer) && Links(peer, c)
    requires ChainSpec.ChannelOpenAck(c, msg).Ok?
    ensures ChannelKey(msg.portId, msg.channelId) in c.channelOrigins
    ensures c.channelOrigins[ChannelKey(msg.portId, msg.channelId)].state == CHAN_INIT
    ensures Kept(c, ChainSpec.ChannelOpenAck(c, msg).value, peer)
  {
    ChannelAckShape(c, msg);
    hide Kept, ConnectionsInv, ChannelsInv, ChannelLogInv, EscrowsInv, SequencesInv, SentInv, CommittedInv;
    hide AcknowledgedInv, ReceivedInv, WrittenInv, ConnectionLinks, ChannelLinks, PacketLinks, ClientsKnow;
    hide SetChannel, ChainSpec.ChannelOpenAck, ChannelSpec.VerifyChannelState, ChannelLink, ChannelEvolves;
    var key := ChannelKey(msg.portId, msg.channelId);
    var other := ChannelKey(c.host.store.channels[key].counterparty.portId, msg.counterpartyChannelId);
    var end := c.host.store.channels[key];
    var connection := c.host.store.connections[end.connectionHops[0]];
    var expected :=
      Channel(CHAN_TRYOPEN, end.ordering, ChannelCounterparty(msg.portId, msg.channelId),
              [connection.counterparty.connectionId], msg.counterpartyVersion);
    ProvedChannel(c.host, peer, connection, msg.proofHeight, msg.proofTry, other.portId, other.channelId, expected);
    ChannelBeginning(c.host.store.channels, c.channelOrigins, key);
    ChannelBeginning(peer.host.store.channels, peer.channelOrigins, other);
    NamedEndBeganAsInit(c, peer, key, other, expected);
    AckedChannelLink(key, c.channelOrigins[key], end, c.host.store.connections, peer, other.channelId, msg.counterpartyVersion);
    hide LocalInv, Links;
    AgreedEvolves(end, msg.counterpartyChannelId, msg.counterpartyVersion);
    OpenChannelStep(c, peer, key, Agreed(end, msg.counterpartyChannelId, msg.counterpartyVersion));
  }

  lemma AgreedEvolves(end: Channel, channelId: Bytes, version: Bytes)
    requires end.state in {CHAN_INIT, CHAN_TRYOPEN}
    ensures end.state == CHAN_INIT ==> ChannelEvolves(end, Agreed(end, channelId, version))
    ensures end.state == CHAN_TRYOPEN ==> ChannelEvolves(end, end.(state := CHAN_OPEN))
  {
  }

  /** What an accepted confirmation checked, and what it stores. */
  lemma ChannelConfirmShape(c: Chain, msg: MsgChannelOpenConfirm)
    requires ChainSpec.ChannelOpenConfirm(c, msg).Ok?
    ensures var key := ChannelKey(msg.portId, msg.channelId);
            && key in c.host.store.channels
            && var end := c.host.store.channels[key];
            && end.state == CHAN_TRYOPEN
            && |end.connectionHops| == 1
            && end.connectionHops[0] in c.host.store.connections
            && var connection := c.host.store.connections[end.connectionHops[0]];
            && connection.state == CONN_OPEN
            && ChannelSpec.VerifyChannelState(
                 c.host, connection, msg.proofHeight, msg.proofAck, end.counterparty.portId, end.counterparty.channelId,
                 Channel(CHAN_OPEN, end.ordering, ChannelCounterparty(msg.portId, msg.channelId),
                         [connection.counterparty.connectionId], end.version))
            && ChainSpec.ChannelOpenConfirm(c, msg).value
               == c.(host := SetChannel(c.host, msg.portId, msg.channelId, end.(state := CHAN_OPEN)))
  {
    hide ChannelSpec.VerifyChannelState;
  }

  lemma ChannelOpenConfirmStep(c: Chain, peer: Chain, msg: MsgChannelOpenConfirm)
    requires LocalInv(c) && Links(c, peer) && LocalInv(peer)
    requires ChainSpec.ChannelOpenConfirm(c, msg).Ok?
    ensures Kept(c, ChainSpec.ChannelOpenConfirm(c, msg).value, peer)
  {
    ChannelConfirmShape(c, msg);
    hide Kept, ConnectionsInv, ChannelsInv, ChannelLogInv, EscrowsInv, SequencesInv, SentInv, CommittedInv;
    hide AcknowledgedInv, ReceivedInv, WrittenInv, ConnectionLinks, ChannelLinks, PacketLinks, ClientsKnow;
    hide SetChannel, ChainSpec.ChannelOpenConfirm, ChannelSpec.VerifyChannelState, ChannelLink, ChannelEvolves;
    var key := ChannelKey(msg.portId, msg.channelId);
    var end := c.host.store.channels[key];
    var other := CounterpartyKey(end);
    var connection := c.host.store.connections[end.connectionHops[0]];
    var expected :=
      Channel(CHAN_OPEN, end.ordering, ChannelCounterparty(msg.portId, msg.channelId),
              [connection.counterparty.connectionId], end.version);
    ProvedChannel(c.host, peer, connection, msg.proofHeight, msg.proofAck, other.portId, other.channelId, expected);
    ChannelBeginning(c.host.store.channels, c.channelOrigins, key);
    ChannelBeginning(peer.host.store.channels, peer.channelOrigins, other);
    ChannelLinkOf(c.host.store.channels, c.channelOrigins, c.host.store.connections, peer, key);
    ConfirmedChannelLink(key, c.channelOrigins[key], end, c.host.store.connections, peer);
    hide LocalInv, Links;
    AgreedEvolves(end, [], []);
    OpenChannelStep(c, peer, key, end.(state := CHAN_OPEN));
  }
}
