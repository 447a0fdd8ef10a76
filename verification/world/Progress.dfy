/**
 When a packet or an acknowledgement goes through: besides a proof, and the packet not being
 late, only the ordering of the channel decides.
 */
module Progress {
  import opened Prelude
  import opened IBCIdentifier
  import opened IBCTypes
  import opened HostSpec
  import opened BankSpec
  import opened TransferSpec
  import opened ChainSpec
  import opened World
  import opened ProtocolInvariant
  import opened HandshakeSteps
  import opened ChannelSteps
  import opened PacketSteps
  import opened Runs
  import opened Ledger
  import opened Payments
  import opened Conservation
  import opened MoneySteps
  import opened MoneyRuns
  import opened History
  import opened Books
  import opened Theorems
  import AppMessages
  import ChannelSpec

  // ----- Receiving -----

  /** Whether the channel takes a packet of this sequence next. */
  predicate Expected(c: Chain, p: Packet)
    requires DestinationKey(p) in c.host.store.channels
  {
    match c.host.store.channels[DestinationKey(p)].ordering
    case ORDER_UNORDERED => true
    case ORDER_ORDERED => p.sequence == SequenceAt(c.host.nextSequenceRecvs, DestinationKey(p))
    case ORDER_NONE => false
  }

  lemma HostReceives(s: HostState, msg: MsgPacketRecv, env: Env, end: Channel, connection: ConnectionEnd)
    requires var p := msg.packet;
             && DestinationKey(p) in s.store.channels && end == s.store.channels[DestinationKey(p)]
             && end.state == CHAN_OPEN && SourceKey(p) == CounterpartyKey(end)
             && |end.connectionHops| == 1 && end.connectionHops[0] in s.store.connections
             && connection == s.store.connections[end.connectionHops[0]] && connection.state == CONN_OPEN
             && !ChannelSpec.TimedOut(p, env.number, env.timestamp)
             && ChannelSpec.VerifyPacketCommitment(s, connection, msg.proofHeight, msg.proof, p.sourcePort, p.sourceChannel,
                                                   p.sequence, MakePacketCommitment(p))
             && DestinationPacketKey(p) !in s.packetReceipts && DestinationPacketKey(p) !in s.store.acknowledgements
             && p.sequence >= 1
    ensures var p := msg.packet;
            var r := ChannelSpec.RecvPacket(s, msg, env);
            && r.Ok? == (match end.ordering
                         case ORDER_UNORDERED => true
                         case ORDER_ORDERED => p.sequence == SequenceAt(s.nextSequenceRecvs, DestinationKey(p))
                         case ORDER_NONE => false)
            && (r.Ok? ==>
                  && r.value.store == s.store)
  {
    hide ChannelSpec.VerifyPacketCommitment, ChannelSpec.TimedOut, MakePacketCommitment;
  }

  lemma HostWrites(s: HostState, t: HostState, p: Packet, ack: Bytes)
    requires t.store == s.store && ack in {ACK_SUCCESS, ACK_FAILURE}
    requires DestinationKey(p) in s.store.channels && s.store.channels[DestinationKey(p)].state == CHAN_OPEN
    requires DestinationPacketKey(p) !in s.store.acknowledgements
    ensures ChannelSpec.WriteAcknowledgement(t, p.destinationPort, p.destinationChannel, p.sequence, ack).Ok?
  {
  }

  lemma ReceivedIf(c: Chain, peer: Chain, i: nat, msg: MsgPacketRecv, env: Env)
    requires Linked(c, peer) && MoneyInv(c, peer) && BookInv(c) && i < |peer.sent| && msg.packet == peer.sent[i].packet
    requires var p := msg.packet;
             && DestinationPacketKey(p) !in c.host.store.acknowledgements
             && DestinationKey(p) in c.host.store.channels && c.host.store.channels[DestinationKey(p)].state == CHAN_OPEN
             && !ChannelSpec.TimedOut(p, env.number, env.timestamp)
             && var hops := c.host.store.channels[DestinationKey(p)].connectionHops;
             && |hops| == 1 && hops[0] in c.host.store.connections
             && ChannelSpec.VerifyPacketCommitment(c.host, c.host.store.connections[hops[0]], msg.proofHeight, msg.proof,
                                                   p.sourcePort, p.sourceChannel, p.sequence, MakePacketCommitment(p))
    ensures ChainSpec.RecvPacket(c, msg, env).Ok? == Expected(c, msg.packet)
  {
    hide LocalInv, Links, MoneyInv, WellFormed, BookInv, ModuleOwner, ChannelCapabilityPath;
    hide OnRecvPacket, AppMessages.Decode, ChannelSpec.VerifyPacketCommitment, ChannelSpec.TimedOut, MakePacketCommitment;
    hide ChannelSpec.RecvPacket, ChannelSpec.WriteAcknowledgement, FromEscrow, PaidDirectly, ReceivedDenom;
    var p := msg.packet;
    var key := DestinationKey(p);
    OwnerFound(c, key);
    NoReceipt(c, DestinationPacketKey(p));
    PaymentFound(c, peer, i);
    SentRouted(peer, i);
    WellFormedData(peer.sent[i], peer.app.address);
    LinkedSwap(c, peer);
    ChannelAgreed(peer, c, SourceKey(p));
    ChannelAgreed(c, peer, key);
    SentEntryBelow(peer, i);
    var end := c.host.store.channels[key];
    HostReceives(c.host, msg, env, end, c.host.store.connections[end.connectionHops[0]]);
    if ChannelSpec.RecvPacket(c.host, msg, env).Ok? {
      HostWrites(c.host, ChannelSpec.RecvPacket(c.host, msg, env).value, p, OnRecvPacket(c.bank, c.app, p).value.1);
    }
  }

  /**
   A packet the peer sent and this chain has not received, proved and in time, is accepted
   on an open channel exactly if the channel is unordered, or ordered and the packet is next.
   */
  lemma ReceivedExactly(setup: Setup, steps: seq<Step>, c: Chain, peer: Chain, i: nat, msg: MsgPacketRecv,
                        env: Env)
    requires After(setup, steps, c, peer) && i < |peer.sent| && msg.packet == peer.sent[i].packet
    requires var p := msg.packet;
             && DestinationPacketKey(p) !in c.host.store.acknowledgements
             && DestinationKey(p) in c.host.store.channels && c.host.store.channels[DestinationKey(p)].state == CHAN_OPEN
             && !ChannelSpec.TimedOut(p, env.number, env.timestamp)
             && var hops := c.host.store.channels[DestinationKey(p)].connectionHops;
             && |hops| == 1 && hops[0] in c.host.store.connections
             && ChannelSpec.VerifyPacketCommitment(c.host, c.host.store.connections[hops[0]], msg.proofHeight, msg.proof,
                                                   p.sourcePort, p.sourceChannel, p.sequence, MakePacketCommitment(p))
    ensures ChainSpec.RecvPacket(c, msg, env).Ok? == Expected(c, msg.packet)
  {
    hide After, Linked, MoneyInv, OrderedInv, BookInv, ChainSpec.RecvPacket, Expected, ChannelSpec.VerifyPacketCommitment;
    hide ChannelSpec.TimedOut, MakePacketCommitment;
    AfterRun(setup, steps, c, peer);
    ReceivedIf(c, peer, i, msg, env);
  }

  lemma SentEntryBelow(c: Chain, i: nat)
    requires LocalInv(c) && i < |c.sent|
    ensures c.sent[i].packet.sequence >= 1
  {
    hide LocalInv;
    assert WasSent(c.sent, c.sent[i].packet);
    SentBelowNext(c, c.sent[i].packet);
  }

  lemma NoReceipt(c: Chain, key: PacketKey)
    requires BookInv(c) && key !in c.host.store.acknowledgements
    ensures key !in c.host.packetReceipts
  {
    hide CapabilitiesInv;
  }

  // ----- Acknowledging -----

  lemma HostAcknowledges(s: HostState, msg: MsgPacketAcknowledgement, end: Channel, connection: ConnectionEnd)
    requires var p := msg.packet;
             && SourceKey(p) in s.store.channels && end == s.store.channels[SourceKey(p)]
             && end.state == CHAN_OPEN && DestinationKey(p) == CounterpartyKey(end)
             && |end.connectionHops| == 1 && end.connectionHops[0] in s.store.connections
             && connection == s.store.connections[end.connectionHops[0]] && connection.state == CONN_OPEN
             && SourcePacketKey(p) in s.store.packetCommitments
             && s.store.packetCommitments[SourcePacketKey(p)] == MakePacketCommitment(p)
             && ChannelSpec.VerifyPacketAcknowledgement(s, connection, msg.proofHeight, msg.proof, p.destinationPort,
                                                        p.destinationChannel, p.sequence, msg.acknowledgement)
             && p.sequence >= 1
    ensures ChannelSpec.AcknowledgePacket(s, msg).Ok? == (end.ordering != ORDER_ORDERED)
  {
    hide ChannelSpec.VerifyPacketAcknowledgement, MakePacketCommitment;
  }

  /** What is committed under a sent packet's key is that packet. */
  lemma CommittedIsSent(c: Chain, i: nat)
    requires LocalInv(c) && i < |c.sent| && SourcePacketKey(c.sent[i].packet) in c.host.store.packetCommitments
    ensures c.host.store.packetCommitments[SourcePacketKey(c.sent[i].packet)] == MakePacketCommitment(c.sent[i].packet)
  {
    hide ConnectionsInv, ChannelsInv, ChannelLogInv, EscrowsInv, SequencesInv, AcknowledgedInv, ReceivedInv, WrittenInv;
    hide WellRouted, WellFormed, MakePacketCommitment, SentInv;
    SentRouted(c, i);
    var key := SourcePacketKey(c.sent[i].packet);
    var j: nat :| SentAt(c.sent, j, key) && c.host.store.packetCommitments[key] == MakePacketCommitment(c.sent[j].packet);
    assert j == i;
  }

  lemma AcknowledgedIf(c: Chain, peer: Chain, i: nat, msg: MsgPacketAcknowledgement)
    requires Linked(c, peer) && MoneyInv(c, peer) && BookInv(c) && i < |c.sent| && msg.packet == c.sent[i].packet
    requires var p := msg.packet;
             && SourcePacketKey(p) in c.host.store.packetCommitments
             && SourceKey(p) in c.host.store.channels
             && var hops := c.host.store.channels[SourceKey(p)].connectionHops;
             && |hops| == 1 && hops[0] in c.host.store.connections
             && ChannelSpec.VerifyPacketAcknowledgement(c.host, c.host.store.connections[hops[0]], msg.proofHeight, msg.proof,
                                                        p.destinationPort, p.destinationChannel, p.sequence, msg.acknowledgement)
    ensures ChainSpec.AcknowledgePacket(c, msg).Ok?
            == (c.host.store.channels[SourceKey(msg.packet)].ordering != ORDER_ORDERED)
  {
    hide LocalInv, Links, MoneyInv, WellFormed, BookInv, ModuleOwner, ChannelCapabilityPath;
    hide OnAcknowledgementPacket, ChannelSpec.VerifyPacketAcknowledgement, MakePacketCommitment, ChannelSpec.AcknowledgePacket;
    var p := msg.packet;
    var key := SourceKey(p);
    OwnerFound(c, key);
    SentRouted(c, i);
    ChannelAgreed(c, peer, key);
    SentEntryBelow(c, i);
    CommittedIsSent(c, i);
    var end := c.host.store.channels[key];
    var connection := c.host.store.connections[end.connectionHops[0]];
    HostAcknowledges(c.host, msg, end, connection);
    LinksKnow(c, peer);
    ProvedAcknowledgement(c.host, peer, connection, msg.proofHeight, msg.proof, p, msg.acknowledgement);
    WrittenAck(peer, DestinationPacketKey(p), msg.acknowledgement);
    if msg.acknowledgement == ACK_SUCCESS {
      SuccessKeeps(c.bank, c.app, p);
    } else {
      RefundFound(c, peer, i);
    }
  }

  /**
   The acknowledgement of a sent packet that is still committed, once proved, goes through
   exactly if the channel is not ordered, and with it the refund if one is due.
   */
  lemma AcknowledgedExactly(setup: Setup, steps: seq<Step>, c: Chain, peer: Chain, i: nat,
                            msg: MsgPacketAcknowledgement)
    requires After(setup, steps, c, peer) && i < |c.sent| && msg.packet == c.sent[i].packet
    requires var p := msg.packet;
             && SourcePacketKey(p) in c.host.store.packetCommitments
             && SourceKey(p) in c.host.store.channels
             && var hops := c.host.store.channels[SourceKey(p)].connectionHops;
             && |hops| == 1 && hops[0] in c.host.store.connections
             && ChannelSpec.VerifyPacketAcknowledgement(c.host, c.host.store.connections[hops[0]], msg.proofHeight, msg.proof,
                                                        p.destinationPort, p.destinationChannel, p.sequence, msg.acknowledgement)
    ensures ChainSpec.AcknowledgePacket(c, msg).Ok?
            == (c.host.store.channels[SourceKey(msg.packet)].ordering != ORDER_ORDERED)
  {
    hide After, Linked, MoneyInv, OrderedInv, BookInv, ChainSpec.AcknowledgePacket, ChannelSpec.VerifyPacketAcknowledgement;
    AfterRun(setup, steps, c, peer);
    AcknowledgedIf(c, peer, i, msg);
  }

  lemma LinksKnow(c: Chain, peer: Chain)
    requires Links(c, peer)
    ensures ClientsKnow(c.host.store.consensusStates, peer)
  {
    hide ClientsKnow;
  }
}
