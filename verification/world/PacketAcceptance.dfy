/**
 Which transfers are sent, and which packets and acknowledgements go through in a run: with the
 timeouts written out, and over the sealed blocks of the peer that the client was shown.
 */
module PacketAcceptance {
  import opened Prelude
  import opened IBCIdentifier
  import opened IBCTypes
  import opened HostSpec
  import opened BankSpec
  import opened TransferSpec
  import opened ChainSpec
  import opened World
  import opened ProtocolInvariant
  import opened HandshakeSteps
  import opened PacketSteps
  import opened Conservation
  import opened MoneySteps
  import opened History
  import opened Books
  import opened Continuation
  import opened Theorems
  import opened Progress
  import opened Timeouts
  import opened Clients
  import opened HandshakeAcceptance
  import AppMessages
  import ChannelSpec

  // ----- Sending -----

  /** What a packet has to be for the host to send it, whatever the host's state. */
  ghost predicate Sendable(s: HostState, p: Packet) {
    var key := ChannelKey(p.sourcePort, p.sourceChannel);
    && key in s.store.channels
    && var end := s.store.channels[key];
    && end.state == CHAN_OPEN
    && end.counterparty == ChannelCounterparty(p.destinationPort, p.destinationChannel)
    && |end.connectionHops| > 0 && end.connectionHops[0] in s.store.connections
    && s.store.connections[end.connectionHops[0]].state != CONN_UNINITIALIZED
    && var id := s.store.connections[end.connectionHops[0]].clientId;
    && (if id in s.clientTypes then s.clientTypes[id] else []) in s.clientImpls
    && var latest := if id in s.store.clientStates then s.store.clientStates[id].latestHeight else 0;
    && ConsensusKey(id, latest) in s.store.consensusStates
    && (p.timeoutHeight.revisionHeight == 0 || latest < p.timeoutHeight.revisionHeight)
    && (p.timeoutTimestamp == 0 || s.store.consensusStates[ConsensusKey(id, latest)].timestamp < p.timeoutTimestamp)
    && key in s.nextSequenceSends && s.nextSequenceSends[key] != 0 && p.sequence == s.nextSequenceSends[key]
  }

  /** The host sends exactly these packets: it commits to each under its key, and counts it. */
  lemma HostSendsExactly(s: HostState, p: Packet)
    ensures var key := ChannelKey(p.sourcePort, p.sourceChannel);
            ChannelSpec.SendPacket(s, p)
            == if Sendable(s, p)
               then Ok(s.(nextSequenceSends := s.nextSequenceSends[key := Inc64(p.sequence)],
                          store := s.store.(packetCommitments :=
                            s.store.packetCommitments[PacketKey(key, p.sequence)
                                                      := PacketDigest(p.timeoutTimestamp, p.timeoutHeight, p.data)])))
               else Revert
  {
    hide Inc64;
  }

  /** What the sender has is enough; and only that counts. */
  lemma TakenExactly(bank: BankState, app: AppState, t: Transfer)
    requires t.channel in app.escrows && app.escrows[t.channel] == app.address != ZERO_ADDRESS
    ensures TakeTokens(bank, app, t).Ok? <==> BalanceOf(bank, t.denom, t.sender) >= t.amount
  {
    hide IsVoucher, BalanceOf;
  }

  /** The client's latest height has a consensus state, and that height is before the timeout, if there is one. */
  ghost predicate InTimeFor(c: Chain, id: Bytes, timeoutHeight: uint64) {
    && id in c.host.store.clientStates
    && var latest := c.host.store.clientStates[id].latestHeight;
    && ConsensusKey(id, latest) in c.host.store.consensusStates
    && (timeoutHeight == 0 || latest < timeoutHeight)
  }

  /** The client under an open channel end. */
  function ClientOf(c: Chain, key: ChannelKey): Bytes
    requires key in c.host.store.channels && OverConnection(c, c.host.store.channels[key])
  {
    c.host.store.connections[c.host.store.channels[key].connectionHops[0]].clientId
  }

  lemma OpenEndRuns(c: Chain, peer: Chain, key: ChannelKey)
    requires Facts(c, peer) && key in c.host.store.channels && c.host.store.channels[key].state == CHAN_OPEN
    ensures OverOpenConnection(c, c.host.store.channels[key])
  {
    hide Facts, Linked, LocalInv, Links;
    FactParts(c, peer);
    ChannelAgreed(c, peer, key);
  }

  /** Everything a transfer needs but the tokens. */
  ghost predicate CanSend(c: Chain, t: Transfer) {
    var key := ChannelKey(t.port, t.channel);
    && key in c.host.store.channels && c.host.store.channels[key].state == CHAN_OPEN
    && OverConnection(c, c.host.store.channels[key]) && InTimeFor(c, ClientOf(c, key), t.timeoutHeight)
  }

  lemma TransferSendable(c: Chain, peer: Chain, t: Transfer)
    requires Facts(c, peer) && ChannelKey(t.port, t.channel) in c.host.store.channels
    ensures var key := ChannelKey(t.port, t.channel);
            var e := TransferEvent(t, SequenceAt(c.host.nextSequenceSends, key), c.host.store.channels[key]);
            Sendable(c.host, e.packet) <==> CanSend(c, t)
  {
    hide Facts, Linked, LocalInv, Links, BookInv, MoneyInv, AppMessages.Encode, Numbered, OverConnection;
    FactParts(c, peer);
    var key := ChannelKey(t.port, t.channel);
    Counted1(c, key);
    if c.host.store.channels[key].state == CHAN_OPEN {
      OpenEndRuns(c, peer, key);
      HopKnown(c, c.host.store.channels[key]);
      var id := ClientOf(c, key);
      assert id in c.host.store.clientStates ==> id in c.host.clientTypes.Keys;
      StoredEnd(c, c.host.store.channels[key].connectionHops[0]);
    }
  }

  lemma Counted1(c: Chain, key: ChannelKey)
    requires LocalInv(c) && key in c.host.store.channels
    ensures key in c.host.nextSequenceSends && c.host.nextSequenceSends[key] >= 1
  {
    hide ConnectionsInv, ChannelsInv, ChannelLogInv, EscrowsInv, SentInv, CommittedInv, AcknowledgedInv;
    hide ReceivedInv, WrittenInv;
  }

  /**
   After any run, a transfer is sent exactly if its channel is open, its client has a consensus
   state at its latest height, that height is before the timeout asked for, and the sender's
   balance covers the amount, be it the chain's own token or a voucher to be burnt.
   */
  lemma TransferSentExactly(setup: Setup, steps: seq<Step>, c: Chain, peer: Chain, t: Transfer)
    requires After(setup, steps, c, peer) && |t.denom| < TWO_62
    ensures ChainSpec.SendTransfer(c, t).Ok? <==> CanSend(c, t) && BalanceOf(c.bank, t.denom, t.sender) >= t.amount
  {
    hide After, Facts, CanSend, BalanceOf, ChainSpec.SendTransfer;
    AfterFacts(setup, steps, c, peer);
    TransferSent(c, peer, t);
  }

  lemma TransferSent(c: Chain, peer: Chain, t: Transfer)
    requires Facts(c, peer) && |t.denom| < TWO_62
    ensures ChainSpec.SendTransfer(c, t).Ok? <==> CanSend(c, t) && BalanceOf(c.bank, t.denom, t.sender) >= t.amount
  {
    hide Facts, CanSend, Sendable, BalanceOf, TakeTokens, AppMessages.Encode, ChannelSpec.SendPacket, LocalInv, Links;
    hide Linked, MoneyInv, BookInv, ClientsInv, AuthenticateCapability, ChannelCapabilityPath, SequenceAt;
    FactParts(c, peer);
    var key := ChannelKey(t.port, t.channel);
    if key in c.host.store.channels {
      EscrowStored(c, key);
      TakenExactly(c.bank, c.app, t);
      CapabilityStored(c, key);
      TransferSendable(c, peer, t);
      var e := TransferEvent(t, SequenceAt(c.host.nextSequenceSends, key), c.host.store.channels[key]);
      HostSendsExactly(c.host, e.packet);
      CanSendParts(c, t);
    } else {
      CanSendParts(c, t);
    }
  }

  lemma CanSendParts(c: Chain, t: Transfer)
    ensures var key := ChannelKey(t.port, t.channel);
            CanSend(c, t) ==> key in c.host.store.channels && c.host.store.channels[key].state == CHAN_OPEN
  {
    hide InTimeFor, OverConnection;
  }

  lemma EscrowStored(c: Chain, key: ChannelKey)
    requires LocalInv(c) && key in c.host.store.channels
    ensures key.channelId in c.app.escrows && c.app.escrows[key.channelId] == c.app.address != ZERO_ADDRESS
  {
    hide ConnectionsInv, ChannelsInv, ChannelLogInv, SequencesInv, SentInv, CommittedInv, AcknowledgedInv;
    hide ReceivedInv, WrittenInv;
  }

  lemma CapabilityStored(c: Chain, key: ChannelKey)
    requires BookInv(c) && key in c.host.store.channels
    ensures AuthenticateCapability(c.host, ChannelCapabilityPath(key.portId, key.channelId), c.app.address)
  {
    hide ChannelCapabilityPath, SlashFree, NamesChannel;
  }

  // ----- Receiving -----

  /** The current block is before both timeouts. */
  predicate Timely(c: Chain, p: Packet) {
    && (p.timeoutHeight.revisionHeight == 0 || |c.blocks| < p.timeoutHeight.revisionHeight)
    && (p.timeoutTimestamp == 0 || c.now < p.timeoutTimestamp)
  }

  /** The peer's block held the commitment to this packet, and it can be proved. */
  ghost predicate ShowsPacket(c: Chain, peer: Chain, connection: ConnectionEnd, height: uint64, proof: Bytes, p: Packet) {
    && Consults(c, connection.clientId, height, proof) && connection.counterparty.prefix != []
    && height < |peer.blocks|
    && var committed := peer.blocks[height].root.packetCommitments;
    && var key := PacketKey(ChannelKey(p.sourcePort, p.sourceChannel), p.sequence);
    && key in committed && committed[key] == PacketDigest(p.timeoutTimestamp, p.timeoutHeight, p.data)
    && c.host.lightClient.proves(PacketDigest(p.timeoutTimestamp, p.timeoutHeight, p.data))
  }

  lemma ShowsPacketIs(c: Chain, peer: Chain, connection: ConnectionEnd, height: uint64, proof: Bytes, p: Packet)
    requires ClientsInv(c, peer)
    ensures ShowsPacket(c, peer, connection, height, proof, p)
       <==> ChannelSpec.VerifyPacketCommitment(c.host, connection, height, proof, p.sourcePort, p.sourceChannel, p.sequence,
                                               MakePacketCommitment(p))
  {
    hide ClientsInv, VerifyMembership, Consults;
    MembershipExactly(c, peer, connection.clientId, height, connection.counterparty.prefix, proof,
                      PacketPath(p.sourcePort, p.sourceChannel, p.sequence), MakePacketCommitment(p));
  }

  /** The packet was sent by the peer, is new here, in time and shown, and the channel's ordering takes it now. */
  ghost predicate Receivable(c: Chain, peer: Chain, msg: MsgPacketRecv) {
    var p := msg.packet;
    var key := ChannelKey(p.destinationPort, p.destinationChannel);
    && WasSent(peer.sent, p)
    && PacketKey(key, p.sequence) !in c.host.store.acknowledgements
    && key in c.host.store.channels && c.host.store.channels[key].state == CHAN_OPEN
    && OverConnection(c, c.host.store.channels[key])
    && Timely(c, p)
    && ShowsPacket(c, peer, c.host.store.connections[c.host.store.channels[key].connectionHops[0]], msg.proofHeight, msg.proof, p)
    && match c.host.store.channels[key].ordering
       case ORDER_UNORDERED => true
       case ORDER_ORDERED => key in c.host.nextSequenceRecvs && p.sequence == c.host.nextSequenceRecvs[key]
       case ORDER_NONE => false
  }

  /** What an accepted packet went through. */
  lemma ReceivedThrough(c: Chain, peer: Chain, msg: MsgPacketRecv)
    requires Facts(c, peer) && ChainSpec.RecvPacket(c, msg, CurrentBlock(c)).Ok?
    ensures Receivable(c, peer, msg)
  {
    hide Facts, Linked, LocalInv, Links, BookInv, MoneyInv, ClientsInv, WasSent, ShowsPacket, OverConnection, Kept, Consults;
    hide ChainSpec.RecvPacket, OnRecvPacket, AppMessages.Decode, ChannelSpec.VerifyPacketCommitment, MakePacketCommitment;
    hide ReceivedDenom, PaidDirectly;
    FactParts(c, peer);
    RecvShape(c, msg, CurrentBlock(c));
    RecvPacketStep(c, peer, msg, CurrentBlock(c));
    RecvHost(c, msg);
    var key := DestinationKey(msg.packet);
    OpenEndRuns(c, peer, key);
    OpenHopExactly(c, key);
    HopKnown(c, c.host.store.channels[key]);
    ShowsPacketIs(c, peer, c.host.store.connections[c.host.store.channels[key].connectionHops[0]], msg.proofHeight, msg.proof,
                  msg.packet);
  }

  /** The host's part of an accepted packet. */
  lemma RecvHost(c: Chain, msg: MsgPacketRecv)
    requires ChainSpec.RecvPacket(c, msg, CurrentBlock(c)).Ok?
    ensures var p := msg.packet;
            && Timely(c, p)
            && DestinationKey(p) in c.host.store.channels
            && var connection := ChannelSpec.OpenConnection(c.host, c.host.store.channels[DestinationKey(p)]);
            && connection.Ok?
            && ChannelSpec.VerifyPacketCommitment(c.host, connection.value, msg.proofHeight, msg.proof, p.sourcePort,
                                                  p.sourceChannel, p.sequence, MakePacketCommitment(p))
  {
    hide ModuleOwner, OnRecvPacket, AppMessages.Decode, ChannelSpec.OpenConnection, ChannelCapabilityPath;
    hide ChannelSpec.WriteAcknowledgement, MakePacketCommitment, PaidDirectly, ReceivedDenom, ChannelSpec.VerifyPacketCommitment;
    assert ChannelSpec.RecvPacket(c.host, msg, CurrentBlock(c)).Ok?;
  }

  /** A receivable packet goes through. */
  lemma ReceivableGoes(c: Chain, peer: Chain, msg: MsgPacketRecv)
    requires Facts(c, peer) && Receivable(c, peer, msg)
    ensures ChainSpec.RecvPacket(c, msg, CurrentBlock(c)).Ok?
  {
    hide Facts, Linked, LocalInv, Links, BookInv, MoneyInv, ClientsInv, ShowsPacket, Consults, MakePacketCommitment;
    hide ChainSpec.RecvPacket, ChannelSpec.VerifyPacketCommitment;
    FactParts(c, peer);
    var p := msg.packet;
    var i: nat :| i < |peer.sent| && peer.sent[i].packet == p;
    HopKnown(c, c.host.store.channels[DestinationKey(p)]);
    ShowsPacketIs(c, peer, c.host.store.connections[c.host.store.channels[DestinationKey(p)].connectionHops[0]], msg.proofHeight,
                  msg.proof, p);
    ReceivedIf(c, peer, i, msg, CurrentBlock(c));
  }

  /** After any run, these packets are received, and no others. */
  lemma ReceivedExactly(setup: Setup, steps: seq<Step>, c: Chain, peer: Chain, msg: MsgPacketRecv)
    requires After(setup, steps, c, peer)
    ensures ChainSpec.RecvPacket(c, msg, CurrentBlock(c)).Ok? <==> Receivable(c, peer, msg)
  {
    hide After, Facts, Receivable, ChainSpec.RecvPacket, CurrentBlock;
    AfterFacts(setup, steps, c, peer);
    if Receivable(c, peer, msg) {
      ReceivableGoes(c, peer, msg);
    }
    if ChainSpec.RecvPacket(c, msg, CurrentBlock(c)).Ok? {
      ReceivedThrough(c, peer, msg);
    }
  }

  // ----- Acknowledging -----

  /** The peer's block held this acknowledgement of the packet, and it can be proved. */
  ghost predicate ShowsAnswer(c: Chain, peer: Chain, connection: ConnectionEnd, height: uint64, proof: Bytes, p: Packet,
                              ack: Bytes)
  {
    && Consults(c, connection.clientId, height, proof) && connection.counterparty.prefix != []
    && height < |peer.blocks|
    && var answers := peer.blocks[height].root.acknowledgements;
    && var key := PacketKey(ChannelKey(p.destinationPort, p.destinationChannel), p.sequence);
    && key in answers && answers[key] == AckDigest(ack) && c.host.lightClient.proves(AckDigest(ack))
  }

  lemma ShowsAnswerIs(c: Chain, peer: Chain, connection: ConnectionEnd, height: uint64, proof: Bytes, p: Packet, ack: Bytes)
    requires ClientsInv(c, peer)
    ensures ShowsAnswer(c, peer, connection, height, proof, p, ack)
       <==> ChannelSpec.VerifyPacketAcknowledgement(c.host, connection, height, proof, p.destinationPort, p.destinationChannel,
                                                    p.sequence, ack)
  {
    hide ClientsInv, VerifyMembership, Consults;
    MembershipExactly(c, peer, connection.clientId, height, connection.counterparty.prefix, proof,
                      AckPath(p.destinationPort, p.destinationChannel, p.sequence), AckDigest(ack));
  }

  /** The packet was sent here, is still committed and answered, and its channel is not ordered. */
  ghost predicate Answerable(c: Chain, peer: Chain, msg: MsgPacketAcknowledgement) {
    var p := msg.packet;
    var key := ChannelKey(p.sourcePort, p.sourceChannel);
    && WasSent(c.sent, p) && PacketKey(key, p.sequence) in c.host.store.packetCommitments
    && key in c.host.store.channels && c.host.store.channels[key].ordering != ORDER_ORDERED
    && OverConnection(c, c.host.store.channels[key])
    && ShowsAnswer(c, peer, c.host.store.connections[c.host.store.channels[key].connectionHops[0]], msg.proofHeight, msg.proof, p,
                   msg.acknowledgement)
  }

  lemma AckHost(c: Chain, msg: MsgPacketAcknowledgement)
    requires ChainSpec.AcknowledgePacket(c, msg).Ok?
    ensures var p := msg.packet;
            && SourceKey(p) in c.host.store.channels
            && var connection := ChannelSpec.OpenConnection(c.host, c.host.store.channels[SourceKey(p)]);
            && connection.Ok?
            && ChannelSpec.VerifyPacketAcknowledgement(c.host, connection.value, msg.proofHeight, msg.proof, p.destinationPort,
                                                       p.destinationChannel, p.sequence, msg.acknowledgement)
  {
    hide ModuleOwner, OnAcknowledgementPacket, ChannelSpec.OpenConnection, ChannelCapabilityPath, MakePacketCommitment;
    hide ChannelSpec.VerifyPacketAcknowledgement;
    assert ChannelSpec.AcknowledgePacket(c.host, msg).Ok?;
  }

  lemma AcknowledgedThrough(c: Chain, peer: Chain, msg: MsgPacketAcknowledgement)
    requires Facts(c, peer) && ChainSpec.AcknowledgePacket(c, msg).Ok?
    ensures Answerable(c, peer, msg)
  {
    hide Facts, Linked, LocalInv, Links, BookInv, MoneyInv, ClientsInv, WasSent, ShowsAnswer, OverConnection, Kept, Consults;
    hide ChainSpec.AcknowledgePacket, OnAcknowledgementPacket, ChannelSpec.VerifyPacketAcknowledgement, MakePacketCommitment;
    FactParts(c, peer);
    AckShape(c, msg);
    AcknowledgedUnordered(c, peer, msg);
    AcknowledgePacketStep(c, peer, msg);
    AckHost(c, msg);
    var key := SourceKey(msg.packet);
    OpenEndRuns(c, peer, key);
    OpenHopExactly(c, key);
    HopKnown(c, c.host.store.channels[key]);
    ShowsAnswerIs(c, peer, c.host.store.connections[c.host.store.channels[key].connectionHops[0]], msg.proofHeight, msg.proof,
                  msg.packet, msg.acknowledgement);
  }

  lemma AnswerableGoes(c: Chain, peer: Chain, msg: MsgPacketAcknowledgement)
    requires Facts(c, peer) && Answerable(c, peer, msg)
    ensures ChainSpec.AcknowledgePacket(c, msg).Ok?
  {
    hide Facts, Linked, LocalInv, Links, BookInv, MoneyInv, ClientsInv, ShowsAnswer, Consults;
    hide ChainSpec.AcknowledgePacket, ChannelSpec.VerifyPacketAcknowledgement;
    FactParts(c, peer);
    var p := msg.packet;
    var i: nat :| i < |c.sent| && c.sent[i].packet == p;
    HopKnown(c, c.host.store.channels[SourceKey(p)]);
    ShowsAnswerIs(c, peer, c.host.store.connections[c.host.store.channels[SourceKey(p)].connectionHops[0]], msg.proofHeight,
                  msg.proof, p, msg.acknowledgement);
    AcknowledgedIf(c, peer, i, msg);
  }

  /** After any run, these acknowledgements go through, and no others. */
  lemma AcknowledgedExactly(setup: Setup, steps: seq<Step>, c: Chain, peer: Chain, msg: MsgPacketAcknowledgement)
    requires After(setup, steps, c, peer)
    ensures ChainSpec.AcknowledgePacket(c, msg).Ok? <==> Answerable(c, peer, msg)
  {
    hide After, Facts, Answerable, ChainSpec.AcknowledgePacket;
    AfterFacts(setup, steps, c, peer);
    if Answerable(c, peer, msg) {
      AnswerableGoes(c, peer, msg);
    }
    if ChainSpec.AcknowledgePacket(c, msg).Ok? {
      AcknowledgedThrough(c, peer, msg);
    }
  }
}
