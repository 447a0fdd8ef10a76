/**
 What holds in every run of the two chains, whatever the relayer submits and in whatever
 order, with whatever past block of the counterparty as proof.
 */
module Theorems {
  import opened Prelude
  import opened Sums
  import opened IBCIdentifier
  import opened IBCTypes
  import opened HostSpec
  import opened BankSpec
  import opened TransferSpec
  import opened AddressText
  import opened ChainSpec
  import opened World
  import opened ProtocolInvariant
  import opened HandshakeSteps
  import opened ChannelSteps
  import opened PacketSteps
  import opened Ledger
  import opened Payments
  import opened Conservation
  import opened MoneySteps
  import opened MoneyRuns
  import opened History
  import opened Books
  import AppMessages

  /** `c` is one of the chains after the run, and `peer` the other. */
  ghost predicate After(setup: Setup, steps: seq<Step>, c: Chain, peer: Chain) {
    && ShortRun(setup, steps)
    && var w := Run(setup, steps);
       (c == w.a && peer == w.b) || (c == w.b && peer == w.a)
  }

  lemma AfterRun(setup: Setup, steps: seq<Step>, c: Chain, peer: Chain)
    requires After(setup, steps, c, peer)
    ensures Linked(c, peer) && MoneyInv(c, peer) && OrderedInv(c) && OrderedInv(peer) && BookInv(c) && BookInv(peer)
  {
    hide Run, Sound, Linked, MoneyInv, OrderedInv, BookInv, BookInv;
    RunSound(setup, steps);
    SoundSides(Run(setup, steps), |steps|);
  }

  // ----- Connections -----

  lemma ConnectionAgreed(c: Chain, peer: Chain, id: Bytes)
    requires Linked(c, peer)
    requires id in c.host.store.connections && c.host.store.connections[id].state == CONN_OPEN
    ensures id in c.connectionOrigins
    ensures var end := c.host.store.connections[id];
            var other := end.counterparty.connectionId;
            && other in peer.host.store.connections
            && var peerEnd := peer.host.store.connections[other];
            && peerEnd.state in {CONN_TRYOPEN, CONN_OPEN}
            && (c.connectionOrigins[id].state == CONN_TRYOPEN ==> peerEnd.state == CONN_OPEN)
            && peerEnd.counterparty.connectionId == id
            && peerEnd.counterparty.clientId == end.clientId && peerEnd.clientId == end.counterparty.clientId
            && peerEnd.versions == end.versions && peerEnd.delayPeriod == end.delayPeriod
  {
    hide ConnectionId, ChannelsInv, ChannelLogInv, EscrowsInv, SequencesInv, SentInv, CommittedInv;
    hide AcknowledgedInv, ReceivedInv, WrittenInv, ChannelLinks, PacketLinks, ClientsKnow;
    assert ConnectionLink(id, c.connectionOrigins[id], c.host.store.connections[id], peer);
  }

  /**
   Whenever a connection end is OPEN, its counterparty end is TRYOPEN or OPEN (OPEN if this
   end was opened by a confirmation), points back, and has the same versions and delay.
   */
  lemma ConnectionAgreement(setup: Setup, steps: seq<Step>, c: Chain, peer: Chain, id: Bytes)
    requires After(setup, steps, c, peer)
    requires id in c.host.store.connections && c.host.store.connections[id].state == CONN_OPEN
    ensures id in c.connectionOrigins
    ensures var end := c.host.store.connections[id];
            var other := end.counterparty.connectionId;
            && other in peer.host.store.connections
            && var peerEnd := peer.host.store.connections[other];
            && peerEnd.state in {CONN_TRYOPEN, CONN_OPEN}
            && (c.connectionOrigins[id].state == CONN_TRYOPEN ==> peerEnd.state == CONN_OPEN)
            && peerEnd.counterparty.connectionId == id
            && peerEnd.counterparty.clientId == end.clientId && peerEnd.clientId == end.counterparty.clientId
            && peerEnd.versions == end.versions && peerEnd.delayPeriod == end.delayPeriod
  {
    hide After, Linked;
    AfterRun(setup, steps, c, peer);
    ConnectionAgreed(c, peer, id);
  }

  /** However often a handshake is answered, at most one of the answers opens. */
  lemma OneConnectionOpens(setup: Setup, steps: seq<Step>, c: Chain, peer: Chain, id: Bytes, rival: Bytes)
    requires After(setup, steps, c, peer)
    requires id in c.host.store.connections && c.host.store.connections[id].state == CONN_OPEN
    requires rival in c.host.store.connections && c.host.store.connections[rival].state == CONN_OPEN
    requires c.host.store.connections[id].counterparty.connectionId == c.host.store.connections[rival].counterparty.connectionId
    ensures id == rival
  {
    hide After;
    ConnectionAgreement(setup, steps, c, peer, id);
    ConnectionAgreement(setup, steps, c, peer, rival);
  }

  /** Only an end in INIT is ever acknowledged, though the code also allows TRYOPEN. */
  lemma AckOnlyFromInit(setup: Setup, steps: seq<Step>, c: Chain, peer: Chain, msg: MsgConnectionOpenAck)
    requires After(setup, steps, c, peer)
    requires ChainSpec.ConnectionOpenAck(c, msg).Ok?
    ensures msg.connectionId in c.host.store.connections
    ensures c.host.store.connections[msg.connectionId].state == CONN_INIT
  {
    AfterRun(setup, steps, c, peer);
    hide After, VerifyMembership, ConnectionEvolves;
    AckFromInit(c, peer, msg);
  }

  lemma AckFromInit(c: Chain, peer: Chain, msg: MsgConnectionOpenAck)
    requires Linked(c, peer) && ChainSpec.ConnectionOpenAck(c, msg).Ok?
    ensures msg.connectionId in c.host.store.connections
    ensures c.host.store.connections[msg.connectionId].state == CONN_INIT
  {
    hide VerifyMembership, ConnectionId, ChannelsInv, ChannelLogInv, EscrowsInv, SequencesInv, SentInv, CommittedInv;
    hide AcknowledgedInv, ReceivedInv, WrittenInv, ConnectionLinks, ChannelLinks, PacketLinks, ClientsKnow, Kept;
    ConnectionOpenAckStep(c, peer, msg);
    assert ConnectionEvolves(c.connectionOrigins[msg.connectionId], c.host.store.connections[msg.connectionId]);
  }

  // ----- Channels -----

  lemma ChannelAgreed(c: Chain, peer: Chain, key: ChannelKey)
    requires Linked(c, peer)
    requires key in c.host.store.channels && c.host.store.channels[key].state == CHAN_OPEN
    ensures var end := c.host.store.channels[key];
            var other := CounterpartyKey(end);
            && other in peer.host.store.channels
            && var peerEnd := peer.host.store.channels[other];
            && peerEnd.state in {CHAN_TRYOPEN, CHAN_OPEN}
            && CounterpartyKey(peerEnd) == key
            && peerEnd.ordering == end.ordering && peerEnd.version == end.version
            && |end.connectionHops| == 1 && end.connectionHops[0] in c.host.store.connections
            && c.host.store.connections[end.connectionHops[0]].state == CONN_OPEN
            && peerEnd.connectionHops == [c.host.store.connections[end.connectionHops[0]].counterparty.connectionId]
  {
    hide ConnectionsInv, ChannelsInv, ChannelLogInv, EscrowsInv, SequencesInv, SentInv, CommittedInv;
    hide AcknowledgedInv, ReceivedInv, WrittenInv, ConnectionLinks, ChannelLinks, PacketLinks, ClientsKnow;
    var s := c.host.store;
    var other := CounterpartyKey(s.channels[key]);
    ChannelBeginning(s.channels, c.channelOrigins, key);
    ChannelLinkOf(s.channels, c.channelOrigins, s.connections, peer, key);
    OriginKeys(peer.host.store.channels, peer.channelOrigins);
    ChannelBeginning(peer.host.store.channels, peer.channelOrigins, other);
  }

  /**
   Whenever a channel end is OPEN, its counterparty end is TRYOPEN or OPEN, names it back,
   agrees on ordering and version, and runs over the counterparty of its connection, and
   those two connection ends name each other.
   */
  lemma ChannelAgreement(setup: Setup, steps: seq<Step>, c: Chain, peer: Chain, key: ChannelKey)
    requires After(setup, steps, c, peer)
    requires key in c.host.store.channels && c.host.store.channels[key].state == CHAN_OPEN
    ensures var end := c.host.store.channels[key];
            var other := CounterpartyKey(end);
            && other in peer.host.store.channels
            && var peerEnd := peer.host.store.channels[other];
            && peerEnd.state in {CHAN_TRYOPEN, CHAN_OPEN}
            && CounterpartyKey(peerEnd) == key
            && peerEnd.ordering == end.ordering && peerEnd.version == end.version
            && |end.connectionHops| == 1 && |peerEnd.connectionHops| == 1
            && var hop, peerHop := end.connectionHops[0], peerEnd.connectionHops[0];
            && hop in c.host.store.connections && c.host.store.connections[hop].counterparty.connectionId == peerHop
            && peerHop in peer.host.store.connections && peer.host.store.connections[peerHop].counterparty.connectionId == hop
  {
    hide After, Linked;
    AfterRun(setup, steps, c, peer);
    ChannelAgreed(c, peer, key);
    ConnectionAgreed(c, peer, c.host.store.channels[key].connectionHops[0]);
  }

  /** At most one channel ever opens against a given channel. */
  lemma OneChannelOpens(setup: Setup, steps: seq<Step>, c: Chain, peer: Chain, key: ChannelKey, rival: ChannelKey)
    requires After(setup, steps, c, peer)
    requires key in c.host.store.channels && c.host.store.channels[key].state == CHAN_OPEN
    requires rival in c.host.store.channels && c.host.store.channels[rival].state == CHAN_OPEN
    requires CounterpartyKey(c.host.store.channels[key]) == CounterpartyKey(c.host.store.channels[rival])
    ensures key == rival
  {
    hide After;
    ChannelAgreement(setup, steps, c, peer, key);
    ChannelAgreement(setup, steps, c, peer, rival);
  }

  // ----- Delivery -----

  lemma ReceivedFacts(c: Chain, peer: Chain, i: nat)
    requires Linked(c, peer) && i < |c.received|
    ensures WasSent(peer.sent, c.received[i].packet)
    ensures forall j | 0 <= j < |c.received| && j != i ::
              DestinationPacketKey(c.received[j].packet) != DestinationPacketKey(c.received[i].packet)
    ensures c.received[i].acknowledgement in {ACK_SUCCESS, ACK_FAILURE}
  {
    hide ConnectionsInv, ChannelsInv, ChannelLogInv, EscrowsInv, SequencesInv, SentInv, CommittedInv, AcknowledgedInv;
    hide WrittenInv, WellRouted, WellFormed, ConnectionLinks, ChannelLinks, ClientsKnow, WasSent;
  }

  /**
   Every packet accepted is, in all its fields, one the peer sent, and no packet is accepted
   twice.
   */
  lemma ExactlyOnceUnaltered(setup: Setup, steps: seq<Step>, c: Chain, peer: Chain, i: nat)
    requires After(setup, steps, c, peer) && i < |c.received|
    ensures exists j: nat :: j < |peer.sent| && peer.sent[j].packet == c.received[i].packet
    ensures forall j | 0 <= j < |c.received| && j != i ::
              DestinationPacketKey(c.received[j].packet) != DestinationPacketKey(c.received[i].packet)
  {
    hide After, Linked;
    AfterRun(setup, steps, c, peer);
    ReceivedFacts(c, peer, i);
  }

  lemma {:induction false} AcceptedWasReceived(received: seq<AckEvent>, key: ChannelKey, i: nat)
    requires i < |AcceptedOn(received, key)|
    ensures exists j: nat :: ReceivedAt(received, j, PacketKey(key, AcceptedOn(received, key)[i]))
  {
    var before := received[..|received| - 1];
    if i < |AcceptedOn(before, key)| {
      AcceptedWasReceived(before, key, i);
      var j: nat :| ReceivedAt(before, j, PacketKey(key, AcceptedOn(before, key)[i]));
      assert ReceivedAt(received, j, PacketKey(key, AcceptedOn(received, key)[i]));
    } else {
      assert ReceivedAt(received, |received| - 1, PacketKey(key, AcceptedOn(received, key)[i]));
    }
  }

  /** The sequence of a sent packet is below its channel's next. */
  lemma SentBelowNext(c: Chain, p: Packet)
    requires LocalInv(c) && WasSent(c.sent, p)
    ensures SourceKey(p) in c.host.nextSequenceSends && 1 <= p.sequence < c.host.nextSequenceSends[SourceKey(p)]
    ensures WellRouted(c.host.store.channels, SourceKey(p), DestinationKey(p))
  {
    hide ConnectionsInv, ChannelsInv, ChannelLogInv, EscrowsInv, SequencesInv, CommittedInv, AcknowledgedInv;
    hide WrittenInv, WellRouted, WellFormed, ReceivedInv;
  }

  lemma ReceivedRouted(c: Chain, i: nat)
    requires LocalInv(c) && i < |c.received|
    ensures WellRouted(c.host.store.channels, DestinationKey(c.received[i].packet), SourceKey(c.received[i].packet))
  {
    hide ConnectionsInv, ChannelsInv, ChannelLogInv, EscrowsInv, SequencesInv, SentInv, CommittedInv, AcknowledgedInv;
    hide WrittenInv, WellRouted, WellFormed;
  }

  /**
   An ordered channel accepts exactly the sequences 1, 2, ..., k, in this order, and the
   peer has sent them all.
   */
  lemma OrderedInOrder(setup: Setup, steps: seq<Step>, c: Chain, peer: Chain, key: ChannelKey)
    requires After(setup, steps, c, peer)
    requires key in c.host.store.channels && c.host.store.channels[key].ordering == ORDER_ORDERED
    ensures var accepted := AcceptedOn(c.received, key);
            var other := CounterpartyKey(c.host.store.channels[key]);
            && (forall i | 0 <= i < |accepted| :: accepted[i] == i + 1)
            && (|accepted| > 0 ==>
                  other in peer.host.nextSequenceSends && |accepted| < peer.host.nextSequenceSends[other])
  {
    hide After, LocalInv, Links, AcceptedOn, MoneyInv, BookInv;
    AfterRun(setup, steps, c, peer);
    var accepted := AcceptedOn(c.received, key);
    if |accepted| > 0 {
      AcceptedWasReceived(c.received, key, |accepted| - 1);
      var j: nat :| ReceivedAt(c.received, j, PacketKey(key, accepted[|accepted| - 1]));
      ReceivedFacts(c, peer, j);
      ReceivedRouted(c, j);
      SentBelowNext(peer, c.received[j].packet);
    }
  }

  // ----- Commitments and acknowledgements -----

  /** A commitment stands at a key exactly if a packet was sent under it and not yet acknowledged. */
  lemma CommitmentLifeCycle(setup: Setup, steps: seq<Step>, c: Chain, peer: Chain, key: PacketKey)
    requires After(setup, steps, c, peer)
    ensures key in c.host.store.packetCommitments
            <==> (exists i: nat :: SentAt(c.sent, i, key)) && !IsAcknowledged(c.acknowledged, key)
  {
    AfterRun(setup, steps, c, peer);
    hide After, Links, ConnectionsInv, ChannelsInv, ChannelLogInv, EscrowsInv, SequencesInv, SentInv, AcknowledgedInv;
    hide WrittenInv, ReceivedInv;
    Committed(c, key);
  }

  lemma Committed(c: Chain, key: PacketKey)
    requires LocalInv(c)
    ensures key in c.host.store.packetCommitments
            <==> (exists i: nat :: SentAt(c.sent, i, key)) && !IsAcknowledged(c.acknowledged, key)
  {
    hide ConnectionsInv, ChannelsInv, ChannelLogInv, EscrowsInv, SequencesInv, SentInv, AcknowledgedInv;
    hide WrittenInv, ReceivedInv, MakePacketCommitment;
    if i: nat :| SentAt(c.sent, i, key) {
      assert SourcePacketKey(c.sent[i].packet) == key;
    }
  }

  lemma AcknowledgedFacts(c: Chain, peer: Chain, j: nat)
    requires Linked(c, peer) && j < |c.acknowledged|
    ensures var e := c.acknowledged[j];
            && (exists i: nat :: i < |peer.received| && ReceivedAt(peer.received, i, DestinationPacketKey(e.packet))
                                 && peer.received[i].acknowledgement == e.acknowledgement)
            && WasSent(c.sent, e.packet)
            && SourceKey(e.packet) in c.host.store.channels
            && c.host.store.channels[SourceKey(e.packet)].ordering != ORDER_ORDERED
    ensures forall i | 0 <= i < |c.acknowledged| && i != j ::
              SourcePacketKey(c.acknowledged[i].packet) != SourcePacketKey(c.acknowledged[j].packet)
  {
    hide ConnectionsInv, ChannelsInv, ChannelLogInv, EscrowsInv, SequencesInv, SentInv, CommittedInv;
    hide WellRouted, WellFormed, ConnectionLinks, ChannelLinks, ClientsKnow, WasSent, ReceivedInv;
    var key := DestinationPacketKey(c.acknowledged[j].packet);
    assert key in peer.host.store.acknowledgements;
    var i: nat :| ReceivedAt(peer.received, i, key)
                  && peer.host.store.acknowledgements[key] == AckDigest(peer.received[i].acknowledgement);
  }

  /**
   A packet is acknowledged at most once, and with what the peer wrote when it received that
   very packet. So it is refunded at most once, and only if the payment on the peer failed.
   */
  lemma AcknowledgedOnceAsWritten(setup: Setup, steps: seq<Step>, c: Chain, peer: Chain, j: nat)
    requires After(setup, steps, c, peer) && j < |c.acknowledged|
    ensures exists i: nat :: i < |peer.received| && peer.received[i] == c.acknowledged[j]
    ensures forall i | 0 <= i < |c.acknowledged| && i != j ::
              SourcePacketKey(c.acknowledged[i].packet) != SourcePacketKey(c.acknowledged[j].packet)
    ensures c.acknowledged[j].acknowledgement in {ACK_SUCCESS, ACK_FAILURE}
  {
    hide After, LocalInv, Links, WasSent;
    AfterRun(setup, steps, c, peer);
    AcknowledgedFacts(c, peer, j);
    var e := c.acknowledged[j];
    var i: nat :| i < |peer.received| && ReceivedAt(peer.received, i, DestinationPacketKey(e.packet))
                  && peer.received[i].acknowledgement == e.acknowledgement;
    ReceivedFacts(peer, c, i);
    SameDestinationSamePacket(c, peer, e.packet, peer.received[i].packet);
  }

  lemma SameDestinationSamePacket(c: Chain, peer: Chain, p: Packet, q: Packet)
    requires Linked(c, peer) && WasSent(c.sent, p) && WasSent(c.sent, q)
    requires DestinationPacketKey(p) == DestinationPacketKey(q)
    ensures p == q
  {
    hide Linked;
    var i: nat :| i < |c.sent| && c.sent[i].packet == p;
    var j: nat :| j < |c.sent| && c.sent[j].packet == q;
    if i != j {
      DestinationsDistinct(c, peer, i, j);
    }
  }

  /**
   As the code stands, no packet of an ordered channel can be acknowledged: the counter it
   compares with 0 starts at 1, and no packet has sequence 0.
   */
  lemma OrderedNeverAcknowledged(setup: Setup, steps: seq<Step>, c: Chain, peer: Chain,
                                 msg: MsgPacketAcknowledgement)
    requires After(setup, steps, c, peer)
    requires var key := SourceKey(msg.packet);
             key in c.host.store.channels && c.host.store.channels[key].ordering == ORDER_ORDERED
    ensures ChainSpec.AcknowledgePacket(c, msg).Revert?
  {
    hide After, LocalInv, Links, ChainSpec.AcknowledgePacket, AppMessages.Decode, WasSent, Kept;
    AfterRun(setup, steps, c, peer);
    if ChainSpec.AcknowledgePacket(c, msg).Ok? {
      AckShape(c, msg);
      AcknowledgePacketStep(c, peer, msg);
      SentBelowNext(c, msg.packet);
    }
  }

  /** A run never takes back an open end, a written acknowledgement, or a logged packet. */
  lemma HistoryKept(setup: Setup, steps: seq<Step>, more: seq<Step>)
    requires ShortRun(setup, steps + more)
    ensures var w, v := Run(setup, steps), Run(setup, steps + more);
            Extends(w.a, v.a) && Extends(w.b, v.b)
  {
    hide Run, Extends;
    RunExtends(setup, steps, more);
  }

  // ----- Money -----

  /**
   In every denomination, the escrow account holds exactly the vouchers the peer has issued
   over all channels, plus the packets under way in either direction (failed ones until they
   are refunded), plus what the account was paid directly.
   */
  lemma TokensConserved(setup: Setup, steps: seq<Step>, c: Chain, peer: Chain, denom: Bytes)
    requires After(setup, steps, c, peer)
    ensures BalanceOf(c.bank, denom, c.app.address)
         == Vouchers(peer.bank, peer.channelLog, denom)
            + Pending(c.sent, c.host.store.packetCommitments, peer.host.store.acknowledgements, denom, true)
            + Pending(peer.sent, peer.host.store.packetCommitments, c.host.store.acknowledgements, denom, false)
            + At(c.direct, denom)
  {
    hide After, Linked, BankInv, Distinct, OrderedInv, BookInv, Vouchers, Pending, BalanceOf;
    AfterRun(setup, steps, c, peer);
    assert Escrowed(c, denom) == Owed(c, peer, denom) + At(c.direct, denom);
  }

  /**
   The supply of a deposited token's denomination, with what the bank was paid outside of
   deposits, is what the bank holds of the token.
   */
  lemma Solvent(setup: Setup, steps: seq<Step>, c: Chain, peer: Chain, token: Address)
    requires After(setup, steps, c, peer)
    ensures Supply(c.bank, AddressToString(token)) + At(c.donated, token) == At(c.erc20Held, token)
  {
    hide After, Linked, Distinct, OrderedInv, BookInv, Supply, AddressToString, Conserved;
    AfterRun(setup, steps, c, peer);
  }

  /** No supply, and so no balance, ever reaches 2^256: no unchecked addition wraps. */
  lemma NoWrap(setup: Setup, steps: seq<Step>, c: Chain, peer: Chain, denom: Bytes, account: Address)
    requires After(setup, steps, c, peer)
    ensures BalanceOf(c.bank, denom, account) <= Supply(c.bank, denom) < TWO_256
  {
    hide After, Linked, MoneyInv, OrderedInv, BookInv, Supply, BalanceOf;
    AfterRun(setup, steps, c, peer);
    SupplyBounded(c, peer, denom);
    BalanceWithinSupply(c.bank, denom, account);
  }

  lemma PaymentFound(c: Chain, peer: Chain, i: nat)
    requires Linked(c, peer) && MoneyInv(c, peer) && i < |peer.sent|
    requires DestinationPacketKey(peer.sent[i].packet) !in c.host.store.acknowledgements
    requires DestinationKey(peer.sent[i].packet) in c.host.store.channels
    ensures var e := peer.sent[i];
            && OnRecvPacket(c.bank, c.app, e.packet).Ok?
            && var (bank, ack) := OnRecvPacket(c.bank, c.app, e.packet).value;
            && ack == (if FromEscrow(e) || e.data.receiver != ZERO_ADDRESS then ACK_SUCCESS else ACK_FAILURE)
            && (ack == ACK_SUCCESS ==>
                  Moved(c.bank, bank, ReceivedDenom(e.packet, e.data.denom), if FromEscrow(e) then None else Some(c.app.address),
                        Some(e.data.receiver), e.data.amount))
  {
    hide LocalInv, Links, MoneyInv, Supply, BalanceOf, Base, FromEscrow, WellFormed, WellRouted;
    hide Unresolved, OnRecvPacket, Voucher, MovesOnly, Weight, AppMessages.Decode, ReceivedDenom, Moved;
    SentRouted(peer, i);
    WellFormedData(peer.sent[i], peer.app.address);
    var k := ChannelAccount(c, DestinationKey(peer.sent[i].packet));
    AcknowledgementSettles(peer, c, i, ACK_SUCCESS);
    PaymentFits(c, peer, i, k);
    PayEffect(c.bank, c.app, peer.sent[i]);
    ReceivedFromBase(peer.sent[i]);
    if OnRecvPacket(c.bank, c.app, peer.sent[i].packet).value.1 == ACK_SUCCESS {
      PayMoves(c.bank, c.app, peer.sent[i]);
    }
  }

  /**
   A packet not yet received can always be paid: vouchers burnt on the peer come out of
   escrow unless the receiver is the zero address, tokens in the peer's escrow are credited
   in vouchers, and neither credit wraps. Either way exactly the receiver is paid.
   */
  lemma PaymentNeverFallsShort(setup: Setup, steps: seq<Step>, c: Chain, peer: Chain, i: nat)
    requires After(setup, steps, c, peer) && i < |peer.sent|
    requires DestinationPacketKey(peer.sent[i].packet) !in c.host.store.acknowledgements
    requires DestinationKey(peer.sent[i].packet) in c.host.store.channels
    ensures var e := peer.sent[i];
            && OnRecvPacket(c.bank, c.app, e.packet).Ok?
            && var (bank, ack) := OnRecvPacket(c.bank, c.app, e.packet).value;
            && ack == (if FromEscrow(e) || e.data.receiver != ZERO_ADDRESS then ACK_SUCCESS else ACK_FAILURE)
            && (ack == ACK_SUCCESS ==>
                  Moved(c.bank, bank, ReceivedDenom(e.packet, e.data.denom), if FromEscrow(e) then None else Some(c.app.address),
                        Some(e.data.receiver), e.data.amount))
  {
    hide After, Linked, MoneyInv, OrderedInv, BookInv, FromEscrow, OnRecvPacket, Moved, ReceivedDenom;
    AfterRun(setup, steps, c, peer);
    PaymentFound(c, peer, i);
  }

  lemma ReceivedFromBase(e: SendEvent)
    ensures !FromEscrow(e) ==> ReceivedDenom(e.packet, e.data.denom) == Base(e)
  {
  }

  lemma RefundFound(c: Chain, peer: Chain, i: nat)
    requires Linked(c, peer) && MoneyInv(c, peer) && i < |c.sent|
    requires SourcePacketKey(c.sent[i].packet) in c.host.store.packetCommitments
    requires DestinationPacketKey(c.sent[i].packet) in peer.host.store.acknowledgements
    requires peer.host.store.acknowledgements[DestinationPacketKey(c.sent[i].packet)] == AckDigest(ACK_FAILURE)
    ensures OnAcknowledgementPacket(c.bank, c.app, c.sent[i].packet, ACK_FAILURE).Ok?
  {
    hide LocalInv, Links, MoneyInv, Supply, BalanceOf, Base, FromEscrow, WellFormed;
    hide Unresolved, OnAcknowledgementPacket, Voucher, MovesOnly, Weight, AppMessages.Decode;
    SentRouted(c, i);
    WellFormedData(c.sent[i], c.app.address);
    SourceStored(c, i);
    var k := ChannelAccount(c, SourceKey(c.sent[i].packet));
    DeletionSettles(c, peer, i, ACK_FAILURE);
    RefundFits(c, peer, i, k);
    RefundEffect(c.bank, c.app, c.sent[i], ACK_FAILURE);
  }

  /** A refund that is due never fails. */
  lemma RefundNeverFails(setup: Setup, steps: seq<Step>, c: Chain, peer: Chain, i: nat)
    requires After(setup, steps, c, peer) && i < |c.sent|
    requires SourcePacketKey(c.sent[i].packet) in c.host.store.packetCommitments
    requires DestinationPacketKey(c.sent[i].packet) in peer.host.store.acknowledgements
    requires peer.host.store.acknowledgements[DestinationPacketKey(c.sent[i].packet)] == AckDigest(ACK_FAILURE)
    ensures OnAcknowledgementPacket(c.bank, c.app, c.sent[i].packet, ACK_FAILURE).Ok?
  {
    hide After, Linked, MoneyInv, OrderedInv, BookInv, OnAcknowledgementPacket;
    AfterRun(setup, steps, c, peer);
    RefundFound(c, peer, i);
  }

  lemma SourceStored(c: Chain, i: nat)
    requires LocalInv(c) && i < |c.sent|
    ensures SourceKey(c.sent[i].packet) in c.host.store.channels
  {
    hide LocalInv, WellFormed;
    SentRouted(c, i);
  }

  // ----- Who pays and who is paid -----

  /**
   An accepted transfer sends exactly what was asked for to the counterparty of the channel,
   and takes it from the sender and nobody else.
   */
  lemma SenderPays(setup: Setup, steps: seq<Step>, c: Chain, peer: Chain, t: Transfer)
    requires After(setup, steps, c, peer)
    requires ChainSpec.SendTransfer(c, t).Ok?
    ensures var d := ChainSpec.SendTransfer(c, t).value;
            && |d.sent| == |c.sent| + 1
            && var e := d.sent[|c.sent|];
            && d.sent == c.sent + [e]
            && e.data == AppMessages.FungibleTokenPacketData(t.denom, t.amount, t.sender, t.receiver)
            && e.packet.data == AppMessages.Encode(e.data)
            && SourceKey(e.packet) == ChannelKey(t.port, t.channel) && SourceKey(e.packet) in c.host.store.channels
            && DestinationKey(e.packet) == CounterpartyKey(c.host.store.channels[SourceKey(e.packet)])
            && e.packet.timeoutHeight == Height(0, t.timeoutHeight) && e.packet.timeoutTimestamp == 0
            && Moved(c.bank, d.bank, t.denom, Some(t.sender), if FromEscrow(e) then Some(c.app.address) else None, t.amount)
  {
    hide After, LocalInv, Links, MoneyInv, OrderedInv, BookInv, ChainSpec.SendTransfer, SetPacketCommitment, TakeTokens, Moved;
    hide AppMessages.Encode, Supply, FromEscrow;
    AfterRun(setup, steps, c, peer);
    SendShape(c, t);
    var key := ChannelKey(t.port, t.channel);
    var k := ChannelAccount(c, key);
    SupplyBounded(c, peer, t.denom);
    TakeMoves(c.bank, c.app, t, TransferEvent(t, SequenceAt(c.host.nextSequenceSends, key), c.host.store.channels[key]));
  }

  /**
   A received packet pays its receiver, in the voucher or the original denomination, and takes
   from nobody but escrow; a failed one changes no balance.
   */
  lemma ReceiverIsPaid(setup: Setup, steps: seq<Step>, c: Chain, peer: Chain, msg: MsgPacketRecv, env: Env)
    returns (i: nat)
    requires After(setup, steps, c, peer)
    requires ChainSpec.RecvPacket(c, msg, env).Ok?
    ensures i < |peer.sent| && peer.sent[i].packet == msg.packet
    ensures var e := peer.sent[i];
            var d := ChainSpec.RecvPacket(c, msg, env).value;
            && |d.received| == |c.received| + 1
            && var ack := d.received[|c.received|].acknowledgement;
            && ack in {ACK_SUCCESS, ACK_FAILURE}
            && (ack == ACK_SUCCESS ==>
                  Moved(c.bank, d.bank, ReceivedDenom(msg.packet, e.data.denom), if FromEscrow(e) then None else Some(c.app.address),
                        Some(e.data.receiver), e.data.amount))
            && (ack == ACK_FAILURE ==> d.bank == c.bank)
  {
    hide After, LocalInv, Links, MoneyInv, OrderedInv, BookInv, ChainSpec.RecvPacket, OnRecvPacket, Moved, WellFormed, WasSent, Kept;
    hide AppMessages.Decode, Supply, BalanceOf, FromEscrow, Base, Voucher, ReceivedDenom, PaidDirectly, MovesOnly, Unresolved;
    AfterRun(setup, steps, c, peer);
    RecvPacketStep(c, peer, msg, env);
    RecvShape(c, msg, env);
    LinkedSwap(c, peer);
    i := SentEntry(peer, c, msg.packet);
    var e := peer.sent[i];
    WellFormedData(e, peer.app.address);
    var k := ChannelAccount(c, DestinationKey(msg.packet));
    AcknowledgementSettles(peer, c, i, ACK_SUCCESS);
    PaymentFits(c, peer, i, k);
    PayEffect(c.bank, c.app, e);
    if OnRecvPacket(c.bank, c.app, e.packet).value.1 == ACK_SUCCESS {
      PayMoves(c.bank, c.app, e);
    }
  }

  /** An acknowledged failure gives the tokens back to their sender; a success changes no balance. */
  lemma SenderIsRefunded(setup: Setup, steps: seq<Step>, c: Chain, peer: Chain, msg: MsgPacketAcknowledgement)
    returns (i: nat)
    requires After(setup, steps, c, peer)
    requires ChainSpec.AcknowledgePacket(c, msg).Ok?
    ensures i < |c.sent| && c.sent[i].packet == msg.packet
    ensures var e := c.sent[i];
            var d := ChainSpec.AcknowledgePacket(c, msg).value;
            && msg.acknowledgement in {ACK_SUCCESS, ACK_FAILURE}
            && (msg.acknowledgement == ACK_FAILURE ==>
                  Moved(c.bank, d.bank, e.data.denom, if FromEscrow(e) then Some(c.app.address) else None, Some(e.data.sender),
                        e.data.amount))
            && (msg.acknowledgement == ACK_SUCCESS ==> d.bank == c.bank)
  {
    hide After, LocalInv, Links, MoneyInv, OrderedInv, BookInv, ChainSpec.AcknowledgePacket, OnAcknowledgementPacket, Moved, WellFormed;
    hide AppMessages.Decode, Supply, BalanceOf, FromEscrow, Base, Voucher, WasSent, Kept, Unresolved;
    AfterRun(setup, steps, c, peer);
    AcknowledgePacketStep(c, peer, msg);
    AckShape(c, msg);
    WrittenAck(peer, DestinationPacketKey(msg.packet), msg.acknowledgement);
    i := SentEntry(c, peer, msg.packet);
    var e := c.sent[i];
    WellFormedData(e, c.app.address);
    var k := ChannelAccount(c, SourceKey(msg.packet));
    if msg.acknowledgement == ACK_FAILURE {
      DeletionSettles(c, peer, i, ACK_FAILURE);
      RefundFits(c, peer, i, k);
      RefundMoves(c.bank, c.app, e);
    } else {
      SuccessKeeps(c.bank, c.app, msg.packet);
    }
  }
}
