/** Every transaction keeps both banks in order and every denomination conserved. */
module MoneySteps {
  import opened Prelude
  import opened Sums
  import opened IBCIdentifier
  import opened IBCTypes
  import opened HostSpec
  import opened AppMessages
  import opened BankSpec
  import opened TransferSpec
  import opened AddressText
  import opened ChainSpec
  import opened World
  import opened ProtocolInvariant
  import opened HandshakeSteps
  import opened PacketSteps
  import opened Runs
  import opened Ledger
  import opened Payments
  import opened Conservation
  import ClientSpec
  import ConnectionSpec
  import ChannelSpec

  // ----- Packets under way -----

  /** Both chains' protocol invariants, seen from `c`. */
  ghost predicate Linked(c: Chain, peer: Chain) {
    LocalInv(c) && Links(c, peer) && LocalInv(peer) && Links(peer, c)
  }

  lemma SentRouted(c: Chain, i: nat)
    requires LocalInv(c) && i < |c.sent|
    ensures WellRouted(c.host.store.channels, SourceKey(c.sent[i].packet), DestinationKey(c.sent[i].packet))
    ensures WellFormed(c.sent[i], c.app.address)
    ensures forall j | 0 <= j < |c.sent| && j != i :: SourcePacketKey(c.sent[i].packet) != SourcePacketKey(c.sent[j].packet)
  {
    hide WellRouted, WellFormed, ConnectionsInv, ChannelsInv, ChannelLogInv, EscrowsInv, SequencesInv, CommittedInv;
    hide AcknowledgedInv, ReceivedInv, WrittenInv;
  }

  /** Distinct packets of a chain go to distinct places on the peer. */
  lemma DestinationsDistinct(c: Chain, peer: Chain, i: nat, j: nat)
    requires Linked(c, peer) && i < |c.sent| && j < |c.sent| && i != j
    ensures DestinationPacketKey(c.sent[i].packet) != DestinationPacketKey(c.sent[j].packet)
  {
    hide LocalInv, Links, WellFormed;
    SentRouted(c, i);
    SentRouted(c, j);
    PeerPointsBack(c, peer, SourceKey(c.sent[i].packet));
    PeerPointsBack(c, peer, SourceKey(c.sent[j].packet));
  }

  lemma ReceivedWasSent(c: Chain, peer: Chain, key: PacketKey) returns (i: nat)
    requires Linked(c, peer) && key in peer.host.store.acknowledgements
    ensures i < |c.sent| && DestinationPacketKey(c.sent[i].packet) == key
  {
    hide ConnectionsInv, ChannelsInv, ChannelLogInv, EscrowsInv, SequencesInv, CommittedInv, SentInv;
    hide AcknowledgedInv, ReceivedInv, ConnectionLinks, ChannelLinks, ClientsKnow;
    var j: nat :| ReceivedAt(peer.received, j, key);
    assert WasSent(c.sent, peer.received[j].packet);
    i :| 0 <= i < |c.sent| && c.sent[i].packet == peer.received[j].packet;
  }

  /** What a chain has just sent, its peer has not received. */
  lemma NotYetReceived(c: Chain, d: Chain, peer: Chain, e: SendEvent)
    requires Linked(c, peer) && Linked(d, peer) && d.sent == c.sent + [e]
    ensures DestinationPacketKey(e.packet) !in peer.host.store.acknowledgements
  {
    hide Linked;
    if DestinationPacketKey(e.packet) in peer.host.store.acknowledgements {
      var i := ReceivedWasSent(c, peer, DestinationPacketKey(e.packet));
      DestinationsDistinct(d, peer, i, |c.sent|);
    }
  }

  /** Until the peer has received a packet, its commitment stays. */
  lemma CommittedUntilReceived(c: Chain, peer: Chain, i: nat)
    requires Linked(c, peer) && i < |c.sent|
    requires DestinationPacketKey(c.sent[i].packet) !in peer.host.store.acknowledgements
    ensures SourcePacketKey(c.sent[i].packet) in c.host.store.packetCommitments
  {
    hide ConnectionsInv, ChannelsInv, ChannelLogInv, EscrowsInv, SequencesInv, SentInv, WellRouted, WellFormed;
    hide ReceivedInv, WrittenInv, ConnectionLinks, ChannelLinks, ClientsKnow;
    SentRouted(c, i);
    var key := SourcePacketKey(c.sent[i].packet);
    forall j | 0 <= j < |c.acknowledged|
      ensures SourcePacketKey(c.acknowledged[j].packet) != key
    {
      assert WasSent(c.sent, c.acknowledged[j].packet);
      var m: nat :| m < |c.sent| && c.sent[m].packet == c.acknowledged[j].packet;
      assert m != i;
    }
    assert forall j: nat :: !AcknowledgedAt(c.acknowledged, j, key);
    assert !IsAcknowledged(c.acknowledged, key);
  }

  // ----- Channels and escrow -----

  lemma LogDistinct(ends: Channels, log: seq<ChannelKey>, next: nat)
    requires ChannelLogInv(ends, log, next)
    ensures Distinct(log)
  {
    forall i | 0 <= i < |log|
      ensures SlashFreeKey(log[i])
    {
      ChannelIdSlashFree(i);
    }
    forall i, j | 0 <= i < j < |log|
      ensures log[i] != log[j]
    {
      if log[i] == log[j] {
        ChannelIdInjective(i, j);
      }
    }
  }

  /** A channel end is in the log, and its escrow account is the application. */
  lemma ChannelAccount(c: Chain, key: ChannelKey) returns (k: nat)
    requires LocalInv(c) && key in c.host.store.channels
    ensures k < |c.channelLog| && c.channelLog[k] == key
    ensures key.channelId in c.app.escrows && c.app.escrows[key.channelId] == c.app.address != ZERO_ADDRESS
  {
    hide ConnectionsInv, ChannelsInv, SequencesInv, SentInv, CommittedInv, AcknowledgedInv, ReceivedInv, WrittenInv;
    hide ChannelId, SlashFree;
    k :| 0 <= k < |c.channelLog| && c.channelLog[k] == key;
  }

  /** Nothing moves on either ledger. */
  lemma QuietMoney(c: Chain, d: Chain, peer: Chain)
    requires MoneyInv(c, peer) && SamePending(c, d, peer)
    requires d.bank == c.bank && d.erc20Held == c.erc20Held && d.donated == c.donated && d.channelLog == c.channelLog
    requires d.direct == c.direct && d.app.address == c.app.address
    ensures MoneyInv(d, peer)
  {
    hide BankInv, Distinct, Supply, BalanceOf, Conserved, Voucher, SamePending;
    LocalPayment(c, d, peer);
  }

  // ----- Sending -----

  lemma SendMoney(c: Chain, peer: Chain, t: Transfer)
    requires Linked(c, peer) && MoneyInv(c, peer)
    requires t.sender != c.app.address
    requires ChainSpec.SendTransfer(c, t).Ok?
    requires Linked(ChainSpec.SendTransfer(c, t).value, peer)
    ensures MoneyInv(ChainSpec.SendTransfer(c, t).value, peer)
  {
    hide ChainSpec.SendTransfer, LocalInv, Links, BankInv, Conserved, Distinct, TakeTokens, MovesOnly, Encode;
    hide Supply, BalanceOf, Voucher, Weight, Base;
    SendShape(c, t);
    var d := ChainSpec.SendTransfer(c, t).value;
    var key := ChannelKey(t.port, t.channel);
    var e := TransferEvent(t, SequenceAt(c.host.nextSequenceSends, key), c.host.store.channels[key]);
    var k := ChannelAccount(c, key);
    SupplyBounded(c, peer, t.denom);
    TakeEffect(c.bank, c.app, t, e);
    NotYetReceived(c, d, peer, e);
    forall i | 0 <= i < |c.sent|
      ensures Unresolved(c.sent[i].packet, d.host.store.packetCommitments, peer.host.store.acknowledgements)
           == Unresolved(c.sent[i].packet, c.host.store.packetCommitments, peer.host.store.acknowledgements)
    {
      SentRouted(d, i);
      assert d.sent[|c.sent|] == e;
      assert SourcePacketKey(c.sent[i].packet) != SourcePacketKey(e.packet);
    }
    SendConserves(c, d, peer, e, k);
    assert BankInv(d.bank, d.erc20Held, d.donated, d.channelLog) by {
      OnlyVoucherMoves(c.bank, d.bank, c.app.address, Base(e), Voucher(key, Base(e)));
      BankInvVoucherMoves(c.bank, d.bank, c.erc20Held, c.donated, c.channelLog, k, Base(e));
    }
  }

  lemma OnlyVoucherMoves(b: BankState, c: BankState, account: Address, x: Bytes, y: Bytes)
    requires MovesOnly(b, c, account, x, y)
    ensures forall z | z != y :: Supply(c, z) == Supply(b, z)
  {
  }

  // ----- Receiving -----

  /** The log entry of a packet the peer sent, and what is known of it. */
  lemma SentEntry(c: Chain, peer: Chain, p: Packet) returns (i: nat)
    requires Linked(c, peer) && WasSent(c.sent, p)
    ensures i < |c.sent| && c.sent[i].packet == p
    ensures Decode(p.data) == Ok(c.sent[i].data)
    ensures WellFormed(c.sent[i], c.app.address)
  {
    hide LocalInv, Links, WellFormed;
    i :| 0 <= i < |c.sent| && c.sent[i].packet == p;
    SentRouted(c, i);
    assert Decode(p.data) == Ok(c.sent[i].data) by { WellFormedData(c.sent[i], c.app.address); }
  }

  lemma WellFormedData(e: SendEvent, app: Address)
    requires WellFormed(e, app)
    ensures Decode(e.packet.data) == Ok(e.data)
    ensures |e.data.sender| == 20 && e.data.sender != app && e.data.sender != ZERO_ADDRESS
    ensures |e.data.receiver| == 20
  {
  }

  /** Writing an acknowledgement settles that packet alone, and only if it is a success. */
  lemma AcknowledgementSettles(c: Chain, peer: Chain, i: nat, ack: Bytes)
    requires Linked(c, peer) && i < |c.sent|
    requires DestinationPacketKey(c.sent[i].packet) !in peer.host.store.acknowledgements
    requires ack in {ACK_SUCCESS, ACK_FAILURE}
    ensures var acks := peer.host.store.acknowledgements;
            var more := acks[DestinationPacketKey(c.sent[i].packet) := AckDigest(ack)];
            && Unresolved(c.sent[i].packet, c.host.store.packetCommitments, acks)
            && Unresolved(c.sent[i].packet, c.host.store.packetCommitments, more) == (ack == ACK_FAILURE)
            && forall j | 0 <= j < |c.sent| && j != i ::
                 Unresolved(c.sent[j].packet, c.host.store.packetCommitments, more)
                 == Unresolved(c.sent[j].packet, c.host.store.packetCommitments, acks)
  {
    hide Linked;
    CommittedUntilReceived(c, peer, i);
    forall j | 0 <= j < |c.sent| && j != i
      ensures DestinationPacketKey(c.sent[j].packet) != DestinationPacketKey(c.sent[i].packet)
    {
      DestinationsDistinct(c, peer, i, j);
    }
  }

  lemma WeightWithin(c: Chain, peer: Chain, i: nat)
    requires i < |peer.sent|
    requires Unresolved(peer.sent[i].packet, peer.host.store.packetCommitments, c.host.store.acknowledgements)
    ensures var e := peer.sent[i];
            e.data.amount <= Pending(peer.sent, peer.host.store.packetCommitments, c.host.store.acknowledgements, Base(e),
                                     FromEscrow(e))
  {
    hide Pending, Unresolved, Weight, Base, FromEscrow;
    var e := peer.sent[i];
    WeightOfBase(e, Base(e), FromEscrow(e));
    PendingTerm(peer.sent, peer.host.store.packetCommitments, c.host.store.acknowledgements, i, Base(e), FromEscrow(e));
  }

  /** `PaidDirectly` adds to one denomination what the application's account was paid. */
  lemma DirectEffect(c: Chain, account: Bytes, denom: Bytes, amount: nat)
    ensures forall x :: At(PaidDirectly(c, account, denom, amount), x)
                        == At(c.direct, x) + if x == denom && account == c.app.address then amount else 0
  {
  }

  /** The limits a payment for an unreceived packet keeps to. */
  lemma PaymentFits(c: Chain, peer: Chain, i: nat, k: nat)
    requires MoneyInv(c, peer) && i < |peer.sent| && k < |c.channelLog|
    requires c.channelLog[k] == DestinationKey(peer.sent[i].packet)
    requires Unresolved(peer.sent[i].packet, peer.host.store.packetCommitments, c.host.store.acknowledgements)
    ensures var e := peer.sent[i];
            && Supply(c.bank, Base(e)) < TWO_256
            && (FromEscrow(e) ==> Supply(c.bank, Voucher(DestinationKey(e.packet), Base(e))) + e.data.amount < TWO_256)
            && (!FromEscrow(e) ==> e.data.amount <= BalanceOf(c.bank, Base(e), c.app.address))
  {
    hide BankInv, Distinct, Supply, Voucher, Vouchers, Pending, Unresolved, Base, FromEscrow, BalanceOf;
    var e := peer.sent[i];
    SupplyBounded(c, peer, Base(e));
    VoucherFits(c, peer, k, Base(e));
    WeightWithin(c, peer, i);
    assert Escrowed(c, Base(e)) == Owed(c, peer, Base(e)) + At(c.direct, Base(e));
  }

  /** The peer's packet `i`, unreceived so far, is received on `c`. */
  lemma ReceivedMoney(c: Chain, d: Chain, peer: Chain, i: nat, k: nat)
    requires Linked(c, peer) && MoneyInv(c, peer)
    requires i < |peer.sent| && k < |c.channelLog| && c.channelLog[k] == DestinationKey(peer.sent[i].packet)
    requires WellFormed(peer.sent[i], peer.app.address)
    requires var p := peer.sent[i].packet;
             && p.destinationChannel in c.app.escrows && c.app.escrows[p.destinationChannel] == c.app.address != ZERO_ADDRESS
             && DestinationPacketKey(p) !in c.host.store.acknowledgements
             && OnRecvPacket(c.bank, c.app, p).Ok?
             && var (bank, ack) := OnRecvPacket(c.bank, c.app, p).value;
             && ack in {ACK_SUCCESS, ACK_FAILURE}
             && d == c.(host := d.host, bank := bank, received := d.received, direct := d.direct)
             && d.host.store == c.host.store.(
                  acknowledgements := c.host.store.acknowledgements[DestinationPacketKey(p) := AckDigest(ack)])
             && var data := peer.sent[i].data;
                d.direct == (if ack == ACK_SUCCESS then PaidDirectly(c, data.receiver, ReceivedDenom(p, data.denom), data.amount)
                             else c.direct)
    ensures MoneyInv(d, peer)
  {
    hide WellFormed, BankInv, Distinct, Conserved, Supply, Voucher, Unresolved, Base, FromEscrow, BalanceOf, Weight;
    hide OnRecvPacket, PaidDirectly, Decode, ReceivedDenom, MovesOnly, Linked;
    var e := peer.sent[i];
    WellFormedData(e, peer.app.address);
    assert Linked(peer, c) by { LinkedSwap(c, peer); }
    var (bank, ack) := OnRecvPacket(c.bank, c.app, e.packet).value;
    AcknowledgementSettles(peer, c, i, ack);
    PaymentFits(c, peer, i, k);
    PayEffect(c.bank, c.app, e);
    if ack == ACK_SUCCESS {
      DirectEffect(c, e.data.receiver, ReceivedDenom(e.packet, e.data.denom), e.data.amount);
      PaidMoney(c, d, peer, i, k);
    } else {
      QuietMoney(c, d, peer);
    }
  }

  /** The peer's packet `i` is paid out on `c`. */
  lemma PaidMoney(c: Chain, d: Chain, peer: Chain, i: nat, k: nat)
    requires MoneyInv(c, peer)
    requires i < |peer.sent| && k < |c.channelLog| && c.channelLog[k] == DestinationKey(peer.sent[i].packet)
    requires d.app == c.app && d.channelLog == c.channelLog && d.sent == c.sent && d.erc20Held == c.erc20Held
    requires d.donated == c.donated
    requires d.host.store.packetCommitments == c.host.store.packetCommitments
    requires forall j | 0 <= j < |peer.sent| && j != i ::
               Unresolved(peer.sent[j].packet, peer.host.store.packetCommitments, d.host.store.acknowledgements)
               == Unresolved(peer.sent[j].packet, peer.host.store.packetCommitments, c.host.store.acknowledgements)
    requires Unresolved(peer.sent[i].packet, peer.host.store.packetCommitments, c.host.store.acknowledgements)
    requires !Unresolved(peer.sent[i].packet, peer.host.store.packetCommitments, d.host.store.acknowledgements)
    requires var e := peer.sent[i];
             var voucher := Voucher(DestinationKey(e.packet), Base(e));
             var denom := if FromEscrow(e) then voucher else Base(e);
             var toApp := if e.data.receiver == c.app.address then e.data.amount else 0;
             && MovesOnly(c.bank, d.bank, c.app.address, denom, voucher)
             && Supply(d.bank, voucher) == Supply(c.bank, voucher) + Weight(e, Base(e), true)
             && BalanceOf(d.bank, denom, c.app.address)
                == BalanceOf(c.bank, denom, c.app.address) - (if FromEscrow(e) then 0 else e.data.amount) + toApp
             && (forall x :: At(d.direct, x) == At(c.direct, x) + if x == denom then toApp else 0)
    ensures MoneyInv(d, peer)
  {
    hide BankInv, Distinct, Conserved, Supply, Voucher, Unresolved, Base, FromEscrow, BalanceOf, Weight, MovesOnly;
    var e := peer.sent[i];
    PayConserves(c, d, peer, e, i, k);
    var denom := if FromEscrow(e) then Voucher(DestinationKey(e.packet), Base(e)) else Base(e);
    OnlyVoucherMoves(c.bank, d.bank, c.app.address, denom, Voucher(c.channelLog[k], Base(e)));
    BankInvVoucherMoves(c.bank, d.bank, c.erc20Held, c.donated, c.channelLog, k, Base(e));
  }

  lemma LinkedSwap(c: Chain, peer: Chain)
    requires Linked(c, peer)
    ensures Linked(peer, c)
  {
  }

  lemma RecvMoney(c: Chain, peer: Chain, msg: MsgPacketRecv, env: Env)
    requires Linked(c, peer) && MoneyInv(c, peer)
    requires ChainSpec.RecvPacket(c, msg, env).Ok?
    ensures MoneyInv(ChainSpec.RecvPacket(c, msg, env).value, peer)
  {
    hide LocalInv, Links, MoneyInv, ReceivedDenom, Decode, OnRecvPacket, PaidDirectly, ChainSpec.RecvPacket, Kept;
    RecvPacketStep(c, peer, msg, env);
    RecvShape(c, msg, env);
    LinkedSwap(c, peer);
    var i := SentEntry(peer, c, msg.packet);
    var k := ChannelAccount(c, DestinationKey(msg.packet));
    ReceivedMoney(c, ChainSpec.RecvPacket(c, msg, env).value, peer, i, k);
  }

  // ----- Acknowledging -----

  /** What an acknowledged packet was acknowledged with. */
  lemma WrittenAck(peer: Chain, key: PacketKey, ack: Bytes)
    requires LocalInv(peer) && key in peer.host.store.acknowledgements
    requires peer.host.store.acknowledgements[key] == AckDigest(ack)
    ensures ack in {ACK_SUCCESS, ACK_FAILURE}
  {
    hide ConnectionsInv, ChannelsInv, ChannelLogInv, EscrowsInv, SequencesInv, SentInv, CommittedInv, AcknowledgedInv;
    hide WellRouted;
    var i: nat :| ReceivedAt(peer.received, i, key)
                  && peer.host.store.acknowledgements[key] == AckDigest(peer.received[i].acknowledgement);
  }

  /** Deleting a commitment settles that packet alone, and only if it was still to be refunded. */
  lemma DeletionSettles(c: Chain, peer: Chain, i: nat, ack: Bytes)
    requires Linked(c, peer) && i < |c.sent|
    requires var p := c.sent[i].packet;
             && SourcePacketKey(p) in c.host.store.packetCommitments
             && DestinationPacketKey(p) in peer.host.store.acknowledgements
             && peer.host.store.acknowledgements[DestinationPacketKey(p)] == AckDigest(ack)
    ensures var left := c.host.store.packetCommitments - {SourcePacketKey(c.sent[i].packet)};
            var acks := peer.host.store.acknowledgements;
            && Unresolved(c.sent[i].packet, c.host.store.packetCommitments, acks) == (ack == ACK_FAILURE)
            && !Unresolved(c.sent[i].packet, left, acks)
            && forall j | 0 <= j < |c.sent| && j != i ::
                 Unresolved(c.sent[j].packet, left, acks)
                 == Unresolved(c.sent[j].packet, c.host.store.packetCommitments, acks)
  {
    hide LocalInv, Links, WellRouted, WellFormed, Unresolved;
    SentRouted(c, i);
    var acks := peer.host.store.acknowledgements;
    DeletedUnresolved(c.sent, c.host.store.packetCommitments, acks, i, ack);
  }

  lemma DeletedUnresolved(sent: seq<SendEvent>, commitments: map<PacketKey, Digest>, acks: map<PacketKey, Digest>, i: nat,
                          ack: Bytes)
    requires i < |sent|
    requires forall j | 0 <= j < |sent| && j != i :: SourcePacketKey(sent[i].packet) != SourcePacketKey(sent[j].packet)
    requires SourcePacketKey(sent[i].packet) in commitments
    requires DestinationPacketKey(sent[i].packet) in acks && acks[DestinationPacketKey(sent[i].packet)] == AckDigest(ack)
    ensures var left := commitments - {SourcePacketKey(sent[i].packet)};
            && Unresolved(sent[i].packet, commitments, acks) == (ack == ACK_FAILURE)
            && !Unresolved(sent[i].packet, left, acks)
            && forall j | 0 <= j < |sent| && j != i ::
                 Unresolved(sent[j].packet, left, acks) == Unresolved(sent[j].packet, commitments, acks)
  {
    hide SourcePacketKey, DestinationPacketKey;
  }

  /** The limits a refund keeps to. */
  lemma RefundFits(c: Chain, peer: Chain, i: nat, k: nat)
    requires MoneyInv(c, peer) && i < |c.sent| && k < |c.channelLog|
    requires c.channelLog[k] == SourceKey(c.sent[i].packet)
    requires Unresolved(c.sent[i].packet, c.host.store.packetCommitments, peer.host.store.acknowledgements)
    ensures var e := c.sent[i];
            && Supply(c.bank, Base(e)) < TWO_256
            && (!FromEscrow(e) ==> Supply(c.bank, Voucher(SourceKey(e.packet), Base(e))) + e.data.amount < TWO_256)
            && (FromEscrow(e) ==> e.data.amount <= BalanceOf(c.bank, Base(e), c.app.address))
  {
    hide BankInv, Distinct, Supply, Voucher, Vouchers, Pending, Unresolved, Base, FromEscrow, BalanceOf;
    var e := c.sent[i];
    SupplyBounded(c, peer, Base(e));
    VoucherFits(c, peer, k, Base(e));
    WeightWithin(peer, c, i);
    assert Escrowed(c, Base(e)) == Owed(c, peer, Base(e)) + At(c.direct, Base(e));
  }

  /** Packet `i` of `c`, committed so far, is acknowledged. */
  lemma AcknowledgedMoney(c: Chain, d: Chain, peer: Chain, i: nat, k: nat, ack: Bytes)
    requires Linked(c, peer) && MoneyInv(c, peer)
    requires i < |c.sent| && k < |c.channelLog| && c.channelLog[k] == SourceKey(c.sent[i].packet)
    requires WellFormed(c.sent[i], c.app.address)
    requires ack in {ACK_SUCCESS, ACK_FAILURE}
    requires var p := c.sent[i].packet;
             && p.sourceChannel in c.app.escrows && c.app.escrows[p.sourceChannel] == c.app.address != ZERO_ADDRESS
             && SourcePacketKey(p) in c.host.store.packetCommitments
             && DestinationPacketKey(p) in peer.host.store.acknowledgements
             && peer.host.store.acknowledgements[DestinationPacketKey(p)] == AckDigest(ack)
             && OnAcknowledgementPacket(c.bank, c.app, p, ack).Ok?
             && d == c.(host := d.host, bank := OnAcknowledgementPacket(c.bank, c.app, p, ack).value,
                        acknowledged := d.acknowledged)
             && d.host.store == c.host.store.(packetCommitments := c.host.store.packetCommitments - {SourcePacketKey(p)})
    ensures MoneyInv(d, peer)
  {
    hide WellFormed, BankInv, Distinct, Conserved, Supply, Voucher, Unresolved, Base, FromEscrow, BalanceOf, Weight;
    hide Decode, MovesOnly, Linked, OnAcknowledgementPacket;
    var e := c.sent[i];
    WellFormedData(e, c.app.address);
    DeletionSettles(c, peer, i, ack);
    if ack == ACK_FAILURE {
      RefundFits(c, peer, i, k);
      RefundEffect(c.bank, c.app, e, ack);
      RefundedMoney(c, d, peer, i, k);
    } else {
      SuccessKeeps(c.bank, c.app, e.packet);
      QuietMoney(c, d, peer);
    }
  }

  lemma SuccessKeeps(bank: BankState, app: AppState, p: Packet)
    ensures OnAcknowledgementPacket(bank, app, p, ACK_SUCCESS) == Ok(bank)
  {
  }

  /** Packet `i` of `c` is refunded. */
  lemma RefundedMoney(c: Chain, d: Chain, peer: Chain, i: nat, k: nat)
    requires MoneyInv(c, peer)
    requires i < |c.sent| && k < |c.channelLog| && c.channelLog[k] == SourceKey(c.sent[i].packet)
    requires d.app == c.app && d.channelLog == c.channelLog && d.sent == c.sent && d.direct == c.direct
    requires d.erc20Held == c.erc20Held && d.donated == c.donated
    requires d.host.store.acknowledgements == c.host.store.acknowledgements
    requires forall j | 0 <= j < |c.sent| && j != i ::
               Unresolved(c.sent[j].packet, d.host.store.packetCommitments, peer.host.store.acknowledgements)
               == Unresolved(c.sent[j].packet, c.host.store.packetCommitments, peer.host.store.acknowledgements)
    requires Unresolved(c.sent[i].packet, c.host.store.packetCommitments, peer.host.store.acknowledgements)
    requires !Unresolved(c.sent[i].packet, d.host.store.packetCommitments, peer.host.store.acknowledgements)
    requires var e := c.sent[i];
             var voucher := Voucher(SourceKey(e.packet), Base(e));
             && MovesOnly(c.bank, d.bank, c.app.address, Base(e), voucher)
             && BalanceOf(d.bank, Base(e), c.app.address)
                == BalanceOf(c.bank, Base(e), c.app.address) - Weight(e, Base(e), true)
             && Supply(d.bank, voucher) == Supply(c.bank, voucher) + Weight(e, Base(e), false)
    ensures MoneyInv(d, peer)
  {
    hide BankInv, Distinct, Conserved, Supply, Voucher, Unresolved, Base, FromEscrow, BalanceOf, Weight, MovesOnly;
    var e := c.sent[i];
    RefundConserves(c, d, peer, e, i, k);
    OnlyVoucherMoves(c.bank, d.bank, c.app.address, Base(e), Voucher(c.channelLog[k], Base(e)));
    BankInvVoucherMoves(c.bank, d.bank, c.erc20Held, c.donated, c.channelLog, k, Base(e));
  }

  lemma AckMoney(c: Chain, peer: Chain, msg: MsgPacketAcknowledgement)
    requires Linked(c, peer) && MoneyInv(c, peer)
    requires ChainSpec.AcknowledgePacket(c, msg).Ok?
    ensures MoneyInv(ChainSpec.AcknowledgePacket(c, msg).value, peer)
  {
    hide LocalInv, Links, MoneyInv, Decode, OnAcknowledgementPacket, ChainSpec.AcknowledgePacket, Kept, WellFormed;
    AcknowledgePacketStep(c, peer, msg);
    AckShape(c, msg);
    WrittenAck(peer, DestinationPacketKey(msg.packet), msg.acknowledgement);
    var i := SentEntry(c, peer, msg.packet);
    var k := ChannelAccount(c, SourceKey(msg.packet));
    AcknowledgedMoney(c, ChainSpec.AcknowledgePacket(c, msg).value, peer, i, k, msg.acknowledgement);
  }

  // ----- The bank's own entry points -----

  lemma BankTransferMoney(c: Chain, peer: Chain, caller: Address, to: Address, denom: Bytes, amount: nat)
    requires MoneyInv(c, peer) && caller != c.app.address
    requires ChainSpec.BankTransfer(c, caller, to, denom, amount).Ok?
    ensures MoneyInv(ChainSpec.BankTransfer(c, caller, to, denom, amount).value, peer)
  {
    hide BankInv, Distinct, Supply, BalanceOf, PaidDirectly, TransferFrom, Conserved;
    var d := ChainSpec.BankTransfer(c, caller, to, denom, amount).value;
    SupplyBounded(c, peer, denom);
    TransferEffect(c.bank, caller, to, denom, amount);
    DirectEffect(c, to, denom, amount);
    LocalPayment(c, d, peer);
    SameSupplies(c.bank, d.bank, c.erc20Held, c.donated, c.channelLog);
  }

  lemma SameSupplies(b: BankState, c: BankState, held: map<Address, nat>, donated: map<Address, nat>, log: seq<ChannelKey>)
    requires BankInv(b, held, donated, log)
    requires forall z :: Supply(c, z) == Supply(b, z)
    ensures BankInv(c, held, donated, log)
  {
    hide Supply, AddressToString, VoucherOf;
  }

  lemma DepositFits(bank: BankState, held: map<Address, nat>, donated: map<Address, nat>, log: seq<ChannelKey>, token: Address)
    requires BankInv(bank, held, donated, log)
    ensures Supply(bank, AddressToString(token)) + At(donated, token) == At(held, token) < TWO_256
  {
  }

  lemma DepositMoney(c: Chain, peer: Chain, token: Address, amount: nat, receiver: Address, paid: bool)
    requires MoneyInv(c, peer)
    requires ChainSpec.Deposit(c, token, amount, receiver, paid).Ok?
    ensures MoneyInv(ChainSpec.Deposit(c, token, amount, receiver, paid).value, peer)
  {
    hide BankInv, Distinct, Supply, BalanceOf, PaidDirectly, Credit, Conserved, AddressToString, Voucher;
    var d := ChainSpec.Deposit(c, token, amount, receiver, paid).value;
    DepositFits(c.bank, c.erc20Held, c.donated, c.channelLog, token);
    CreditEffect(c.bank, AddressToString(token), receiver, amount);
    DirectEffect(c, receiver, AddressToString(token), amount);
    forall i, x | 0 <= i < |c.channelLog|
      ensures AddressToString(token) != Voucher(c.channelLog[i], x)
    {
      DepositIsNoVoucher(token, c.channelLog[i], x);
    }
    LocalPayment(c, d, peer);
    BankInvDepositMoves(c.bank, d.bank, c.erc20Held, c.donated, c.channelLog, token, At(c.erc20Held, token) + amount);
  }

  lemma DonateMoney(c: Chain, peer: Chain, token: Address, amount: nat)
    requires MoneyInv(c, peer) && ChainSpec.Donate(c, token, amount).Ok?
    ensures MoneyInv(ChainSpec.Donate(c, token, amount).value, peer)
  {
    hide BankInv, Distinct, Supply, BalanceOf, Conserved, Voucher, SamePending;
    var d := ChainSpec.Donate(c, token, amount).value;
    BankInvDonated(c.bank, c.erc20Held, c.donated, c.channelLog, token, amount);
    UndisturbedPending(c, d, peer);
    LocalPayment(c, d, peer);
  }

  lemma UndisturbedPending(c: Chain, d: Chain, peer: Chain)
    requires d.sent == c.sent && d.host == c.host
    ensures SamePending(c, d, peer)
  {
  }

  lemma WithdrawMoney(c: Chain, peer: Chain, caller: Address, token: Address, amount: nat, paid: bool)
    requires MoneyInv(c, peer) && caller != c.app.address
    requires ChainSpec.Withdraw(c, caller, token, amount, paid).Ok?
    ensures MoneyInv(ChainSpec.Withdraw(c, caller, token, amount, paid).value, peer)
  {
    hide BankInv, Distinct, Supply, BalanceOf, PaidDirectly, Debit, Conserved, AddressToString, Voucher;
    var d := ChainSpec.Withdraw(c, caller, token, amount, paid).value;
    DepositFits(c.bank, c.erc20Held, c.donated, c.channelLog, token);
    SupplyBounded(c, peer, AddressToString(token));
    DebitEffect(c.bank, AddressToString(token), caller, amount);
    forall i, x | 0 <= i < |c.channelLog|
      ensures AddressToString(token) != Voucher(c.channelLog[i], x)
    {
      DepositIsNoVoucher(token, c.channelLog[i], x);
    }
    LocalPayment(c, d, peer);
    BankInvDepositMoves(c.bank, d.bank, c.erc20Held, c.donated, c.channelLog, token, At(c.erc20Held, token) - amount);
  }
}
