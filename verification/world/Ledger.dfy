/** What the two banks hold, owe and have in flight, denomination by denomination. */
module Ledger {
  import opened Prelude
  import opened Sums
  import opened IBCIdentifier
  import opened IBCTypes
  import opened HostSpec
  import opened AppMessages
  import opened BankSpec
  import opened TransferSpec
  import opened ChainSpec

  // ----- Vouchers -----

  /** The denomination in which a chain holds the peer's `denom` received over its channel end `key`. */
  function Voucher(key: ChannelKey, denom: Bytes): Bytes {
    DenomPrefix(key.portId, key.channelId) + denom
  }

  predicate SlashFreeKey(key: ChannelKey) {
    SlashFree(key.portId) && SlashFree(key.channelId)
  }

  lemma VoucherSplit(key: ChannelKey, denom: Bytes)
    ensures IsVoucher(key.portId, key.channelId, Voucher(key, denom))
    ensures Unprefixed(key.portId, key.channelId, Voucher(key, denom)) == denom
  {
  }

  lemma VoucherJoin(key: ChannelKey, denom: Bytes)
    requires IsVoucher(key.portId, key.channelId, denom)
    ensures denom == Voucher(key, Unprefixed(key.portId, key.channelId, denom))
  {
  }

  lemma VoucherInjective(j: ChannelKey, x: Bytes, k: ChannelKey, y: Bytes)
    requires SlashFreeKey(j) && SlashFreeKey(k)
    requires Voucher(j, x) == Voucher(k, y)
    ensures j == k && x == y
  {
    VoucherSplit(j, x);
    VoucherSplit(k, y);
    PrefixUnique(j.portId, j.channelId, k.portId, k.channelId, Voucher(j, x));
  }

  predicate Distinct(log: seq<ChannelKey>) {
    && (forall i | 0 <= i < |log| :: SlashFreeKey(log[i]))
    && (forall i, j | 0 <= i < j < |log| :: log[i] != log[j])
  }

  ghost function VoucherTerms(bank: BankState, log: seq<ChannelKey>, denom: Bytes): (terms: seq<nat>)
    ensures |terms| == |log|
    ensures forall i | 0 <= i < |log| :: terms[i] == Supply(bank, Voucher(log[i], denom))
  {
    seq(|log|, i requires 0 <= i < |log| => Supply(bank, Voucher(log[i], denom)))
  }

  /** All vouchers of `denom`, over all channels. */
  ghost function Vouchers(bank: BankState, log: seq<ChannelKey>, denom: Bytes): nat {
    Sum(VoucherTerms(bank, log, denom))
  }

  lemma VouchersSame(b: BankState, c: BankState, log: seq<ChannelKey>, denom: Bytes)
    requires forall i | 0 <= i < |log| :: Supply(c, Voucher(log[i], denom)) == Supply(b, Voucher(log[i], denom))
    ensures Vouchers(c, log, denom) == Vouchers(b, log, denom)
  {
    hide Supply, Voucher;
    assert VoucherTerms(c, log, denom) == VoucherTerms(b, log, denom);
  }

  /** When the supply of one voucher changes, so do the vouchers of its denomination, and of no other. */
  lemma VouchersChange(b: BankState, c: BankState, log: seq<ChannelKey>, k: nat, x: Bytes, denom: Bytes)
    requires Distinct(log) && k < |log|
    requires forall y | y != Voucher(log[k], x) :: Supply(c, y) == Supply(b, y)
    ensures Vouchers(c, log, denom)
         == if denom != x then Vouchers(b, log, denom)
            else Vouchers(b, log, denom) - Supply(b, Voucher(log[k], x)) + Supply(c, Voucher(log[k], x))
  {
    hide Supply, Voucher, SlashFreeKey;
    forall i | 0 <= i < |log| && (i != k || denom != x)
      ensures Voucher(log[i], denom) != Voucher(log[k], x)
    {
      if Voucher(log[i], denom) == Voucher(log[k], x) {
        VoucherInjective(log[i], denom, log[k], x);
      }
    }
    if denom == x {
      SumUpdate(VoucherTerms(b, log, x), k, Supply(c, Voucher(log[k], x)));
      assert VoucherTerms(c, log, x) == VoucherTerms(b, log, x)[k := Supply(c, Voucher(log[k], x))];
    } else {
      VouchersSame(b, c, log, denom);
    }
  }

  lemma VouchersOfNewChannel(b: BankState, log: seq<ChannelKey>, key: ChannelKey, denom: Bytes)
    requires Supply(b, Voucher(key, denom)) == 0
    ensures Vouchers(b, log + [key], denom) == Vouchers(b, log, denom)
  {
    hide Supply, Voucher;
    SumAppend(VoucherTerms(b, log, denom), 0);
    assert VoucherTerms(b, log + [key], denom) == VoucherTerms(b, log, denom) + [0];
  }

  // ----- Packets under way -----

  /** Sent, and neither paid out by the peer nor refunded. */
  predicate Unresolved(p: Packet, commitments: map<PacketKey, Digest>, acks: map<PacketKey, Digest>) {
    var key := DestinationPacketKey(p);
    key !in acks || (acks[key] == AckDigest(ACK_FAILURE) && SourcePacketKey(p) in commitments)
  }

  /**
   How much of `denom` a packet carries: tokens its sender put in escrow, or tokens whose
   vouchers its sender burnt.
   */
  function Weight(e: SendEvent, denom: Bytes, escrowed: bool): nat {
    var port, channel := e.packet.sourcePort, e.packet.sourceChannel;
    if IsVoucher(port, channel, e.data.denom) then
      if !escrowed && Unprefixed(port, channel, e.data.denom) == denom then e.data.amount else 0
    else
      if escrowed && e.data.denom == denom then e.data.amount else 0
  }

  ghost function PendingTerms(sent: seq<SendEvent>, commitments: map<PacketKey, Digest>, acks: map<PacketKey, Digest>,
                              denom: Bytes, escrowed: bool): (terms: seq<nat>)
    ensures |terms| == |sent|
    ensures forall i | 0 <= i < |sent| ::
              terms[i] == if Unresolved(sent[i].packet, commitments, acks) then Weight(sent[i], denom, escrowed) else 0
  {
    seq(|sent|, i requires 0 <= i < |sent| =>
      if Unresolved(sent[i].packet, commitments, acks) then Weight(sent[i], denom, escrowed) else 0)
  }

  ghost function Pending(sent: seq<SendEvent>, commitments: map<PacketKey, Digest>, acks: map<PacketKey, Digest>,
                         denom: Bytes, escrowed: bool): nat
  {
    Sum(PendingTerms(sent, commitments, acks, denom, escrowed))
  }

  lemma PendingSame(sent: seq<SendEvent>, commitments: map<PacketKey, Digest>, acks: map<PacketKey, Digest>,
                    commitments': map<PacketKey, Digest>, acks': map<PacketKey, Digest>, denom: Bytes, escrowed: bool)
    requires forall i | 0 <= i < |sent| ::
               Unresolved(sent[i].packet, commitments', acks') == Unresolved(sent[i].packet, commitments, acks)
    ensures Pending(sent, commitments', acks', denom, escrowed) == Pending(sent, commitments, acks, denom, escrowed)
  {
    hide Unresolved, Weight;
    assert PendingTerms(sent, commitments', acks', denom, escrowed) == PendingTerms(sent, commitments, acks, denom, escrowed);
  }

  /** Resolving one packet takes away exactly what it carried. */
  lemma PendingResolved(sent: seq<SendEvent>, commitments: map<PacketKey, Digest>, acks: map<PacketKey, Digest>,
                        commitments': map<PacketKey, Digest>, acks': map<PacketKey, Digest>, k: nat, denom: Bytes,
                        escrowed: bool)
    requires k < |sent|
    requires forall i | 0 <= i < |sent| && i != k ::
               Unresolved(sent[i].packet, commitments', acks') == Unresolved(sent[i].packet, commitments, acks)
    requires Unresolved(sent[k].packet, commitments, acks) && !Unresolved(sent[k].packet, commitments', acks')
    ensures Pending(sent, commitments', acks', denom, escrowed)
         == Pending(sent, commitments, acks, denom, escrowed) - Weight(sent[k], denom, escrowed)
  {
    hide Unresolved, Weight;
    var terms := PendingTerms(sent, commitments, acks, denom, escrowed);
    SumUpdate(terms, k, 0);
    assert PendingTerms(sent, commitments', acks', denom, escrowed) == terms[k := 0];
  }

  /** A packet just sent is under way with all it carries. */
  lemma PendingSent(sent: seq<SendEvent>, commitments: map<PacketKey, Digest>, acks: map<PacketKey, Digest>,
                    commitments': map<PacketKey, Digest>, e: SendEvent, denom: Bytes, escrowed: bool)
    requires forall i | 0 <= i < |sent| ::
               Unresolved(sent[i].packet, commitments', acks) == Unresolved(sent[i].packet, commitments, acks)
    requires Unresolved(e.packet, commitments', acks)
    ensures Pending(sent + [e], commitments', acks, denom, escrowed)
         == Pending(sent, commitments, acks, denom, escrowed) + Weight(e, denom, escrowed)
  {
    hide Unresolved, Weight;
    var terms := PendingTerms(sent, commitments, acks, denom, escrowed);
    SumAppend(terms, Weight(e, denom, escrowed));
    assert PendingTerms(sent + [e], commitments', acks, denom, escrowed) == terms + [Weight(e, denom, escrowed)];
  }

  /** What one unresolved packet carries is part of what is under way. */
  lemma PendingTerm(sent: seq<SendEvent>, commitments: map<PacketKey, Digest>, acks: map<PacketKey, Digest>, k: nat,
                    denom: Bytes, escrowed: bool)
    requires k < |sent| && Unresolved(sent[k].packet, commitments, acks)
    ensures Weight(sent[k], denom, escrowed) <= Pending(sent, commitments, acks, denom, escrowed)
  {
    hide Unresolved, Weight;
    SumTerm(PendingTerms(sent, commitments, acks, denom, escrowed), k);
  }

  // ----- The ledger of a pair of chains -----

  ghost function Escrowed(c: Chain, denom: Bytes): nat {
    BalanceOf(c.bank, denom, c.app.address)
  }

  /** What `c` owes its peer in `denom`: vouchers the peer issued, and packets under way either way. */
  ghost function Owed(c: Chain, peer: Chain, denom: Bytes): nat {
    Vouchers(peer.bank, peer.channelLog, denom)
    + Pending(c.sent, c.host.store.packetCommitments, peer.host.store.acknowledgements, denom, true)
    + Pending(peer.sent, peer.host.store.packetCommitments, c.host.store.acknowledgements, denom, false)
  }

  /** The escrow account holds exactly what is owed and what it was paid directly. */
  ghost predicate Conserved(c: Chain, peer: Chain) {
    forall denom :: Escrowed(c, denom) == Owed(c, peer, denom) + At(c.direct, denom)
  }
}
