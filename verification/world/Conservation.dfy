/**
 Conservation across the two chains: in every denomination the escrow account holds exactly
 the peer's vouchers, what is under way, and what it was paid directly. Each lemma treats
 one kind of change to the ledgers.
 */
module Conservation {
  import opened Prelude
  import opened Sums
  import opened IBCIdentifier
  import opened IBCTypes
  import opened HostSpec
  import opened AppMessages
  import opened BankSpec
  import opened TransferSpec
  import opened AddressText
  import opened ChainSpec
  import opened Ledger
  import opened Payments

  // ----- What backs a denomination -----

  ghost predicate VoucherOf(log: seq<ChannelKey>, i: nat, denom: Bytes) {
    i < |log| && IsVoucher(log[i].portId, log[i].channelId, denom)
  }

  ghost predicate DepositOf(t: Address, denom: Bytes) {
    denom == AddressToString(t)
  }

  /**
   Deposits are covered token by token, with what was donated to spare, and everything else is
   a voucher of some channel.
   */
  ghost predicate BankInv(bank: BankState, held: map<Address, nat>, donated: map<Address, nat>, log: seq<ChannelKey>) {
    && (forall t: Address :: Supply(bank, AddressToString(t)) + At(donated, t) == At(held, t) < TWO_256)
    && (forall denom | Supply(bank, denom) > 0 ::
          (exists t: Address :: DepositOf(t, denom)) || (exists i: nat :: VoucherOf(log, i, denom)))
  }

  /** Both banks in order, and every denomination conserved in both directions. */
  ghost predicate MoneyInv(c: Chain, peer: Chain) {
    && BankInv(c.bank, c.erc20Held, c.donated, c.channelLog)
    && BankInv(peer.bank, peer.erc20Held, peer.donated, peer.channelLog)
    && Distinct(c.channelLog) && Distinct(peer.channelLog)
    && Conserved(c, peer) && Conserved(peer, c)
  }

  lemma VoucherWithinEscrow(c: Chain, peer: Chain, i: nat, x: Bytes)
    requires Conserved(peer, c) && i < |c.channelLog|
    ensures Supply(c.bank, Voucher(c.channelLog[i], x))
            + Pending(peer.sent, peer.host.store.packetCommitments, c.host.store.acknowledgements, x, true)
            + Pending(c.sent, c.host.store.packetCommitments, peer.host.store.acknowledgements, x, false)
            <= Escrowed(peer, x) <= Supply(peer.bank, x)
  {
    hide Supply, Voucher, BalanceOf, Pending;
    SumTerm(VoucherTerms(c.bank, c.channelLog, x), i);
    BalanceWithinSupply(peer.bank, x, peer.app.address);
  }

  /** No denomination's supply reaches 2^256, on either chain. */
  lemma {:induction false} SupplyBounded(c: Chain, peer: Chain, denom: Bytes)
    requires MoneyInv(c, peer)
    ensures Supply(c.bank, denom) < TWO_256
    decreases |denom|
  {
    hide Supply, AddressToString, Conserved, Distinct;
    if Supply(c.bank, denom) > 0 && !exists t: Address :: DepositOf(t, denom) {
      var i: nat :| VoucherOf(c.channelLog, i, denom);
      var key := c.channelLog[i];
      var x := Unprefixed(key.portId, key.channelId, denom);
      VoucherJoin(key, denom);
      SupplyBounded(peer, c, x);
      VoucherWithinEscrow(c, peer, i, x);
    }
  }

  /** A payment in vouchers for a packet under way fits below 2^256. */
  lemma VoucherFits(c: Chain, peer: Chain, i: nat, x: Bytes)
    requires MoneyInv(c, peer) && i < |c.channelLog|
    ensures Supply(c.bank, Voucher(c.channelLog[i], x))
            + Pending(peer.sent, peer.host.store.packetCommitments, c.host.store.acknowledgements, x, true)
            + Pending(c.sent, c.host.store.packetCommitments, peer.host.store.acknowledgements, x, false) < TWO_256
  {
    hide BankInv, Distinct, Supply, Voucher, Conserved, Pending, Escrowed;
    assert MoneyInv(peer, c);
    SupplyBounded(peer, c, x);
    VoucherWithinEscrow(c, peer, i, x);
  }

  // ----- Supplies -----

  lemma DepositIsNoVoucher(t: Address, key: ChannelKey, x: Bytes)
    ensures AddressToString(t) != Voucher(key, x)
  {
    AddressToStringSlashFree(t);
    assert Voucher(key, x)[|key.portId|] == SLASH;
  }

  lemma BankInvVoucherMoves(b: BankState, c: BankState, held: map<Address, nat>, donated: map<Address, nat>,
                            log: seq<ChannelKey>, k: nat, x: Bytes)
    requires BankInv(b, held, donated, log) && k < |log|
    requires forall z | z != Voucher(log[k], x) :: Supply(c, z) == Supply(b, z)
    ensures BankInv(c, held, donated, log)
  {
    hide Supply, AddressToString, Voucher;
    forall t: Address
      ensures Supply(c, AddressToString(t)) + At(donated, t) == At(held, t) < TWO_256
    {
      DepositIsNoVoucher(t, log[k], x);
    }
    forall denom | Supply(c, denom) > 0
      ensures (exists t: Address :: DepositOf(t, denom)) || (exists i: nat :: VoucherOf(log, i, denom))
    {
      if denom == Voucher(log[k], x) {
        VoucherSplit(log[k], x);
        assert VoucherOf(log, k, denom);
      } else {
        assert Supply(b, denom) > 0;
      }
    }
  }

  lemma DepositsMove(b: BankState, c: BankState, held: map<Address, nat>, donated: map<Address, nat>, t: Address, amount: nat)
    requires forall u: Address :: Supply(b, AddressToString(u)) + At(donated, u) == At(held, u) < TWO_256
    requires forall z | z != AddressToString(t) :: Supply(c, z) == Supply(b, z)
    requires Supply(c, AddressToString(t)) + At(donated, t) == amount < TWO_256
    ensures forall u: Address :: Supply(c, AddressToString(u)) + At(donated, u) == At(held[t := amount], u) < TWO_256
  {
    hide Supply, AddressToString;
    forall u: Address
      ensures Supply(c, AddressToString(u)) + At(donated, u) == At(held[t := amount], u) < TWO_256
    {
      if u != t && AddressToString(u) == AddressToString(t) {
        AddressToStringInjective(u, t);
      }
    }
  }

  lemma BankInvDepositMoves(b: BankState, c: BankState, held: map<Address, nat>, donated: map<Address, nat>,
                            log: seq<ChannelKey>, t: Address, amount: nat)
    requires BankInv(b, held, donated, log) && amount < TWO_256
    requires forall z | z != AddressToString(t) :: Supply(c, z) == Supply(b, z)
    requires Supply(c, AddressToString(t)) + At(donated, t) == amount
    ensures BankInv(c, held[t := amount], donated, log)
  {
    hide Supply, AddressToString, VoucherOf, At;
    DepositsMove(b, c, held, donated, t, amount);
    forall denom | Supply(c, denom) > 0
      ensures (exists u: Address :: DepositOf(u, denom)) || (exists i: nat :: VoucherOf(log, i, denom))
    {
      if denom == AddressToString(t) {
        assert DepositOf(t, denom);
      } else {
        assert Supply(b, denom) > 0;
      }
    }
  }

  lemma BankInvDonated(b: BankState, held: map<Address, nat>, donated: map<Address, nat>, log: seq<ChannelKey>, t: Address,
                       amount: nat)
    requires BankInv(b, held, donated, log) && At(held, t) + amount < TWO_256
    ensures BankInv(b, held[t := At(held, t) + amount], donated[t := At(donated, t) + amount], log)
  {
    hide Supply, AddressToString, VoucherOf;
  }

  lemma BankInvNewChannel(b: BankState, held: map<Address, nat>, donated: map<Address, nat>, log: seq<ChannelKey>,
                          key: ChannelKey)
    requires BankInv(b, held, donated, log) && Distinct(log) && SlashFreeKey(key) && key !in log
    ensures BankInv(b, held, donated, log + [key]) && Distinct(log + [key])
    ensures forall x :: Supply(b, Voucher(key, x)) == 0
  {
    hide Supply, AddressToString, Voucher, SlashFreeKey;
    forall denom | Supply(b, denom) > 0
      ensures (exists t: Address :: DepositOf(t, denom)) || (exists i: nat :: VoucherOf(log + [key], i, denom))
    {
      if !exists t: Address :: DepositOf(t, denom) {
        var i: nat :| VoucherOf(log, i, denom);
        assert VoucherOf(log + [key], i, denom);
      }
    }
    forall x
      ensures Supply(b, Voucher(key, x)) == 0
    {
      if Supply(b, Voucher(key, x)) > 0 {
        if t: Address :| DepositOf(t, Voucher(key, x)) {
          DepositIsNoVoucher(t, key, x);
        } else {
          var i: nat :| VoucherOf(log, i, Voucher(key, x));
          VoucherJoin(log[i], Voucher(key, x));
          VoucherInjective(key, x, log[i], Unprefixed(log[i].portId, log[i].channelId, Voucher(key, x)));
        }
      }
    }
  }

  // ----- The kinds of change -----

  ghost predicate SamePending(c: Chain, d: Chain, peer: Chain) {
    && d.sent == c.sent
    && (forall i | 0 <= i < |c.sent| ::
          Unresolved(c.sent[i].packet, d.host.store.packetCommitments, peer.host.store.acknowledgements)
          == Unresolved(c.sent[i].packet, c.host.store.packetCommitments, peer.host.store.acknowledgements))
    && (forall i | 0 <= i < |peer.sent| ::
          Unresolved(peer.sent[i].packet, peer.host.store.packetCommitments, d.host.store.acknowledgements)
          == Unresolved(peer.sent[i].packet, peer.host.store.packetCommitments, c.host.store.acknowledgements))
  }

  lemma PendingKept(c: Chain, d: Chain, peer: Chain, denom: Bytes, escrowed: bool)
    requires SamePending(c, d, peer)
    ensures Pending(d.sent, d.host.store.packetCommitments, peer.host.store.acknowledgements, denom, escrowed)
         == Pending(c.sent, c.host.store.packetCommitments, peer.host.store.acknowledgements, denom, escrowed)
    ensures Pending(peer.sent, peer.host.store.packetCommitments, d.host.store.acknowledgements, denom, escrowed)
         == Pending(peer.sent, peer.host.store.packetCommitments, c.host.store.acknowledgements, denom, escrowed)
  {
    var pc, pa := peer.host.store.packetCommitments, peer.host.store.acknowledgements;
    PendingSame(c.sent, c.host.store.packetCommitments, pa, d.host.store.packetCommitments, pa, denom, escrowed);
    PendingSame(peer.sent, pc, c.host.store.acknowledgements, pc, d.host.store.acknowledgements, denom, escrowed);
  }

  /** A payment within one chain: what reaches the application's account is recorded as direct. */
  lemma LocalPayment(c: Chain, d: Chain, peer: Chain)
    requires Conserved(c, peer) && Conserved(peer, c)
    requires SamePending(c, d, peer) && d.channelLog == c.channelLog
    requires forall i, x | 0 <= i < |c.channelLog| ::
               Supply(d.bank, Voucher(c.channelLog[i], x)) == Supply(c.bank, Voucher(c.channelLog[i], x))
    requires forall x :: Escrowed(d, x) - At(d.direct, x) == Escrowed(c, x) - At(c.direct, x)
    ensures Conserved(d, peer) && Conserved(peer, d)
  {
    hide Supply, Voucher, Escrowed, Vouchers, Pending, SamePending;
    forall x
      ensures Owed(d, peer, x) == Owed(c, peer, x) && Owed(peer, d, x) == Owed(peer, c, x)
    {
      PendingKept(c, d, peer, x, true);
      PendingKept(c, d, peer, x, false);
      VouchersSame(c.bank, d.bank, c.channelLog, x);
    }
    hide Owed;
    assert forall x :: Escrowed(peer, x) == Owed(peer, c, x) + At(peer.direct, x);
  }

  lemma NewChannelConserves(c: Chain, d: Chain, peer: Chain, key: ChannelKey)
    requires Conserved(c, peer) && Conserved(peer, c)
    requires SamePending(c, d, peer) && d.bank == c.bank && d.direct == c.direct && d.app.address == c.app.address
    requires d.channelLog == c.channelLog + [key]
    requires forall x :: Supply(c.bank, Voucher(key, x)) == 0
    ensures Conserved(d, peer) && Conserved(peer, d)
  {
    hide Supply, Voucher, Vouchers, Pending, SamePending;
    forall x
      ensures Owed(d, peer, x) == Owed(c, peer, x) && Owed(peer, d, x) == Owed(peer, c, x)
    {
      PendingKept(c, d, peer, x, true);
      PendingKept(c, d, peer, x, false);
      VouchersOfNewChannel(c.bank, c.channelLog, key, x);
    }
  }

  lemma SendConserves(c: Chain, d: Chain, peer: Chain, e: SendEvent, k: nat)
    requires Conserved(c, peer) && Conserved(peer, c) && Distinct(c.channelLog)
    requires k < |c.channelLog| && c.channelLog[k] == SourceKey(e.packet)
    requires d.app == c.app && d.channelLog == c.channelLog && d.direct == c.direct && d.sent == c.sent + [e]
    requires d.host.store.acknowledgements == c.host.store.acknowledgements
    requires forall i | 0 <= i < |c.sent| ::
               Unresolved(c.sent[i].packet, d.host.store.packetCommitments, peer.host.store.acknowledgements)
               == Unresolved(c.sent[i].packet, c.host.store.packetCommitments, peer.host.store.acknowledgements)
    requires Unresolved(e.packet, d.host.store.packetCommitments, peer.host.store.acknowledgements)
    requires var voucher := Voucher(SourceKey(e.packet), Base(e));
             && MovesOnly(c.bank, d.bank, c.app.address, Base(e), voucher)
             && Escrowed(d, Base(e)) == Escrowed(c, Base(e)) + Weight(e, Base(e), true)
             && Supply(d.bank, voucher) == Supply(c.bank, voucher) - Weight(e, Base(e), false)
    ensures Conserved(d, peer) && Conserved(peer, d)
  {
    hide Supply, Voucher, Vouchers, Pending, Unresolved, Weight, Base, Distinct, BalanceOf;
    var pa := peer.host.store.acknowledgements;
    forall x
      ensures Owed(d, peer, x) == Owed(c, peer, x) + Weight(e, x, true)
      ensures Owed(peer, d, x) == Owed(peer, c, x)
      ensures Escrowed(d, x) == Escrowed(c, x) + Weight(e, x, true)
    {
      PendingSent(c.sent, c.host.store.packetCommitments, pa, d.host.store.packetCommitments, e, x, true);
      PendingSent(c.sent, c.host.store.packetCommitments, pa, d.host.store.packetCommitments, e, x, false);
      VouchersChange(c.bank, d.bank, c.channelLog, k, Base(e), x);
      WeightOfBase(e, x, true);
      WeightOfBase(e, x, false);
    }
    hide Owed, Escrowed;
    ConservedMoves(c, d, peer, e, true);
  }

  lemma ConservedMoves(c: Chain, d: Chain, peer: Chain, e: SendEvent, escrowed: bool)
    requires Conserved(c, peer) && Conserved(peer, c)
    requires d.direct == c.direct && d.app.address == c.app.address
    requires forall x :: Owed(d, peer, x) == Owed(c, peer, x) + Weight(e, x, escrowed)
    requires forall x :: Owed(peer, d, x) == Owed(peer, c, x)
    requires forall x :: Escrowed(d, x) == Escrowed(c, x) + Weight(e, x, escrowed)
    ensures Conserved(d, peer) && Conserved(peer, d)
  {
    hide Owed, Escrowed, Weight;
  }

  /** The peer's packet `i` is paid out on `c`. */
  lemma PayConserves(c: Chain, d: Chain, peer: Chain, e: SendEvent, i: nat, k: nat)
    requires Conserved(c, peer) && Conserved(peer, c) && Distinct(c.channelLog)
    requires k < |c.channelLog| && c.channelLog[k] == DestinationKey(e.packet)
    requires i < |peer.sent| && peer.sent[i] == e
    requires d.app == c.app && d.channelLog == c.channelLog && d.sent == c.sent
    requires d.host.store.packetCommitments == c.host.store.packetCommitments
    requires forall j | 0 <= j < |peer.sent| && j != i ::
               Unresolved(peer.sent[j].packet, peer.host.store.packetCommitments, d.host.store.acknowledgements)
               == Unresolved(peer.sent[j].packet, peer.host.store.packetCommitments, c.host.store.acknowledgements)
    requires Unresolved(e.packet, peer.host.store.packetCommitments, c.host.store.acknowledgements)
    requires !Unresolved(e.packet, peer.host.store.packetCommitments, d.host.store.acknowledgements)
    requires var voucher := Voucher(DestinationKey(e.packet), Base(e));
             var denom := if FromEscrow(e) then voucher else Base(e);
             var toApp := if e.data.receiver == c.app.address then e.data.amount else 0;
             && MovesOnly(c.bank, d.bank, c.app.address, denom, voucher)
             && Supply(d.bank, voucher) == Supply(c.bank, voucher) + Weight(e, Base(e), true)
             && Escrowed(d, denom) == Escrowed(c, denom) - (if FromEscrow(e) then 0 else e.data.amount) + toApp
             && (forall x :: At(d.direct, x) == At(c.direct, x) + if x == denom then toApp else 0)
    ensures Conserved(d, peer) && Conserved(peer, d)
  {
    hide Supply, Voucher, Vouchers, Pending, Unresolved, Weight, Base, Distinct, BalanceOf, FromEscrow;
    var pc, ca, da := peer.host.store.packetCommitments, c.host.store.acknowledgements, d.host.store.acknowledgements;
    forall x
      ensures Owed(d, peer, x) == Owed(c, peer, x) - Weight(e, x, false)
      ensures Owed(peer, d, x) == Owed(peer, c, x)
      ensures Escrowed(d, x) - At(d.direct, x) == Escrowed(c, x) - At(c.direct, x) - Weight(e, x, false)
    {
      PendingResolved(peer.sent, pc, ca, pc, da, i, x, true);
      PendingResolved(peer.sent, pc, ca, pc, da, i, x, false);
      VouchersChange(c.bank, d.bank, c.channelLog, k, Base(e), x);
      WeightOfBase(e, x, true);
      WeightOfBase(e, x, false);
    }
    hide Owed, Escrowed;
    assert forall x :: Escrowed(peer, x) == Owed(peer, c, x) + At(peer.direct, x);
  }

  /** The packet `i` of `c` is refunded. */
  lemma RefundConserves(c: Chain, d: Chain, peer: Chain, e: SendEvent, i: nat, k: nat)
    requires Conserved(c, peer) && Conserved(peer, c) && Distinct(c.channelLog)
    requires k < |c.channelLog| && c.channelLog[k] == SourceKey(e.packet)
    requires i < |c.sent| && c.sent[i] == e
    requires d.app == c.app && d.channelLog == c.channelLog && d.sent == c.sent && d.direct == c.direct
    requires d.host.store.acknowledgements == c.host.store.acknowledgements
    requires forall j | 0 <= j < |c.sent| && j != i ::
               Unresolved(c.sent[j].packet, d.host.store.packetCommitments, peer.host.store.acknowledgements)
               == Unresolved(c.sent[j].packet, c.host.store.packetCommitments, peer.host.store.acknowledgements)
    requires Unresolved(e.packet, c.host.store.packetCommitments, peer.host.store.acknowledgements)
    requires !Unresolved(e.packet, d.host.store.packetCommitments, peer.host.store.acknowledgements)
    requires var voucher := Voucher(SourceKey(e.packet), Base(e));
             && MovesOnly(c.bank, d.bank, c.app.address, Base(e), voucher)
             && Escrowed(d, Base(e)) == Escrowed(c, Base(e)) - Weight(e, Base(e), true)
             && Supply(d.bank, voucher) == Supply(c.bank, voucher) + Weight(e, Base(e), false)
    ensures Conserved(d, peer) && Conserved(peer, d)
  {
    hide Supply, Voucher, Vouchers, Pending, Unresolved, Weight, Base, Distinct, BalanceOf;
    var cc, dc, pa := c.host.store.packetCommitments, d.host.store.packetCommitments, peer.host.store.acknowledgements;
    forall x
      ensures Owed(d, peer, x) == Owed(c, peer, x) - Weight(e, x, true)
      ensures Owed(peer, d, x) == Owed(peer, c, x)
      ensures Escrowed(d, x) == Escrowed(c, x) - Weight(e, x, true)
    {
      PendingResolved(c.sent, cc, pa, dc, pa, i, x, true);
      PendingResolved(c.sent, cc, pa, dc, pa, i, x, false);
      VouchersChange(c.bank, d.bank, c.channelLog, k, Base(e), x);
      WeightOfBase(e, x, true);
      WeightOfBase(e, x, false);
    }
    hide Owed, Escrowed;
    assert forall x :: Escrowed(peer, x) == Owed(peer, c, x) + At(peer.direct, x);
  }
}
