/**
 A whole round trip happens: tokens are deposited, sent, paid out in vouchers, all sent back, and
 paid out of escrow, to be withdrawn. Between trusting clients this is so for any amount, on a
 channel of either ordering.
 */
module RoundTrip {
  import opened Prelude
  import opened IBCIdentifier
  import opened IBCTypes
  import opened HostSpec
  import opened BankSpec
  import opened TransferSpec
  import opened AddressText
  import opened ChainSpec
  import opened World
  import opened ProtocolInvariant
  import opened Ledger
  import opened Conservation
  import opened MoneySteps
  import opened History
  import opened Books
  import opened Continuation
  import opened Completion
  import opened Theorems
  import opened HandshakeAcceptance
  import opened PacketAcceptance
  import opened BankAcceptance
  import opened ReturnTrip
  import opened Witness

  /** The whole of what was received, sent back. */
  function Whole(r: Remittance, key: ChannelKey): Transfer {
    Homeward(key, Denom(r), r.amount, r.receiver, r.sender)
  }

  lemma {:induction false} DecimalLength(n: nat)
    ensures |Decimal(n)| <= n / 10 + 1
  {
    if n >= 10 {
      DecimalLength(n / 10);
    }
  }

  /** The voucher's denomination fits a transaction. */
  lemma VoucherLength(c: Chain, key: ChannelKey, r: Remittance)
    requires LocalInv(c) && c.host.nextChannelSequence < TWO_64
    requires key in c.host.store.channels && key.portId == PORT
    ensures |Voucher(key, Denom(r))| < TWO_62
  {
    hide Denom, ConnectionsInv, ChannelsInv, EscrowsInv, SequencesInv, SentInv, CommittedInv, AcknowledgedInv;
    hide ReceivedInv, WrittenInv, Decimal;
    DenomLength(r);
    var k :| 0 <= k < |c.channelLog| && c.channelLog[k] == key;
    DecimalLength(k);
  }

  lemma DenomLength(r: Remittance)
    ensures |Denom(r)| <= 42
  {
    HexTextShape(r.token);
  }

  /** The receiver is an ordinary account. */
  predicate OrdinaryReceiver(setup: Setup, r: Remittance) {
    r.receiver != setup.b.app && r.receiver != ZERO_ADDRESS
  }

  lemma CanReturn(w: World, setup: Setup, r: Remittance, ordering: Order)
    requires PaidOut(w, setup, r, ordering) && ordering in {ORDER_UNORDERED, ORDER_ORDERED}
    requires Ordinary(setup, r) && OrdinaryReceiver(setup, r) && LocalInv(w.b) && w.b.host.nextChannelSequence < TWO_64
    ensures DestinationKey(w.a.sent[0].packet) in w.b.host.store.channels
    ensures var key := DestinationKey(w.a.sent[0].packet);
            var t := Whole(r, key);
            && HeldBy(w.b, w.a, t) && CanSend(w.b, t) && TakesNext(w.b, w.a, key)
            && BalanceOf(w.b.bank, t.denom, t.sender) == r.amount && BalanceOf(w.a.bank, Denom(r), r.sender) == 0
  {
    hide LocalInv, Denom, BalanceOf, Due, Working;
    VoucherLength(w.b, DestinationKey(w.a.sent[0].packet), r);
  }

  /** Everything is back where it was deposited, and can be withdrawn. */
  ghost predicate Restored(w: World, v: World, r: Remittance) {
    && |w.a.sent| == 1
    && BalanceOf(v.b.bank, Voucher(DestinationKey(w.a.sent[0].packet), Denom(r)), r.receiver) == 0
    && BalanceOf(v.a.bank, Denom(r), r.sender) == r.amount
    && ChainSpec.Withdraw(v.a, r.sender, r.token, r.amount, true).Ok?
  }

  /** The run `steps` pays out the transfer, and four more steps bring it back. */
  ghost predicate ThereAndBack(setup: Setup, steps: seq<Step>, more: seq<Step>, r: Remittance, ordering: Order) {
    && ShortRun(setup, steps + more) && PaidOut(Run(setup, steps), setup, r, ordering)
    && Restored(Run(setup, steps), Run(setup, steps + more), r)
  }

  lemma TokensReturn(setup: Setup, r: Remittance, ordering: Order)
    requires Trusted(setup) && Ordinary(setup, r) && OrdinaryReceiver(setup, r)
    requires ordering in {ORDER_UNORDERED, ORDER_ORDERED}
    ensures exists steps, more :: ThereAndBack(setup, steps, more, r, ordering)
  {
    hide Run, Leads, PaidOut, Ordinary, OrdinaryReceiver, HeldBy, CanSend, TakesNext, CameHome, Restored, Linked;
    hide MoneyInv, OrderedInv, BookInv, LocalInv;
    Remits(setup, r, ordering);
    var w :| Leads(Run(setup, []), w, 33) && PaidOut(w, setup, r, ordering);
    LeadsRun(setup, [], w, 33);
    var steps: seq<Step> :| |steps| == 33 && Run(setup, [] + steps) == w;
    assert [] + steps == steps;
    PaidParts(w, setup, r, ordering);
    AfterSide(setup, steps, false);
    AfterFacts(setup, steps, w.b, w.a);
    FactParts(w.b, w.a);
    CanReturn(w, setup, r, ordering);
    var key := DestinationKey(w.a.sent[0].packet);
    VouchersComeHome(setup, steps, false, key, Denom(r), Whole(r, key));
    var more :| |more| == 4 && CameHome(w, Run(setup, steps + more), false, Denom(r), Whole(r, key));
    Withdrawable(setup, steps, more, r, key);
    assert ThereAndBack(setup, steps, more, r, ordering);
  }

  lemma Withdrawable(setup: Setup, steps: seq<Step>, more: seq<Step>, r: Remittance, key: ChannelKey)
    requires ShortRun(setup, steps + more)
    requires var w, v := Run(setup, steps), Run(setup, steps + more);
             && |w.a.sent| == 1 && key == DestinationKey(w.a.sent[0].packet)
             && CameHome(w, v, false, Denom(r), Whole(r, key))
             && BalanceOf(w.b.bank, Voucher(key, Denom(r)), r.receiver) == r.amount && BalanceOf(w.a.bank, Denom(r), r.sender) == 0
    ensures Restored(Run(setup, steps), Run(setup, steps + more), r)
  {
    hide Run, BalanceOf, Voucher, ChainSpec.Withdraw, AddressToString, OnlyDiffers;
    AfterSide(setup, steps + more, true);
    var v := Run(setup, steps + more);
    WithdrawnExactly(setup, steps + more, v.a, v.b, r.sender, r.token, r.amount, true);
  }
}
