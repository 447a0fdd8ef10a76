/**
 Vouchers come home: whoever holds them can send them back in any amount up to the whole balance,
 and four steps later they are burnt and the receiver is paid from escrow.
 */
module ReturnTrip {
  import opened Prelude
  import opened IBCTypes
  import opened HostSpec
  import opened BankSpec
  import opened TransferSpec
  import opened ChainSpec
  import opened World
  import opened ProtocolInvariant
  import opened PacketSteps
  import opened Ledger
  import opened Payments
  import opened Conservation
  import opened MoneySteps
  import opened History
  import opened Books
  import opened Continuation
  import opened Theorems
  import opened Progress
  import opened Timeouts
  import opened Completion
  import opened HandshakeAcceptance
  import opened PacketAcceptance
  import AppMessages

  /** The transfer of vouchers back over the channel end they came in by, without a timeout. */
  function Homeward(key: ChannelKey, base: Bytes, amount: uint64, holder: Address, receiver: Address): Transfer {
    Transfer(holder, Voucher(key, base), amount, receiver, key.portId, key.channelId, 0)
  }

  /** Both are ordinary accounts, and the holder's balance covers the amount. */
  ghost predicate HeldBy(c: Chain, peer: Chain, t: Transfer) {
    && t.sender != c.app.address && t.sender != ZERO_ADDRESS
    && |t.receiver| == 20 && t.receiver != peer.app.address && t.receiver != ZERO_ADDRESS
    && |t.denom| < TWO_62 && BalanceOf(c.bank, t.denom, t.sender) >= t.amount
  }

  /** The other end takes what is sent next, and its client the next block. */
  ghost predicate TakesNext(c: Chain, peer: Chain, key: ChannelKey) {
    && key in c.host.store.channels
    && var other := CounterpartyKey(c.host.store.channels[key]);
    && AcceptsNext(peer, c, other)
    && (forall digest :: peer.host.lightClient.proves(digest))
    && match peer.host.store.channels[other].ordering
       case ORDER_UNORDERED => true
       case ORDER_ORDERED => SequenceAt(peer.host.nextSequenceRecvs, other) == SequenceAt(c.host.nextSequenceSends, key)
       case ORDER_NONE => false
  }

  /** The vouchers are burnt, and the tokens paid out of escrow. */
  ghost predicate CameHome(w: World, v: World, onA: bool, base: Bytes, t: Transfer) {
    var c, peer := Side(w, onA), Side(w, !onA);
    && BalanceOf(Side(v, onA).bank, t.denom, t.sender) == BalanceOf(c.bank, t.denom, t.sender) - t.amount
    && BalanceOf(Side(v, !onA).bank, base, t.receiver) == BalanceOf(peer.bank, base, t.receiver) + t.amount
    && BalanceOf(Side(v, !onA).bank, base, peer.app.address) == BalanceOf(peer.bank, base, peer.app.address) - t.amount
  }

  /** The first of the four steps. */
  lemma Departs(setup: Setup, steps: seq<Step>, onA: bool, key: ChannelKey, base: Bytes, t: Transfer)
    returns (v: World, e: SendEvent)
    requires ShortRun(setup, steps) && |steps| + 4 < TWO_64 - 1
    requires var w := Run(setup, steps);
             var c, peer := Side(w, onA), Side(w, !onA);
             && t == Homeward(key, base, t.amount, t.sender, t.receiver)
             && HeldBy(c, peer, t) && CanSend(c, t) && TakesNext(c, peer, key)
    ensures v == Run(setup, steps + [Submit(onA, Action.SendTransfer(t))])
    ensures var w := Run(setup, steps);
            var c, d := Side(w, onA), Side(v, onA);
            && Side(v, !onA) == Side(w, !onA)
            && ChainSpec.SendTransfer(c, t) == Ok(d)
            && key in c.host.store.channels
            && e == TransferEvent(t, SequenceAt(c.host.nextSequenceSends, key), c.host.store.channels[key])
            && d.sent == c.sent + [e] && d.blocks == c.blocks && !FromEscrow(e)
            && Moved(c.bank, d.bank, t.denom, Some(t.sender), None, t.amount)
  {
    hide HeldBy, CanSend, TakesNext, Run, Apply, ChainSpec.SendTransfer, Moved, AppMessages.Encode, TakeTokens;
    var w := Run(setup, steps);
    var c, peer := Side(w, onA), Side(w, !onA);
    var step := Submit(onA, Action.SendTransfer(t));
    AfterSide(setup, steps, onA);
    HeldParts(c, peer, t);
    TransferSentExactly(setup, steps, c, peer, t);
    SenderPays(setup, steps, c, peer, t);
    SendShape(c, t);
    RunNext(setup, steps, step);
    v := Run(setup, steps + [step]);
    NextSides(w, step);
    SendApplies(c, peer, onA, t);
    e := TransferEvent(t, SequenceAt(c.host.nextSequenceSends, key), c.host.store.channels[key]);
  }

  lemma AfterSide(setup: Setup, steps: seq<Step>, onA: bool)
    requires ShortRun(setup, steps)
    ensures var w := Run(setup, steps);
            After(setup, steps, Side(w, onA), Side(w, !onA))
  {
    hide Run;
  }

  lemma HeldParts(c: Chain, peer: Chain, t: Transfer)
    requires HeldBy(c, peer, t)
    ensures t.sender != c.app.address && t.sender != ZERO_ADDRESS
    ensures |t.denom| < TWO_62 && BalanceOf(c.bank, t.denom, t.sender) >= t.amount
  {
    hide BalanceOf;
  }

  lemma RunNext(setup: Setup, steps: seq<Step>, step: Step)
    ensures Run(setup, steps + [step]) == Next(Run(setup, steps), step)
  {
    hide Next;
    assert (steps + [step])[..|steps|] == steps;
  }

  lemma SendApplies(c: Chain, peer: Chain, onA: bool, t: Transfer)
    requires t.sender != c.app.address && t.sender != ZERO_ADDRESS && ChainSpec.SendTransfer(c, t).Ok?
    ensures Apply(c, peer, Submit(onA, Action.SendTransfer(t))) == ChainSpec.SendTransfer(c, t).value
  {
    hide ChainSpec.SendTransfer;
  }

  // ----- The other three steps -----

  /** What the other end is, and what it has to take. */
  lemma TakesParts(c: Chain, peer: Chain, key: ChannelKey)
    requires TakesNext(c, peer, key)
    ensures key in c.host.store.channels
    ensures var other := CounterpartyKey(c.host.store.channels[key]);
            && AcceptsNext(peer, c, other) && Ready(peer, other)
            && (forall digest :: peer.host.lightClient.proves(digest))
  {
    hide Ready;
  }

  lemma AwaitedThere(c: Chain, d: Chain, peer: Chain, key: ChannelKey, e: SendEvent)
    requires TakesNext(c, peer, key) && e.packet.sequence == SequenceAt(c.host.nextSequenceSends, key)
    requires DestinationKey(e.packet) == CounterpartyKey(c.host.store.channels[key])
    requires d.sent == c.sent + [e] && DestinationPacketKey(e.packet) !in peer.host.store.acknowledgements
    ensures Waiting(d, peer, |c.sent|)
  {
    hide Working, SequenceAt;
  }

  lemma NeverLate(p: Packet, c: Chain)
    requires p.timeoutHeight.revisionHeight == 0 && p.timeoutTimestamp == 0
    requires forall digest :: c.host.lightClient.proves(digest)
    ensures !Unreceivable(p, c)
  {
    hide MakePacketCommitment;
  }

  lemma Lands(setup: Setup, steps: seq<Step>, onA: bool, c: Chain, key: ChannelKey, e: SendEvent) returns (u: World)
    requires ShortRun(setup, steps) && |steps| + 3 < TWO_64 - 1
    requires var v := Run(setup, steps);
             var d, peer := Side(v, onA), Side(v, !onA);
             && Linked(c, peer) && TakesNext(c, peer, key) && d.sent == c.sent + [e] && d.blocks == c.blocks
             && e.packet.sequence == SequenceAt(c.host.nextSequenceSends, key)
             && DestinationKey(e.packet) == CounterpartyKey(c.host.store.channels[key])
             && e.packet.timeoutHeight.revisionHeight == 0 && e.packet.timeoutTimestamp == 0
             && e.data.receiver != ZERO_ADDRESS && !FromEscrow(e)
    ensures var v := Run(setup, steps);
            && Leads(v, u, 3) && Side(u, onA).bank == Side(v, onA).bank
            && Moved(Side(v, !onA).bank, Side(u, !onA).bank, Base(e), Some(Side(v, !onA).app.address), Some(e.data.receiver),
                     e.data.amount)
  {
    hide Run, Linked, TakesNext, Waiting, Unreceivable, Leads, OnRecvPacket, Moved, Base, FromEscrow, ReceivedDenom, Ready, Sound;
    hide StaysReady, MoneyInv, OrderedInv, BookInv;
    var v := Run(setup, steps);
    var d, peer := Side(v, onA), Side(v, !onA);
    AfterSide(setup, steps, onA);
    AfterSide(setup, steps, !onA);
    AfterRun(setup, steps, d, peer);
    NotYetReceived(c, d, peer, e);
    TakesParts(c, peer, key);
    AwaitedThere(c, d, peer, key, e);
    NeverLate(e.packet, peer);
    SameAccepts(peer, c, d, DestinationKey(e.packet));
    RunSound(setup, steps);
    Receipt(v, |steps|, onA, |c.sent|);
    u :| Leads(v, u, 3) && ReceivedBy(v, u, onA, |c.sent|);
    ReadyEnd(peer, DestinationKey(e.packet));
    PaymentNeverFallsShort(setup, steps, peer, d, |c.sent|);
    ReceivedFromBase(e);
  }

  lemma SameAccepts(c: Chain, peer: Chain, later: Chain, key: ChannelKey)
    requires AcceptsNext(c, peer, key) && later.blocks == peer.blocks
    ensures AcceptsNext(c, later, key)
  {
    hide Ready;
  }

  lemma ReadyEnd(c: Chain, key: ChannelKey)
    requires Ready(c, key)
    ensures key in c.host.store.channels
  {
    hide Working;
  }

  // ----- The theorem -----

  lemma BaseOfHomeward(key: ChannelKey, base: Bytes, e: SendEvent)
    requires SourceKey(e.packet) == key && e.data.denom == Voucher(key, base)
    ensures !FromEscrow(e) && Base(e) == base
  {
  }

  lemma Moves(w: World, v: World, u: World, onA: bool, base: Bytes, t: Transfer)
    requires Side(u, onA).bank == Side(v, onA).bank && HeldBy(Side(w, onA), Side(w, !onA), t)
    requires Moved(Side(w, onA).bank, Side(v, onA).bank, t.denom, Some(t.sender), None, t.amount)
    requires Moved(Side(w, !onA).bank, Side(u, !onA).bank, base, Some(Side(w, !onA).app.address), Some(t.receiver), t.amount)
    ensures CameHome(w, u, onA, base, t)
  {
    hide BalanceOf;
  }

  /**
   In any run: if a holder's vouchers cover the amount, the channel can be sent over, and the other
   end takes the next packet, then four more steps burn the vouchers and pay the receiver.
   */
  lemma VouchersComeHome(setup: Setup, steps: seq<Step>, onA: bool, key: ChannelKey, base: Bytes, t: Transfer)
    requires ShortRun(setup, steps) && |steps| + 4 < TWO_64 - 1
    requires var w := Run(setup, steps);
             var c, peer := Side(w, onA), Side(w, !onA);
             && t == Homeward(key, base, t.amount, t.sender, t.receiver)
             && HeldBy(c, peer, t) && CanSend(c, t) && TakesNext(c, peer, key)
    ensures exists more :: |more| == 4 && CameHome(Run(setup, steps), Run(setup, steps + more), onA, base, t)
  {
    hide Run, HeldBy, CanSend, TakesNext, Moved, CameHome, AppMessages.Encode, Linked, MoneyInv, OrderedInv, BookInv, Leads;
    hide ChainSpec.SendTransfer, FromEscrow, Base, SequenceAt, Voucher;
    var w := Run(setup, steps);
    AfterSide(setup, steps, onA);
    AfterRun(setup, steps, Side(w, onA), Side(w, !onA));
    var first := [Submit(onA, Action.SendTransfer(t))];
    var v, e := Departs(setup, steps, onA, key, base, t);
    ReceiverHeld(Side(w, onA), Side(w, !onA), t);
    BaseOfHomeward(key, base, e);
    var u := Lands(setup, steps + first, onA, Side(w, onA), key, e);
    Moves(w, v, u, onA, base, t);
    LeadsRun(setup, steps + first, u, 3);
    var rest :| |rest| == 3 && Run(setup, (steps + first) + rest) == u;
    assert (steps + first) + rest == steps + (first + rest);
    assert |first + rest| == 4;
  }

  lemma ReceiverHeld(c: Chain, peer: Chain, t: Transfer)
    requires HeldBy(c, peer, t)
    ensures |t.receiver| == 20 && t.receiver != ZERO_ADDRESS
  {
    hide BalanceOf;
  }
}
