/**
 What can no longer happen: a packet that is late, or whose commitment cannot be proved, is
 received in no continuation, and since there is no step that gives its tokens back, they
 stay under way for ever.
 */
module Timeouts {
  import opened Prelude
  import opened Sums
  import opened IBCIdentifier
  import opened IBCTypes
  import opened HostSpec
  import opened BankSpec
  import opened TransferSpec
  import opened ChainSpec
  import opened World
  import opened ProtocolInvariant
  import opened HandshakeSteps
  import opened PacketSteps
  import opened Runs
  import opened Ledger
  import opened Payments
  import opened Conservation
  import opened MoneySteps
  import opened MoneyRuns
  import opened History
  import opened Books
  import opened Continuation
  import opened Theorems
  import AppMessages
  import ChannelSpec

  // ----- Late packets -----

  /** The block being built is past the packet's timeout, by number or by time. */
  predicate Late(p: Packet, c: Chain) {
    || (p.timeoutHeight.revisionHeight != 0 && |c.blocks| >= p.timeoutHeight.revisionHeight)
    || (p.timeoutTimestamp != 0 && c.now >= p.timeoutTimestamp)
  }

  /** No transaction of `c` can receive the packet. */
  predicate Unreceivable(p: Packet, c: Chain) {
    Late(p, c) || !c.host.lightClient.proves(MakePacketCommitment(p))
  }

  /** What an accepted packet was: in time, and proved. */
  lemma AcceptedInTime(c: Chain, msg: MsgPacketRecv)
    requires ChainSpec.RecvPacket(c, msg, CurrentBlock(c)).Ok?
    ensures !Unreceivable(msg.packet, c)
  {
    hide ModuleOwner, OnRecvPacket, AppMessages.Decode, ChannelSpec.OpenConnection, ChannelCapabilityPath;
    hide ChannelSpec.WriteAcknowledgement, MakePacketCommitment, PaidDirectly, ReceivedDenom;
    assert ChannelSpec.RecvPacket(c.host, msg, CurrentBlock(c)).Ok?;
  }

  /** Only receiving writes an acknowledgement. */
  lemma OthersKeepAcks(c: Chain, peer: Chain, action: Action)
    requires !action.RecvPacket? && Transact(c, peer, action).Ok?
    ensures Transact(c, peer, action).value.host.store.acknowledgements == c.host.store.acknowledgements
  {
    if Handshake(action) {
      hide Transact;
      HandshakeIsQuiet(c, peer, action);
    } else if Unshared(action) {
      hide Transact;
      UnsharedShape(c, peer, action);
    } else {
      hide ChainSpec.SendTransfer, ChainSpec.AcknowledgePacket;
      match action
      case SendTransfer(t) => SendShape(c, t);
      case AcknowledgePacket(msg) => AckShape(c, msg);
    }
  }

  lemma StillUnreceivable(c: Chain, peer: Chain, step: Step, n: nat, p: Packet)
    requires Together(c, peer) && Bounded(c, n) && n < TWO_64 - 2
    requires Unreceivable(p, c)
    ensures Unreceivable(p, Apply(c, peer, step))
  {
    hide Together, Bounded, Apply, Kept, MakePacketCommitment;
    ApplyKeeps(c, peer, step, n);
  }

  /** A step of the receiving chain does not receive it. */
  lemma NotReceivedNow(c: Chain, peer: Chain, step: Step, i: nat)
    requires Linked(c, peer) && i < |peer.sent| && Unreceivable(peer.sent[i].packet, c)
    requires DestinationPacketKey(peer.sent[i].packet) !in c.host.store.acknowledgements
    ensures DestinationPacketKey(peer.sent[i].packet) !in Apply(c, peer, step).host.store.acknowledgements
  {
    hide Transact, Linked, Unreceivable;
    if step.Submit? && Transact(c, peer, step.action).Ok? {
      if step.action.RecvPacket? {
        TransactRecv(c, peer, step.action.recv);
        NotThatPacket(c, peer, step.action.recv, i);
      } else {
        OthersKeepAcks(c, peer, step.action);
      }
    }
  }

  lemma TransactRecv(c: Chain, peer: Chain, msg: MsgPacketRecv)
    ensures Transact(c, peer, Action.RecvPacket(msg)) == ChainSpec.RecvPacket(c, msg, CurrentBlock(c))
  {
    hide ChainSpec.RecvPacket;
  }

  lemma NotThatPacket(c: Chain, peer: Chain, msg: MsgPacketRecv, i: nat)
    requires Linked(c, peer) && i < |peer.sent| && Unreceivable(peer.sent[i].packet, c)
    requires ChainSpec.RecvPacket(c, msg, CurrentBlock(c)).Ok?
    requires DestinationPacketKey(peer.sent[i].packet) !in c.host.store.acknowledgements
    ensures DestinationPacketKey(peer.sent[i].packet)
            !in ChainSpec.RecvPacket(c, msg, CurrentBlock(c)).value.host.store.acknowledgements
  {
    hide LocalInv, Links, ChainSpec.RecvPacket, Unreceivable, OnRecvPacket, AppMessages.Decode, ReceivedDenom, PaidDirectly;
    hide ChannelSpec.VerifyPacketCommitment, CurrentBlock, WasSent, Kept;
    AcceptedInTime(c, msg);
    RecvPacketStep(c, peer, msg, CurrentBlock(c));
    RecvShape(c, msg, CurrentBlock(c));
    LinkedSwap(c, peer);
    LoggedWasSent(peer, i);
    if DestinationPacketKey(msg.packet) == DestinationPacketKey(peer.sent[i].packet) {
      SameDestinationSamePacket(peer, c, msg.packet, peer.sent[i].packet);
    }
  }

  lemma LoggedWasSent(c: Chain, i: nat)
    requires i < |c.sent|
    ensures WasSent(c.sent, c.sent[i].packet)
  {
  }

  /** Sent here, unreceivable there, and not received. */
  ghost predicate Lost(w: World, onA: bool, i: nat, e: SendEvent) {
    var c, peer := Side(w, onA), Side(w, !onA);
    && i < |c.sent| && c.sent[i] == e
    && Unreceivable(e.packet, peer)
    && DestinationPacketKey(e.packet) !in peer.host.store.acknowledgements
  }

  lemma LostNext(w: World, step: Step, n: nat, onA: bool, i: nat, e: SendEvent)
    requires Sound(w, n) && n < TWO_64 - 2 && Lost(w, onA, i, e)
    ensures Lost(Next(w, step), onA, i, e)
  {
    hide Apply, Next, Unreceivable, LocalInv, Links, MoneyInv, OrderedInv, BookInv, BlocksInv, Bounded;
    var c, peer := Side(w, onA), Side(w, !onA);
    NextSides(w, step);
    SoundTogether(w, onA, n);
    SoundTogether(w, !onA, n);
    TogetherLinked(c, peer);
    TogetherLinked(peer, c);
    hide Sound, Together, Linked;
    if step.onA == onA {
      ApplySends(c, peer, step, n);
    } else {
      NotReceivedNow(peer, c, step, i);
      StillUnreceivable(peer, c, step, n, e.packet);
    }
  }

  lemma SoundTogether(w: World, onA: bool, n: nat)
    requires Sound(w, n)
    ensures Together(Side(w, onA), Side(w, !onA)) && Bounded(Side(w, onA), n)
  {
    hide LocalInv, Links, BlocksInv, Bounded, MoneyInv, OrderedInv, BookInv;
  }

  lemma TogetherLinked(c: Chain, peer: Chain)
    requires Together(c, peer)
    ensures Linked(c, peer)
  {
    hide LocalInv, Links, BlocksInv;
  }

  /** A chain's log of sent packets only grows. */
  lemma ApplySends(c: Chain, peer: Chain, step: Step, n: nat)
    requires Together(c, peer) && Bounded(c, n) && n < TWO_64 - 2
    ensures c.sent <= Apply(c, peer, step).sent
  {
    hide LocalInv, Links, BlocksInv, Apply, ConnectionsGrow, ChannelsGrow, AcksGrow, Bounded;
    ApplyKeeps(c, peer, step, n);
  }

  lemma {:induction false} LostForEver(w: World, more: seq<Step>, n: nat, onA: bool, i: nat, e: SendEvent)
    requires Sound(w, n) && n + |more| < TWO_64 - 1 && Lost(w, onA, i, e)
    ensures Lost(Steps(w, more), onA, i, e)
    decreases |more|
  {
    hide Sound, Next, Lost;
    if more != [] {
      LostForEver(w, more[..|more| - 1], n, onA, i, e);
      StepsSound(w, more[..|more| - 1], n);
      LostNext(Steps(w, more[..|more| - 1]), more[|more| - 1], n + |more| - 1, onA, i, e);
    }
  }

  /** The amount of a packet not received stays committed, unacknowledged and under way. */
  lemma UnreceivedUnderWay(c: Chain, peer: Chain, i: nat)
    requires Sides(c, peer) && i < |c.sent|
    requires DestinationPacketKey(c.sent[i].packet) !in peer.host.store.acknowledgements
    ensures var e := c.sent[i];
            && SourcePacketKey(e.packet) in c.host.store.packetCommitments
            && !IsAcknowledged(c.acknowledged, SourcePacketKey(e.packet))
            && e.data.amount <= Pending(c.sent, c.host.store.packetCommitments, peer.host.store.acknowledgements, Base(e), FromEscrow(e))
            && e.data.amount <= (if FromEscrow(e) then Escrowed(c, Base(e)) else Escrowed(peer, Base(e)))
  {
    hide LocalInv, Links, BankInv, Distinct, Supply, Vouchers, Pending, Base, FromEscrow, BalanceOf, OrderedInv, BookInv;
    var e := c.sent[i];
    CommittedUntilReceived(c, peer, i);
    Committed(c, SourcePacketKey(e.packet));
    WeightWithin(peer, c, i);
    assert Escrowed(c, Base(e)) == Owed(c, peer, Base(e)) + At(c.direct, Base(e));
    assert Escrowed(peer, Base(e)) == Owed(peer, c, Base(e)) + At(peer.direct, Base(e));
  }

  /**
   From the moment the receiving chain's block is past the timeout of a packet it has not
   received, or if the packet's commitment cannot be proved at all, the packet is received in
   no continuation: its commitment stays, it is never acknowledged or refunded, and its
   amount stays under way, held in escrow where its tokens are kept.
   */
  lemma LateIsStranded(setup: Setup, steps: seq<Step>, more: seq<Step>, onA: bool, i: nat)
    requires ShortRun(setup, steps + more)
    requires var c, peer := Side(Run(setup, steps), onA), Side(Run(setup, steps), !onA);
             && i < |c.sent| && Unreceivable(c.sent[i].packet, peer)
             && DestinationPacketKey(c.sent[i].packet) !in peer.host.store.acknowledgements
    ensures var e := Side(Run(setup, steps), onA).sent[i];
            var v := Run(setup, steps + more);
            var c, peer := Side(v, onA), Side(v, !onA);
            && DestinationPacketKey(e.packet) !in peer.host.store.acknowledgements
            && SourcePacketKey(e.packet) in c.host.store.packetCommitments
            && !IsAcknowledged(c.acknowledged, SourcePacketKey(e.packet))
            && e.data.amount <= Pending(c.sent, c.host.store.packetCommitments, peer.host.store.acknowledgements, Base(e), FromEscrow(e))
            && e.data.amount <= (if FromEscrow(e) then Escrowed(c, Base(e)) else Escrowed(peer, Base(e)))
  {
    hide Run, Sound, Steps, Unreceivable, Sides, Pending, Base, FromEscrow, Escrowed, IsAcknowledged;
    var w := Run(setup, steps);
    var e := Side(w, onA).sent[i];
    RunSound(setup, steps);
    RunContinues(setup, steps, more);
    LostForEver(w, more, |steps|, onA, i, e);
    RunSound(setup, steps + more);
    SideSound(Run(setup, steps + more), onA, |steps + more|);
    UnreceivedUnderWay(Side(Run(setup, steps + more), onA), Side(Run(setup, steps + more), !onA), i);
  }

  // ----- Acknowledgements that cannot arrive -----

  /** The chain has written `ack` for the packet. */
  predicate Answered(c: Chain, p: Packet, ack: Bytes) {
    && DestinationPacketKey(p) in c.host.store.acknowledgements
    && c.host.store.acknowledgements[DestinationPacketKey(p)] == AckDigest(ack)
  }

  /** No transaction of `c` can take `ack` for the packet: the channel is ordered, or it cannot be proved. */
  ghost predicate Unacknowledgeable(c: Chain, p: Packet, ack: Bytes) {
    && SourceKey(p) in c.host.store.channels
    && (c.host.store.channels[SourceKey(p)].ordering == ORDER_ORDERED || !c.host.lightClient.proves(AckDigest(ack)))
  }

  lemma AcknowledgedProved(c: Chain, msg: MsgPacketAcknowledgement)
    requires ChainSpec.AcknowledgePacket(c, msg).Ok?
    ensures c.host.lightClient.proves(AckDigest(msg.acknowledgement))
  {
    hide ModuleOwner, OnAcknowledgementPacket, ChannelSpec.OpenConnection, ChannelCapabilityPath, MakePacketCommitment;
    assert ChannelSpec.AcknowledgePacket(c.host, msg).Ok?;
  }

  /** Only acknowledging logs an acknowledgement. */
  lemma OthersKeepAcknowledged(c: Chain, peer: Chain, action: Action)
    requires !action.AcknowledgePacket? && Transact(c, peer, action).Ok?
    ensures Transact(c, peer, action).value.acknowledged == c.acknowledged
  {
    if Handshake(action) {
      hide Transact;
      HandshakeIsQuiet(c, peer, action);
    } else if Unshared(action) {
      hide Transact;
      UnsharedShape(c, peer, action);
    } else {
      hide ChainSpec.SendTransfer, ChainSpec.RecvPacket, CurrentBlock;
      match action
      case SendTransfer(t) => SendShape(c, t);
      case RecvPacket(msg) => RecvShape(c, msg, CurrentBlock(c));
    }
  }

  lemma NotThatAcknowledgement(c: Chain, peer: Chain, msg: MsgPacketAcknowledgement, i: nat, ack: Bytes)
    requires Linked(c, peer) && i < |c.sent|
    requires Unacknowledgeable(c, c.sent[i].packet, ack) && Answered(peer, c.sent[i].packet, ack)
    requires !IsAcknowledged(c.acknowledged, SourcePacketKey(c.sent[i].packet))
    requires ChainSpec.AcknowledgePacket(c, msg).Ok?
    ensures !IsAcknowledged(ChainSpec.AcknowledgePacket(c, msg).value.acknowledged, SourcePacketKey(c.sent[i].packet))
  {
    hide LocalInv, Links, ChainSpec.AcknowledgePacket, OnAcknowledgementPacket, WasSent, Kept;
    hide ChannelSpec.VerifyPacketAcknowledgement;
    var p := c.sent[i].packet;
    AcknowledgedProved(c, msg);
    AcknowledgePacketStep(c, peer, msg);
    AckShape(c, msg);
    AcknowledgedUnordered(c, peer, msg);
    LoggedWasSent(c, i);
    if SourcePacketKey(msg.packet) == SourcePacketKey(p) {
      SameSourceSamePacket(c, msg.packet, p);
    }
    LogPlusOther(c.acknowledged, AckEvent(msg.packet, msg.acknowledgement), SourcePacketKey(p));
  }

  lemma AcknowledgedUnordered(c: Chain, peer: Chain, msg: MsgPacketAcknowledgement)
    requires Linked(c, peer) && ChainSpec.AcknowledgePacket(c, msg).Ok?
    ensures SourceKey(msg.packet) in c.host.store.channels
    ensures c.host.store.channels[SourceKey(msg.packet)].ordering != ORDER_ORDERED
  {
    hide LocalInv, Links, ChainSpec.AcknowledgePacket, OnAcknowledgementPacket, WasSent, Kept;
    hide ChannelSpec.VerifyPacketAcknowledgement;
    AckShape(c, msg);
    AcknowledgePacketStep(c, peer, msg);
    SentBelowNext(c, msg.packet);
  }

  lemma SameSourceSamePacket(c: Chain, p: Packet, q: Packet)
    requires LocalInv(c) && WasSent(c.sent, p) && WasSent(c.sent, q)
    requires SourcePacketKey(p) == SourcePacketKey(q)
    ensures p == q
  {
    hide LocalInv, WellRouted, WellFormed;
    var i: nat :| i < |c.sent| && c.sent[i].packet == p;
    var j: nat :| j < |c.sent| && c.sent[j].packet == q;
    SentRouted(c, i);
  }

  lemma LogPlusOther(acknowledged: seq<AckEvent>, e: AckEvent, key: PacketKey)
    requires !IsAcknowledged(acknowledged, key) && SourcePacketKey(e.packet) != key
    ensures !IsAcknowledged(acknowledged + [e], key)
  {
    forall j: nat
      ensures !AcknowledgedAt(acknowledged + [e], j, key)
    {
      assert !AcknowledgedAt(acknowledged, j, key);
    }
  }

  /** Sent here, answered there, and never to be acknowledged. */
  ghost predicate Stuck(w: World, onA: bool, i: nat, e: SendEvent, ack: Bytes) {
    var c, peer := Side(w, onA), Side(w, !onA);
    && i < |c.sent| && c.sent[i] == e
    && Unacknowledgeable(c, e.packet, ack) && Answered(peer, e.packet, ack)
    && !IsAcknowledged(c.acknowledged, SourcePacketKey(e.packet))
  }

  lemma NotAcknowledgedNow(c: Chain, peer: Chain, step: Step, i: nat, ack: Bytes)
    requires Linked(c, peer) && i < |c.sent|
    requires Unacknowledgeable(c, c.sent[i].packet, ack) && Answered(peer, c.sent[i].packet, ack)
    requires !IsAcknowledged(c.acknowledged, SourcePacketKey(c.sent[i].packet))
    ensures !IsAcknowledged(Apply(c, peer, step).acknowledged, SourcePacketKey(c.sent[i].packet))
  {
    hide Transact, Linked, Unacknowledgeable, Answered, IsAcknowledged;
    if step.Submit? && Transact(c, peer, step.action).Ok? {
      if step.action.AcknowledgePacket? {
        TransactAck(c, peer, step.action.ack);
        NotThatAcknowledgement(c, peer, step.action.ack, i, ack);
      } else {
        OthersKeepAcknowledged(c, peer, step.action);
      }
    }
  }

  lemma TransactAck(c: Chain, peer: Chain, msg: MsgPacketAcknowledgement)
    ensures Transact(c, peer, Action.AcknowledgePacket(msg)) == ChainSpec.AcknowledgePacket(c, msg)
  {
    hide ChainSpec.AcknowledgePacket;
  }

  lemma StillUnacknowledgeable(c: Chain, peer: Chain, step: Step, n: nat, p: Packet, ack: Bytes)
    requires Together(c, peer) && Bounded(c, n) && n < TWO_64 - 2
    requires Unacknowledgeable(c, p, ack)
    ensures Unacknowledgeable(Apply(c, peer, step), p, ack)
  {
    hide Links, BlocksInv, Bounded, Apply, LocalInv, Grows;
    ApplyKeeps(c, peer, step, n);
    OrderingKept(c, Apply(c, peer, step), SourceKey(p));
  }

  lemma StillAnswered(c: Chain, peer: Chain, step: Step, n: nat, p: Packet, ack: Bytes)
    requires Together(c, peer) && Bounded(c, n) && n < TWO_64 - 2
    requires Answered(c, p, ack)
    ensures Answered(Apply(c, peer, step), p, ack)
  {
    hide LocalInv, Links, BlocksInv, Bounded, Apply, ConnectionsGrow, ChannelsGrow;
    ApplyKeeps(c, peer, step, n);
  }

  lemma StuckNext(w: World, step: Step, n: nat, onA: bool, i: nat, e: SendEvent, ack: Bytes)
    requires Sound(w, n) && n < TWO_64 - 2 && Stuck(w, onA, i, e, ack)
    ensures Stuck(Next(w, step), onA, i, e, ack)
  {
    hide Apply, Next, Unacknowledgeable, Answered, IsAcknowledged, Sound, Together, Linked, Bounded;
    var c, peer := Side(w, onA), Side(w, !onA);
    NextSides(w, step);
    SoundTogether(w, onA, n);
    SoundTogether(w, !onA, n);
    TogetherLinked(c, peer);
    if step.onA == onA {
      ApplySends(c, peer, step, n);
      NotAcknowledgedNow(c, peer, step, i, ack);
      StillUnacknowledgeable(c, peer, step, n, e.packet, ack);
    } else {
      StillAnswered(peer, c, step, n, e.packet, ack);
    }
  }

  lemma {:induction false} StuckForEver(w: World, more: seq<Step>, n: nat, onA: bool, i: nat, e: SendEvent, ack: Bytes)
    requires Sound(w, n) && n + |more| < TWO_64 - 1 && Stuck(w, onA, i, e, ack)
    ensures Stuck(Steps(w, more), onA, i, e, ack)
    decreases |more|
  {
    hide Sound, Next, Stuck;
    if more != [] {
      StuckForEver(w, more[..|more| - 1], n, onA, i, e, ack);
      StepsSound(w, more[..|more| - 1], n);
      StuckNext(Steps(w, more[..|more| - 1]), more[|more| - 1], n + |more| - 1, onA, i, e, ack);
    }
  }
}
