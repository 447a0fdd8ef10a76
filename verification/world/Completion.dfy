/**
 When a packet can still be received and acknowledged. The relayer chooses transactions and
 the times of blocks, but neither the number of the block a transaction runs in nor what a
 light client accepts and proves; so each result says exactly what these have to be.
 */
module Completion {
  import opened Prelude
  import opened IBCTypes
  import opened HostSpec
  import opened TransferSpec
  import opened ChainSpec
  import opened World
  import opened ProtocolInvariant
  import opened PacketSteps
  import opened Ledger
  import opened Conservation
  import opened MoneySteps
  import opened History
  import opened Books
  import opened Continuation
  import opened Theorems
  import opened Progress
  import opened Timeouts
  import AppMessages
  import ChannelSpec
  import ClientSpec

  // ----- Open ends over working clients -----

  /** The channel end `key` of `c` is open, over a connection whose client works. */
  predicate Ready(c: Chain, key: ChannelKey) {
    && key in c.host.store.channels
    && var end := c.host.store.channels[key];
    && end.state == CHAN_OPEN && |end.connectionHops| == 1 && end.connectionHops[0] in c.host.store.connections
    && var connection := c.host.store.connections[end.connectionHops[0]];
       connection.counterparty.prefix != [] && Working(c, connection.clientId)
  }

  function Under(c: Chain, key: ChannelKey): ConnectionEnd
    requires Ready(c, key)
  {
    c.host.store.connections[c.host.store.channels[key].connectionHops[0]]
  }

  /** Its client accepts the next block of the other side. */
  predicate AcceptsNext(c: Chain, peer: Chain, key: ChannelKey) {
    Ready(c, key) && |peer.blocks| < TWO_64 && c.host.lightClient.accepts(Under(c, key).clientId, |peer.blocks|)
  }

  lemma ReadyKept(c: Chain, d: Chain, key: ChannelKey)
    requires Ready(c, key) && OnlyClients(c, d)
    ensures Ready(d, key) && Under(d, key) == Under(c, key)
    ensures d.host.lightClient == c.host.lightClient && d.blocks == c.blocks && d.now == c.now
    ensures d.host.store.packetCommitments == c.host.store.packetCommitments
    ensures d.host.store.acknowledgements == c.host.store.acknowledgements
    ensures d.host.store.channels == c.host.store.channels && d.host.nextSequenceRecvs == c.host.nextSequenceRecvs
    ensures d.sent == c.sent && d.acknowledged == c.acknowledged && d.bank == c.bank && d.app == c.app
    ensures d.host.nextSequenceSends == c.host.nextSequenceSends
  {
  }

  lemma CurrentKept(c: Chain, d: Chain, id: Bytes, height: uint64, state: ConsensusState)
    requires id in c.host.store.clientStates
    requires d.host.store.clientStates
          == c.host.store.clientStates[id := ClientSpec.Advance(c.host.store.clientStates[id], height)]
    requires d.host.store.consensusStates == c.host.store.consensusStates[ConsensusKey(id, height) := state]
    ensures Current(c, id) ==> Current(d, id)
  {
  }

  lemma VerifiesPacket(c: Chain, connection: ConnectionEnd, height: uint64, root: Store, p: Packet)
    requires Knows(c, connection.clientId, height, root) && connection.counterparty.prefix != []
    requires SourcePacketKey(p) in root.packetCommitments
    requires root.packetCommitments[SourcePacketKey(p)] == MakePacketCommitment(p)
    requires c.host.lightClient.proves(MakePacketCommitment(p))
    ensures ChannelSpec.VerifyPacketCommitment(c.host, connection, height, [0], p.sourcePort, p.sourceChannel, p.sequence,
                                               MakePacketCommitment(p))
  {
    hide MakePacketCommitment;
  }

  lemma VerifiesAck(c: Chain, connection: ConnectionEnd, height: uint64, root: Store, p: Packet, ack: Bytes)
    requires Knows(c, connection.clientId, height, root) && connection.counterparty.prefix != []
    requires DestinationPacketKey(p) in root.acknowledgements
    requires root.acknowledgements[DestinationPacketKey(p)] == AckDigest(ack)
    requires c.host.lightClient.proves(AckDigest(ack))
    ensures ChannelSpec.VerifyPacketAcknowledgement(c.host, connection, height, [0], p.destinationPort, p.destinationChannel,
                                                    p.sequence, ack)
  {
  }

  // ----- Receiving -----

  /** The packet `i` of `c` waits for `peer`, whose end is ready and takes it next. */
  predicate Waiting(c: Chain, peer: Chain, i: nat) {
    && i < |c.sent|
    && var p := c.sent[i].packet;
    && DestinationPacketKey(p) !in peer.host.store.acknowledgements
    && Ready(peer, DestinationKey(p)) && Expected(peer, p)
  }

  lemma ReceivableNow(c: Chain, peer: Chain, i: nat, height: uint64)
    requires Sides(c, peer) && Waiting(c, peer, i) && !Unreceivable(c.sent[i].packet, peer)
    requires Knows(peer, Under(peer, DestinationKey(c.sent[i].packet)).clientId, height, c.host.store)
    ensures ChainSpec.RecvPacket(peer, MsgPacketRecv(c.sent[i].packet, [0], height), CurrentBlock(peer)).Ok?
  {
    hide MakePacketCommitment, Knows, ChainSpec.RecvPacket, ChannelSpec.VerifyPacketCommitment, Working, Expected;
    hide LocalInv, Links, MoneyInv, OrderedInv, BookInv;
    var p := c.sent[i].packet;
    CommittedUntilReceived(c, peer, i);
    CommittedIsSent(c, i);
    VerifiesPacket(peer, Under(peer, DestinationKey(p)), height, c.host.store, p);
    LinkedSwap(c, peer);
    MoneySwap(c, peer);
    ReceivedIf(peer, c, i, MsgPacketRecv(p, [0], height), CurrentBlock(peer));
  }

  lemma MoneySwap(c: Chain, peer: Chain)
    requires MoneyInv(c, peer)
    ensures MoneyInv(peer, c)
  {
    hide BankInv, Distinct, Conserved;
  }

  /** The application's answer to the packet is written, and what it paid is paid. */
  ghost predicate Settled(c: Chain, d: Chain, p: Packet) {
    && OnRecvPacket(c.bank, c.app, p).Ok?
    && var (bank, ack) := OnRecvPacket(c.bank, c.app, p).value;
    && d.bank == bank && Answered(d, p, ack) && ack in {ACK_SUCCESS, ACK_FAILURE}
  }

  /** Ends, clients and what was sent stay as they are. */
  ghost predicate SameEnds(c: Chain, d: Chain) {
    && d.blocks == c.blocks && d.sent == c.sent && d.host.nextSequenceSends == c.host.nextSequenceSends
    && d.host.store.channels == c.host.store.channels && d.host.store.connections == c.host.store.connections
    && d.host.store.clientStates == c.host.store.clientStates
    && d.host.store.consensusStates == c.host.store.consensusStates
    && d.host.clientTypes == c.host.clientTypes && d.host.clientImpls == c.host.clientImpls
    && d.host.lightClient == c.host.lightClient && d.app == c.app
  }

  lemma SameReady(c: Chain, d: Chain, key: ChannelKey)
    requires Ready(c, key) && SameEnds(c, d)
    ensures Ready(d, key) && Under(d, key) == Under(c, key)
    ensures Current(c, Under(c, key).clientId) ==> Current(d, Under(d, key).clientId)
  {
  }

  /** Receiving settles the packet, and changes neither channels nor clients. */
  lemma ReceivedWrites(c: Chain, msg: MsgPacketRecv, env: Env)
    requires ChainSpec.RecvPacket(c, msg, env).Ok?
    ensures var d := ChainSpec.RecvPacket(c, msg, env).value;
            Settled(c, d, msg.packet) && SameEnds(c, d)
  {
    hide ChainSpec.RecvPacket, OnRecvPacket, AppMessages.Decode, ReceivedDenom, PaidDirectly;
    hide ChannelSpec.VerifyPacketCommitment;
    RecvShape(c, msg, env);
  }

  /** An end that is ready here stays so, and a client with a state at its latest height keeps one. */
  ghost predicate StaysReady(c: Chain, d: Chain, key: ChannelKey) {
    && Ready(c, key) && Ready(d, key) && Under(d, key) == Under(c, key)
    && (Current(c, Under(c, key).clientId) ==> Current(d, Under(d, key).clientId))
  }

  /** A packet received three steps later, the sending chain having only sealed a block. */
  ghost predicate ReceivedBy(w: World, v: World, onA: bool, i: nat) {
    var c, peer := Side(w, onA), Side(w, !onA);
    var d := Side(v, !onA);
    && Side(v, onA) == SealBlock(c, 0) && i < |c.sent|
    && Settled(peer, d, c.sent[i].packet)
    && d.blocks == peer.blocks && d.host.store.channels == peer.host.store.channels
    && d.host.lightClient == peer.host.lightClient
    && d.sent == peer.sent && d.host.nextSequenceSends == peer.host.nextSequenceSends && d.app == peer.app
    && StaysReady(peer, d, DestinationKey(c.sent[i].packet))
  }

  /** The sending chain seals a block, the receiver's client is shown it, and the packet is delivered. */
  lemma Receipt(w: World, n: nat, onA: bool, i: nat)
    requires Sound(w, n) && n + 3 < TWO_64 - 1
    requires var c, peer := Side(w, onA), Side(w, !onA);
             && Waiting(c, peer, i) && !Unreceivable(c.sent[i].packet, peer)
             && AcceptsNext(peer, c, DestinationKey(c.sent[i].packet))
    ensures exists v :: Leads(w, v, 3) && ReceivedBy(w, v, onA, i)
  {
    hide Sound, Leads, Next, Apply, Knows, OnlyClients, Working, Unreceivable, Expected, Settled, Sides, Under, Ready;
    hide OnRecvPacket, MakePacketCommitment, ChainSpec.RecvPacket, CurrentBlock;
    var c, peer := Side(w, onA), Side(w, !onA);
    var p := c.sent[i].packet;
    var key := DestinationKey(p);
    AcceptsParts(peer, c, key);
    var w2 := Refresh(w, !onA, Under(peer, key).clientId);
    Refreshed(w, !onA, Under(peer, key).clientId);
    var peer2 := Side(w2, !onA);
    ReadyKept(peer, peer2, key);
    ShownReady(peer, peer2, key, |c.blocks|, SealBlock(c, 0).blocks[|c.blocks|]);
    SameReceivable(p, peer, peer2);
    SameExpected(peer, peer2, p);
    LeadsSound(w, w2, 2, n);
    SideSound(w2, onA, n + 2);
    ReceivableNow(Side(w2, onA), peer2, i, |c.blocks|);
    var deliver := Submit(!onA, Action.RecvPacket(MsgPacketRecv(p, [0], |c.blocks|)));
    LeadsNext(w, w2, 2, deliver);
    NextSides(w2, deliver);
    DeliveredNow(peer2, Side(w2, onA), deliver, MsgPacketRecv(p, [0], |c.blocks|));
    SettledLikewise(peer, peer2, Side(Next(w2, deliver), !onA), p);
    StillReady(peer, peer2, Side(Next(w2, deliver), !onA), key);
    assert ReceivedBy(w, Next(w2, deliver), onA, i);
  }

  lemma ShownReady(c: Chain, d: Chain, key: ChannelKey, height: uint64, state: ConsensusState)
    requires Ready(c, key) && Ready(d, key) && Under(d, key) == Under(c, key)
    requires var id := Under(c, key).clientId;
             && d.host.store.consensusStates == c.host.store.consensusStates[ConsensusKey(id, height) := state]
             && Working(c, id)
             && d.host.store.clientStates
                == c.host.store.clientStates[id := ClientSpec.Advance(c.host.store.clientStates[id], height)]
    ensures StaysReady(c, d, key)
  {
    hide Ready, Under, Current;
    CurrentKept(c, d, Under(c, key).clientId, height, state);
  }

  lemma StillReady(c: Chain, d: Chain, e: Chain, key: ChannelKey)
    requires StaysReady(c, d, key) && SameEnds(d, e)
    ensures StaysReady(c, e, key)
  {
    hide Ready, Under, Current, SameEnds;
    SameReady(d, e, key);
  }

  lemma SettledLikewise(c: Chain, c2: Chain, d: Chain, p: Packet)
    requires Settled(c2, d, p) && c2.bank == c.bank && c2.app == c.app
    ensures Settled(c, d, p)
  {
    hide OnRecvPacket, Answered;
  }

  lemma AcceptsParts(c: Chain, peer: Chain, key: ChannelKey)
    requires AcceptsNext(c, peer, key)
    ensures Ready(c, key) && Working(c, Under(c, key).clientId)
    ensures |peer.blocks| < TWO_64 && c.host.lightClient.accepts(Under(c, key).clientId, |peer.blocks|)
  {
    hide Working;
  }

  lemma SameReceivable(p: Packet, c: Chain, d: Chain)
    requires !Unreceivable(p, c) && d.blocks == c.blocks && d.now == c.now && d.host.lightClient == c.host.lightClient
    ensures !Unreceivable(p, d)
  {
    hide MakePacketCommitment;
  }

  lemma SameExpected(c: Chain, d: Chain, p: Packet)
    requires DestinationKey(p) in c.host.store.channels && Expected(c, p)
    requires d.host.store.channels == c.host.store.channels && d.host.nextSequenceRecvs == c.host.nextSequenceRecvs
    ensures DestinationKey(p) in d.host.store.channels && Expected(d, p)
  {
  }

  lemma DeliveredNow(c: Chain, peer: Chain, step: Step, msg: MsgPacketRecv)
    requires step.Submit? && step.action == Action.RecvPacket(msg)
    requires ChainSpec.RecvPacket(c, msg, CurrentBlock(c)).Ok?
    ensures var d := Apply(c, peer, step);
            Settled(c, d, msg.packet) && SameEnds(c, d)
  {
    hide ChainSpec.RecvPacket, Settled, CurrentBlock;
    ReceivedWrites(c, msg, CurrentBlock(c));
  }

  /** The packet is received in the run. */
  ghost predicate ReceivedIn(setup: Setup, steps: seq<Step>, onA: bool, p: Packet) {
    ShortRun(setup, steps) && DestinationPacketKey(p) in Side(Run(setup, steps), !onA).host.store.acknowledgements
  }

  /**
   A packet that waits for an end ready to take it, with a client that accepts the sender's
   next block, is received in some continuation if and only if the receiving chain's current
   block is before both of its timeouts and its commitment can be proved. Three more steps
   then do.
   */
  lemma ReceivableExactly(setup: Setup, steps: seq<Step>, onA: bool, i: nat)
    requires ShortRun(setup, steps) && |steps| + 3 < TWO_64 - 1
    requires var c, peer := Side(Run(setup, steps), onA), Side(Run(setup, steps), !onA);
             Waiting(c, peer, i) && AcceptsNext(peer, c, DestinationKey(c.sent[i].packet))
    ensures var c, peer := Side(Run(setup, steps), onA), Side(Run(setup, steps), !onA);
            var p := c.sent[i].packet;
            (exists more :: ReceivedIn(setup, steps + more, onA, p))
            <==>
            && (p.timeoutHeight.revisionHeight == 0 || |peer.blocks| < p.timeoutHeight.revisionHeight)
            && (p.timeoutTimestamp == 0 || peer.now < p.timeoutTimestamp)
            && peer.host.lightClient.proves(MakePacketCommitment(p))
  {
    hide Run, Steps, Sound, Leads, Waiting, AcceptsNext, Settled, MakePacketCommitment;
    var w := Run(setup, steps);
    var c, peer := Side(w, onA), Side(w, !onA);
    WaitingParts(c, peer, i);
    var e := c.sent[i];
    RunSound(setup, steps);
    if Unreceivable(e.packet, peer) {
      forall more
        ensures !ReceivedIn(setup, steps + more, onA, e.packet)
      {
        NeverReceived(setup, steps, more, onA, i);
      }
    } else {
      Receipt(w, |steps|, onA, i);
      var v :| Leads(w, v, 3) && ReceivedBy(w, v, onA, i);
      LeadsRun(setup, steps, v, 3);
      var more :| |more| == 3 && Run(setup, steps + more) == v;
      SettledParts(peer, Side(v, !onA), e.packet);
      assert ReceivedIn(setup, steps + more, onA, e.packet);
    }
  }

  lemma WaitingParts(c: Chain, peer: Chain, i: nat)
    requires Waiting(c, peer, i)
    ensures i < |c.sent| && DestinationPacketKey(c.sent[i].packet) !in peer.host.store.acknowledgements
  {
    hide Ready, Expected;
  }

  lemma SettledParts(c: Chain, d: Chain, p: Packet)
    requires Settled(c, d, p)
    ensures DestinationPacketKey(p) in d.host.store.acknowledgements
    ensures Answered(d, p, ACK_SUCCESS) || Answered(d, p, ACK_FAILURE)
  {
    hide OnRecvPacket;
  }

  lemma NeverReceived(setup: Setup, steps: seq<Step>, more: seq<Step>, onA: bool, i: nat)
    requires ShortRun(setup, steps)
    requires var c, peer := Side(Run(setup, steps), onA), Side(Run(setup, steps), !onA);
             && i < |c.sent| && Unreceivable(c.sent[i].packet, peer)
             && DestinationPacketKey(c.sent[i].packet) !in peer.host.store.acknowledgements
    ensures !ReceivedIn(setup, steps + more, onA, Side(Run(setup, steps), onA).sent[i].packet)
  {
    hide Run, Unreceivable, MakePacketCommitment;
    if ShortRun(setup, steps + more) {
      LateIsStranded(setup, steps, more, onA, i);
    }
  }

  // ----- Acknowledging -----

  /** Packet `i` of `c` is answered by `peer`, still committed, and the end of `c` is ready. */
  predicate Due(c: Chain, peer: Chain, i: nat, ack: Bytes) {
    && i < |c.sent|
    && var p := c.sent[i].packet;
    && SourcePacketKey(p) in c.host.store.packetCommitments
    && Answered(peer, p, ack)
    && Ready(c, SourceKey(p))
  }

  lemma AcknowledgeableNow(c: Chain, peer: Chain, i: nat, height: uint64, ack: Bytes)
    requires Sides(c, peer) && Due(c, peer, i, ack)
    requires Knows(c, Under(c, SourceKey(c.sent[i].packet)).clientId, height, peer.host.store)
    requires c.host.lightClient.proves(AckDigest(ack))
    ensures ChainSpec.AcknowledgePacket(c, MsgPacketAcknowledgement(c.sent[i].packet, ack, [0], height)).Ok?
            == (c.host.store.channels[SourceKey(c.sent[i].packet)].ordering != ORDER_ORDERED)
  {
    hide Knows, ChainSpec.AcknowledgePacket, ChannelSpec.VerifyPacketAcknowledgement, Working;
    hide Linked, MoneyInv, OrderedInv, BookInv;
    var p := c.sent[i].packet;
    VerifiesAck(c, Under(c, SourceKey(p)), height, peer.host.store, p, ack);
    AcknowledgedIf(c, peer, i, MsgPacketAcknowledgement(p, ack, [0], height));
  }

  lemma AcknowledgedNow(c: Chain, peer: Chain, step: Step, msg: MsgPacketAcknowledgement)
    requires step.Submit? && step.action == Action.AcknowledgePacket(msg) && ChainSpec.AcknowledgePacket(c, msg).Ok?
    ensures IsAcknowledged(Apply(c, peer, step).acknowledged, SourcePacketKey(msg.packet))
  {
    hide ChainSpec.AcknowledgePacket, OnAcknowledgementPacket, ChannelSpec.VerifyPacketAcknowledgement;
    AckShape(c, msg);
    var d := ChainSpec.AcknowledgePacket(c, msg).value;
    assert AcknowledgedAt(d.acknowledged, |c.acknowledged|, SourcePacketKey(msg.packet));
  }

  /** The sender's client knows the answer at `height`, all else being as it was. */
  ghost predicate Informs(c: Chain, d: Chain, peer: Chain, i: nat, ack: Bytes, height: nat) {
    && Due(d, peer, i, ack)
    && d.sent == c.sent && d.host.lightClient == c.host.lightClient && d.host.store.channels == c.host.store.channels
    && height < TWO_64 && Knows(d, Under(d, SourceKey(d.sent[i].packet)).clientId, height, peer.host.store)
  }

  /** Shown the receiver's latest state, the sender's client knows the answer. */
  lemma Informed(w: World, n: nat, onA: bool, i: nat, ack: Bytes)
    requires Sound(w, n) && n + 3 < TWO_64 - 1
    requires var c, peer := Side(w, onA), Side(w, !onA);
             Due(c, peer, i, ack) && AcceptsNext(c, peer, SourceKey(c.sent[i].packet))
    ensures exists v :: Leads(w, v, 2) && Sound(v, n + 2)
                        && Informs(Side(w, onA), Side(v, onA), Side(v, !onA), i, ack, |Side(w, !onA).blocks|)
  {
    hide Sound, Leads, Next, Apply, Knows, OnlyClients, Working, Answered, Sides, Under, Ready;
    var c, peer := Side(w, onA), Side(w, !onA);
    var key := SourceKey(c.sent[i].packet);
    AcceptsParts(c, peer, key);
    var v := Refresh(w, onA, Under(c, key).clientId);
    Refreshed(w, onA, Under(c, key).clientId);
    ReadyKept(c, Side(v, onA), key);
    LeadsSound(w, v, 2, n);
    SealKeepsAnswer(peer, c.sent[i].packet, ack);
    assert Informs(c, Side(v, onA), Side(v, !onA), i, ack, |peer.blocks|);
  }

  lemma SealKeepsAnswer(c: Chain, p: Packet, ack: Bytes)
    requires Answered(c, p, ack)
    ensures Answered(SealBlock(c, 0), p, ack)
  {
  }

  /** The packet is acknowledged in the run. */
  ghost predicate AcknowledgedIn(setup: Setup, steps: seq<Step>, onA: bool, p: Packet) {
    ShortRun(setup, steps) && IsAcknowledged(Side(Run(setup, steps), onA).acknowledged, SourcePacketKey(p))
  }

  /** The receiver seals a block, the sender's client is shown it, and the acknowledgement is delivered. */
  lemma Acknowledgement(w: World, n: nat, onA: bool, i: nat, ack: Bytes)
    requires Sound(w, n) && n + 3 < TWO_64 - 1
    requires var c, peer := Side(w, onA), Side(w, !onA);
             && Due(c, peer, i, ack) && AcceptsNext(c, peer, SourceKey(c.sent[i].packet))
             && !Unacknowledgeable(c, c.sent[i].packet, ack)
    ensures var p := Side(w, onA).sent[i].packet;
            exists v :: Leads(w, v, 3) && IsAcknowledged(Side(v, onA).acknowledged, SourcePacketKey(p))
  {
    hide Sound, Leads, Next, Apply, Knows, Sides, Under, Due, AcceptsNext, Refresh, IsAcknowledged, Ready;
    var c, peer := Side(w, onA), Side(w, !onA);
    DueParts(c, peer, i, ack);
    var p := c.sent[i].packet;
    Informed(w, n, onA, i, ack);
    var v :| Leads(w, v, 2) && Sound(v, n + 2) && Informs(c, Side(v, onA), Side(v, !onA), i, ack, |peer.blocks|);
    var d := Side(v, onA);
    SideSound(v, onA, n + 2);
    AcknowledgeableNow(d, Side(v, !onA), i, |peer.blocks|, ack);
    var deliver := Submit(onA, Action.AcknowledgePacket(MsgPacketAcknowledgement(p, ack, [0], |peer.blocks|)));
    LeadsNext(w, v, 2, deliver);
    NextSides(v, deliver);
    AcknowledgedNow(d, Side(v, !onA), deliver, MsgPacketAcknowledgement(p, ack, [0], |peer.blocks|));
  }

  lemma DueParts(c: Chain, peer: Chain, i: nat, ack: Bytes)
    requires Due(c, peer, i, ack)
    ensures i < |c.sent| && SourceKey(c.sent[i].packet) in c.host.store.channels
    ensures SourcePacketKey(c.sent[i].packet) in c.host.store.packetCommitments && Answered(peer, c.sent[i].packet, ack)
    ensures Ready(c, SourceKey(c.sent[i].packet))
  {
    hide Working, Answered;
  }

  /**
   A packet that is answered and still committed, over an end with a client that accepts the
   receiver's next block, is acknowledged in some continuation if and only if the channel is
   not ordered and the acknowledgement can be proved. Three more steps then do.
   */
  lemma AcknowledgeableExactly(setup: Setup, steps: seq<Step>, onA: bool, i: nat, ack: Bytes)
    requires ShortRun(setup, steps) && |steps| + 3 < TWO_64 - 1
    requires var c, peer := Side(Run(setup, steps), onA), Side(Run(setup, steps), !onA);
             Due(c, peer, i, ack) && AcceptsNext(c, peer, SourceKey(c.sent[i].packet))
    ensures var c := Side(Run(setup, steps), onA);
            var p := c.sent[i].packet;
            (exists more :: AcknowledgedIn(setup, steps + more, onA, p))
            <==> c.host.store.channels[SourceKey(p)].ordering != ORDER_ORDERED && c.host.lightClient.proves(AckDigest(ack))
  {
    hide Run, Steps, Sound, Leads, Due, AcceptsNext, Answered, Ready, IsAcknowledged;
    var w := Run(setup, steps);
    var c, peer := Side(w, onA), Side(w, !onA);
    DueParts(c, peer, i, ack);
    var p := c.sent[i].packet;
    RunSound(setup, steps);
    if Unacknowledgeable(c, p, ack) {
      forall more
        ensures !AcknowledgedIn(setup, steps + more, onA, p)
      {
        NeverAcknowledged(setup, steps, more, onA, i, ack);
      }
    } else {
      Acknowledgement(w, |steps|, onA, i, ack);
      var v :| Leads(w, v, 3) && IsAcknowledged(Side(v, onA).acknowledged, SourcePacketKey(p));
      LeadsRun(setup, steps, v, 3);
      var more :| |more| == 3 && Run(setup, steps + more) == v;
      assert AcknowledgedIn(setup, steps + more, onA, p);
    }
  }

  lemma NeverAcknowledged(setup: Setup, steps: seq<Step>, more: seq<Step>, onA: bool, i: nat, ack: Bytes)
    requires ShortRun(setup, steps)
    requires var c, peer := Side(Run(setup, steps), onA), Side(Run(setup, steps), !onA);
             Due(c, peer, i, ack) && Unacknowledgeable(c, c.sent[i].packet, ack)
    ensures !AcknowledgedIn(setup, steps + more, onA, Side(Run(setup, steps), onA).sent[i].packet)
  {
    hide Run, Steps, Sound, Unacknowledgeable, Answered, Ready, IsAcknowledged, Sides;
    var w := Run(setup, steps);
    var c, peer := Side(w, onA), Side(w, !onA);
    if ShortRun(setup, steps + more) {
      RunSound(setup, steps);
      SideSound(w, onA, |steps|);
      StillCommitted(c, peer, i);
      RunContinues(setup, steps, more);
      StuckForEver(w, more, |steps|, onA, i, c.sent[i], ack);
    }
  }

  lemma StillCommitted(c: Chain, peer: Chain, i: nat)
    requires Sides(c, peer) && i < |c.sent| && SourcePacketKey(c.sent[i].packet) in c.host.store.packetCommitments
    ensures !IsAcknowledged(c.acknowledged, SourcePacketKey(c.sent[i].packet))
  {
    hide LocalInv, Links, MoneyInv, OrderedInv, BookInv, IsAcknowledged;
    Committed(c, SourcePacketKey(c.sent[i].packet));
  }

  // ----- From sending to acknowledging -----

  /**
   A packet over an unordered channel, in time and provable, whose two possible
   acknowledgements are provable, is received and acknowledged after six more steps, if each
   client accepts the other side's next block.
   */
  lemma DeliveryCompletes(setup: Setup, steps: seq<Step>, onA: bool, i: nat)
    requires ShortRun(setup, steps) && |steps| + 6 < TWO_64 - 1
    requires var c, peer := Side(Run(setup, steps), onA), Side(Run(setup, steps), !onA);
             && Waiting(c, peer, i) && !Unreceivable(c.sent[i].packet, peer)
             && AcceptsNext(peer, c, DestinationKey(c.sent[i].packet)) && AcceptsNext(c, peer, SourceKey(c.sent[i].packet))
             && c.host.store.channels[SourceKey(c.sent[i].packet)].ordering != ORDER_ORDERED
             && c.host.lightClient.proves(AckDigest(ACK_SUCCESS)) && c.host.lightClient.proves(AckDigest(ACK_FAILURE))
    ensures var p := Side(Run(setup, steps), onA).sent[i].packet;
            exists more :: |more| == 6 && AcknowledgedIn(setup, steps + more, onA, p)
  {
    hide Run, Steps, Sound, Leads, Waiting, Answered, Settled, IsAcknowledged, Unreceivable, Ready, Under, Sides;
    var w := Run(setup, steps);
    var c, peer := Side(w, onA), Side(w, !onA);
    WaitingParts(c, peer, i);
    var p := c.sent[i].packet;
    RunSound(setup, steps);
    Receipt(w, |steps|, onA, i);
    var v :| Leads(w, v, 3) && ReceivedBy(w, v, onA, i);
    SettledParts(peer, Side(v, !onA), p);
    var ack := if Answered(Side(v, !onA), p, ACK_SUCCESS) then ACK_SUCCESS else ACK_FAILURE;
    SideSound(w, onA, |steps|);
    WaitingCommitted(c, peer, i);
    SealedReady(c, SourceKey(p));
    LeadsSound(w, v, 3, |steps|);
    Acknowledgement(v, |steps| + 3, onA, i, ack);
    var u :| Leads(v, u, 3) && IsAcknowledged(Side(u, onA).acknowledged, SourcePacketKey(p));
    LeadsJoin(w, v, u, 3, 3);
    LeadsRun(setup, steps, u, 6);
    var more :| |more| == 6 && Run(setup, steps + more) == u;
    assert AcknowledgedIn(setup, steps + more, onA, p);
  }

  lemma WaitingCommitted(c: Chain, peer: Chain, i: nat)
    requires Sides(c, peer) && Waiting(c, peer, i)
    ensures SourcePacketKey(c.sent[i].packet) in c.host.store.packetCommitments
  {
    hide LocalInv, Links, MoneyInv, OrderedInv, BookInv, Ready, Expected;
    CommittedUntilReceived(c, peer, i);
  }

  /** Sealing a block changes no end and no client. */
  lemma SealedReady(c: Chain, key: ChannelKey)
    requires Ready(c, key)
    ensures Ready(SealBlock(c, 0), key) && Under(SealBlock(c, 0), key) == Under(c, key)
    ensures SealBlock(c, 0).host == c.host && SealBlock(c, 0).sent == c.sent
  {
  }
}
