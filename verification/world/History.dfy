/** What a run never takes back, and the order in which ordered channels accept packets. */
module History {
  import opened Prelude
  import opened IBCIdentifier
  import opened IBCTypes
  import opened HostSpec
  import opened BankSpec
  import opened TransferSpec
  import opened ChainSpec
  import opened World
  import opened ProtocolInvariant
  import opened HandshakeSteps
  import opened PacketSteps
  import opened Runs
  import opened Conservation
  import opened MoneySteps
  import opened MoneyRuns
  import AppMessages
  import ClientSpec
  import ConnectionSpec
  import ChannelSpec

  // ----- What stays -----

  /** Open ends never change, written acknowledgements stay, and the logs only grow. */
  ghost predicate Extends(c: Chain, d: Chain) {
    && (forall id | id in c.host.store.connections && c.host.store.connections[id].state == CONN_OPEN ::
          id in d.host.store.connections && d.host.store.connections[id] == c.host.store.connections[id])
    && (forall key | key in c.host.store.channels && c.host.store.channels[key].state == CHAN_OPEN ::
          key in d.host.store.channels && d.host.store.channels[key] == c.host.store.channels[key])
    && AcksGrow(c.host.store.acknowledgements, d.host.store.acknowledgements)
    && c.sent <= d.sent && c.received <= d.received && c.acknowledged <= d.acknowledged
  }

  lemma LogsGrow(c: Chain, peer: Chain, action: Action)
    requires Transact(c, peer, action).Ok?
    ensures var d := Transact(c, peer, action).value;
            c.received <= d.received && c.acknowledged <= d.acknowledged && |d.received| <= |c.received| + 1
  {
    hide ChainSpec.ConnectionOpenInit, ChainSpec.ConnectionOpenTry, ChainSpec.ConnectionOpenAck, SlashFree;
    hide ChainSpec.ConnectionOpenConfirm, ChainSpec.ChannelOpenInit, ChainSpec.ChannelOpenTry, BlockAt;
    hide ChainSpec.ChannelOpenAck, ChainSpec.ChannelOpenConfirm, ChainSpec.CreateClient, ChainSpec.UpdateClient;
    hide ChainSpec.SendTransfer, ChainSpec.RecvPacket, ChainSpec.AcknowledgePacket;
    if Handshake(action) {
      HandshakeIsQuiet(c, peer, action);
    } else {
      match action
      case SendTransfer(t) => SendShape(c, t);
      case RecvPacket(msg) => RecvShape(c, msg, CurrentBlock(c));
      case AcknowledgePacket(msg) => AckShape(c, msg);
      case _ =>
    }
  }

  lemma GrowsExtends(c: Chain, d: Chain)
    requires LocalInv(c) && Grows(c, d)
    requires c.received <= d.received && c.acknowledged <= d.acknowledged
    ensures Extends(c, d)
  {
    hide EscrowsInv, SequencesInv, SentInv, CommittedInv, AcknowledgedInv, ReceivedInv, WrittenInv, ChannelLogInv;
    hide ConnectionEvolves, ChannelEvolves, ConnectionId;
  }

  lemma ApplyExtends(c: Chain, peer: Chain, step: Step)
    requires Together(c, peer) && Room(c)
    ensures Extends(c, Apply(c, peer, step))
  {
    hide Transact, LocalInv, Links, BlocksInv, Grows, AcksGrow, Room;
    AcksGrowRefl(c.host.store.acknowledgements);
    match step
    case Seal(_, _) =>
    case Submit(_, action) =>
      if Transact(c, peer, action).Ok? {
        TransactKeeps(c, peer, action);
        LogsGrow(c, peer, action);
        GrowsExtends(c, Transact(c, peer, action).value);
      }
  }

  lemma AcksGrowRefl(acks: map<PacketKey, Digest>)
    ensures AcksGrow(acks, acks)
  {
  }

  // ----- The order of acceptance -----

  /** The sequences accepted at one channel end, in order. */
  function AcceptedOn(received: seq<AckEvent>, key: ChannelKey): seq<uint64> {
    if received == [] then []
    else
      var last := received[|received| - 1].packet;
      AcceptedOn(received[..|received| - 1], key) + if DestinationKey(last) == key then [last.sequence] else []
  }

  predicate CountsUp(s: seq<uint64>) {
    forall i | 0 <= i < |s| :: s[i] == i + 1
  }

  ghost predicate OrderInv(received: seq<AckEvent>, recvs: map<ChannelKey, uint64>, ends: Channels) {
    && recvs.Keys == ends.Keys
    && (forall key | key in ends && ends[key].ordering == ORDER_ORDERED ::
          && CountsUp(AcceptedOn(received, key))
          && recvs[key] == |AcceptedOn(received, key)| + 1)
  }

  lemma {:induction false} AcceptedNowhere(received: seq<AckEvent>, key: ChannelKey)
    requires forall i | 0 <= i < |received| :: DestinationKey(received[i].packet) != key
    ensures AcceptedOn(received, key) == []
  {
    if received != [] {
      AcceptedNowhere(received[..|received| - 1], key);
    }
  }

  lemma {:induction false} AcceptedAtMost(received: seq<AckEvent>, key: ChannelKey)
    ensures |AcceptedOn(received, key)| <= |received|
  {
    if received != [] {
      AcceptedAtMost(received[..|received| - 1], key);
    }
  }

  /** The sequences and the channels change only by new channels, which start at 1. */
  ghost predicate RecvsKeep(c: Chain, d: Chain) {
    || (d.host.nextSequenceRecvs == c.host.nextSequenceRecvs && d.host.store.channels.Keys == c.host.store.channels.Keys)
    || (exists key :: && d.channelLog == c.channelLog + [key]
                      && d.host.nextSequenceRecvs == c.host.nextSequenceRecvs[key := 1]
                      && d.host.store.channels.Keys == c.host.store.channels.Keys + {key})
  }

  lemma NewChannelRecvs(c: Chain)
    ensures forall msg | ChainSpec.ChannelOpenInit(c, msg).Ok? :: RecvsKeep(c, ChainSpec.ChannelOpenInit(c, msg).value)
    ensures forall msg | ChainSpec.ChannelOpenTry(c, msg).Ok? :: RecvsKeep(c, ChainSpec.ChannelOpenTry(c, msg).value)
  {
    hide ChannelId, VerifyMembership, ChannelSpec.HopConnection, ChannelSpec.GetCounterpartyHops, ChannelCapabilityPath;
  }

  lemma OpenChannelRecvs(c: Chain)
    ensures forall msg | ChainSpec.ChannelOpenAck(c, msg).Ok? :: RecvsKeep(c, ChainSpec.ChannelOpenAck(c, msg).value)
    ensures forall msg | ChainSpec.ChannelOpenConfirm(c, msg).Ok? :: RecvsKeep(c, ChainSpec.ChannelOpenConfirm(c, msg).value)
  {
    hide VerifyMembership, ChannelSpec.OpenConnection, ChannelSpec.GetCounterpartyHops, ModuleOwner;
  }

  lemma ConnectionRecvs(c: Chain)
    ensures forall msg :: RecvsKeep(c, ChainSpec.ConnectionOpenInit(c, msg))
    ensures forall msg | ChainSpec.ConnectionOpenTry(c, msg).Ok? :: RecvsKeep(c, ChainSpec.ConnectionOpenTry(c, msg).value)
    ensures forall msg | ChainSpec.ConnectionOpenAck(c, msg).Ok? :: RecvsKeep(c, ChainSpec.ConnectionOpenAck(c, msg).value)
    ensures forall msg | ChainSpec.ConnectionOpenConfirm(c, msg).Ok? ::
              RecvsKeep(c, ChainSpec.ConnectionOpenConfirm(c, msg).value)
  {
    hide ConnectionId, VerifyMembership, HostSpec.GetConnection, ConnectionSpec.GetVersions;
  }

  lemma ClientsKeepRecvs(c: Chain, peer: Chain, action: Action)
    requires ClientOrConnection(action) && Transact(c, peer, action).Ok?
    ensures RecvsKeep(c, Transact(c, peer, action).value)
  {
    hide ChainSpec.ConnectionOpenInit, ChainSpec.ConnectionOpenTry, ChainSpec.ConnectionOpenAck, BlockAt, RecvsKeep;
    hide ChainSpec.ConnectionOpenConfirm, ChainSpec.CreateClient, ChainSpec.UpdateClient;
    if action.CreateClient? || action.UpdateClient? {
      BlockHeight(peer, action.height);
    }
    ClientRecvs(c);
    ConnectionRecvs(c);
  }

  lemma ClientRecvs(c: Chain)
    ensures forall t, h, client, block | ChainSpec.CreateClient(c, t, h, client, block).Ok? ::
              RecvsKeep(c, ChainSpec.CreateClient(c, t, h, client, block).value)
    ensures forall id, h, block | ChainSpec.UpdateClient(c, id, h, block).Ok? ::
              RecvsKeep(c, ChainSpec.UpdateClient(c, id, h, block).value)
  {
    hide ClientId, HasClientImpl;
  }

  lemma ChannelsKeepRecvs(c: Chain, peer: Chain, action: Action)
    requires action.ChannelOpenInit? || action.ChannelOpenTry? || action.ChannelOpenAck? || action.ChannelOpenConfirm?
    requires Transact(c, peer, action).Ok?
    ensures RecvsKeep(c, Transact(c, peer, action).value)
  {
    hide ChainSpec.ChannelOpenInit, ChainSpec.ChannelOpenTry, ChainSpec.ChannelOpenAck, ChainSpec.ChannelOpenConfirm;
    hide RecvsKeep, SlashFree;
    NewChannelRecvs(c);
    OpenChannelRecvs(c);
  }

  lemma PacketsKeepRecvs(c: Chain, peer: Chain, action: Action)
    requires (action.SendTransfer? || action.AcknowledgePacket?) && Transact(c, peer, action).Ok?
    ensures RecvsKeep(c, Transact(c, peer, action).value) && Transact(c, peer, action).value.received == c.received
  {
    hide ChainSpec.SendTransfer, ChainSpec.AcknowledgePacket, RecvsKeep;
    match action
    case SendTransfer(t) => SendShape(c, t); SameRecvs(c, Transact(c, peer, action).value);
    case AcknowledgePacket(msg) => AckShape(c, msg); SameRecvs(c, Transact(c, peer, action).value);
  }

  lemma OthersKeepRecvs(c: Chain, peer: Chain, action: Action)
    requires !action.RecvPacket? && Transact(c, peer, action).Ok?
    ensures RecvsKeep(c, Transact(c, peer, action).value)
    ensures Transact(c, peer, action).value.received == c.received
  {
    hide RecvsKeep, Quiet, Transact;
    var d := Transact(c, peer, action).value;
    if Unshared(action) {
      UnsharedShape(c, peer, action);
      SameRecvs(c, d);
    } else if action.SendTransfer? || action.AcknowledgePacket? {
      PacketsKeepRecvs(c, peer, action);
    } else {
      HandshakeIsQuiet(c, peer, action);
      QuietReceived(c, d);
      if ClientOrConnection(action) {
        ClientsKeepRecvs(c, peer, action);
      } else {
        ChannelsKeepRecvs(c, peer, action);
      }
    }
  }

  lemma QuietReceived(c: Chain, d: Chain)
    requires Quiet(c, d)
    ensures d.received == c.received
  {
  }

  lemma SameRecvs(c: Chain, d: Chain)
    requires d.host.nextSequenceRecvs == c.host.nextSequenceRecvs && d.host.store.channels == c.host.store.channels
    ensures RecvsKeep(c, d)
  {
  }

  /** No end ever changes its ordering. */
  lemma OrderingKept(c: Chain, d: Chain, key: ChannelKey)
    requires LocalInv(c) && LocalInv(d) && Grows(c, d) && key in c.host.store.channels
    ensures key in d.host.store.channels
    ensures d.host.store.channels[key].ordering == c.host.store.channels[key].ordering
  {
    hide ConnectionsInv, EscrowsInv, SequencesInv, SentInv, CommittedInv, AcknowledgedInv, ReceivedInv, WrittenInv;
    hide ChannelLogInv, ConnectionsGrow, AcksGrow;
    assert ChannelEvolves(c.channelOrigins[key], c.host.store.channels[key]);
    assert ChannelEvolves(d.channelOrigins[key], d.host.store.channels[key]);
  }

  lemma NothingReceivedOn(c: Chain, key: ChannelKey)
    requires LocalInv(c) && key !in c.host.store.channels
    ensures AcceptedOn(c.received, key) == []
  {
    hide ConnectionsInv, ChannelsInv, EscrowsInv, SequencesInv, SentInv, CommittedInv, AcknowledgedInv, WrittenInv;
    hide ChannelLogInv;
    AcceptedNowhere(c.received, key);
  }

  lemma LoggedChannel(c: Chain, key: ChannelKey)
    requires LocalInv(c)
    ensures key in c.host.store.channels <==> key in c.channelLog
  {
    hide ConnectionsInv, ChannelsInv, EscrowsInv, SequencesInv, SentInv, CommittedInv, AcknowledgedInv, WrittenInv;
    hide ReceivedInv, ChannelId, SlashFree;
  }

  lemma OrderKept(c: Chain, d: Chain)
    requires LocalInv(c) && LocalInv(d) && Grows(c, d)
    requires OrderInv(c.received, c.host.nextSequenceRecvs, c.host.store.channels)
    requires RecvsKeep(c, d) && d.received == c.received
    ensures OrderInv(d.received, d.host.nextSequenceRecvs, d.host.store.channels)
  {
    hide LocalInv, Grows, AcceptedOn, CountsUp;
    var ends, more := c.host.store.channels, d.host.store.channels;
    forall key | key in more && more[key].ordering == ORDER_ORDERED
      ensures CountsUp(AcceptedOn(d.received, key)) && d.host.nextSequenceRecvs[key] == |AcceptedOn(d.received, key)| + 1
    {
      if key in ends {
        OrderingKept(c, d, key);
        assert d.host.nextSequenceRecvs[key] == c.host.nextSequenceRecvs[key] by { OldRecvs(c, d, key); }
      } else {
        NothingReceivedOn(c, key);
        CountsUpEmpty();
      }
    }
  }

  lemma CountsUpEmpty()
    ensures CountsUp([])
  {
  }

  lemma OldRecvs(c: Chain, d: Chain, key: ChannelKey)
    requires LocalInv(c) && LocalInv(d) && RecvsKeep(c, d)
    requires key in c.host.store.channels && key in c.host.nextSequenceRecvs
    ensures key in d.host.nextSequenceRecvs && d.host.nextSequenceRecvs[key] == c.host.nextSequenceRecvs[key]
  {
    hide LocalInv;
    LoggedChannel(c, key);
    LogOf(d);
    if d.host.nextSequenceRecvs != c.host.nextSequenceRecvs {
      var newKey :| d.channelLog == c.channelLog + [newKey] && d.host.nextSequenceRecvs == c.host.nextSequenceRecvs[newKey := 1];
      assert d.channelLog[|c.channelLog|] == newKey;
      assert forall i | 0 <= i < |c.channelLog| :: c.channelLog[i] == d.channelLog[i] != newKey;
    }
  }

  lemma OrderReceived(c: Chain, msg: MsgPacketRecv, env: Env)
    requires LocalInv(c) && |c.received| < TWO_64 - 2
    requires OrderInv(c.received, c.host.nextSequenceRecvs, c.host.store.channels)
    requires ChainSpec.RecvPacket(c, msg, env).Ok?
    ensures var d := ChainSpec.RecvPacket(c, msg, env).value;
            OrderInv(d.received, d.host.nextSequenceRecvs, d.host.store.channels)
  {
    hide LocalInv, ChainSpec.RecvPacket, CountsUp, ReceivedDenom, PaidDirectly, OnRecvPacket, AppMessages.Decode;
    hide ChannelSpec.VerifyPacketCommitment, MakePacketCommitment;
    RecvShape(c, msg, env);
    var d := ChainSpec.RecvPacket(c, msg, env).value;
    var at := DestinationKey(msg.packet);
    assert d.received[..|d.received| - 1] == c.received;
    AcceptedAtMost(c.received, at);
    forall key | key in d.host.store.channels && d.host.store.channels[key].ordering == ORDER_ORDERED
      ensures CountsUp(AcceptedOn(d.received, key)) && d.host.nextSequenceRecvs[key] == |AcceptedOn(d.received, key)| + 1
    {
      if key == at {
        assert AcceptedOn(d.received, key) == AcceptedOn(c.received, key) + [msg.packet.sequence];
        CountsUpNext(AcceptedOn(c.received, key), msg.packet.sequence);
      } else {
        assert AcceptedOn(d.received, key) == AcceptedOn(c.received, key);
      }
    }
  }

  lemma CountsUpNext(s: seq<uint64>, n: uint64)
    requires CountsUp(s) && n == |s| + 1
    ensures CountsUp(s + [n])
  {
  }

  // ----- Runs -----

  ghost predicate OrderedInv(c: Chain) {
    OrderInv(c.received, c.host.nextSequenceRecvs, c.host.store.channels)
  }

  lemma TransactOrder(c: Chain, peer: Chain, action: Action)
    requires Together(c, peer) && Room(c) && |c.received| < TWO_64 - 2
    requires OrderedInv(c) && Transact(c, peer, action).Ok?
    ensures OrderedInv(Transact(c, peer, action).value)
  {
    hide LocalInv, Links, BlocksInv, Grows, OrderInv, ChainSpec.RecvPacket, Room, CurrentBlock;
    if action.RecvPacket? {
      OrderReceived(c, action.recv, CurrentBlock(c));
    } else {
      hide Transact;
      TransactKeeps(c, peer, action);
      OthersKeepRecvs(c, peer, action);
      OrderKept(c, Transact(c, peer, action).value);
    }
  }

  lemma ApplyOrder(c: Chain, peer: Chain, step: Step)
    requires Together(c, peer) && Room(c) && |c.received| < TWO_64 - 2
    requires OrderedInv(c)
    ensures OrderedInv(Apply(c, peer, step))
  {
    hide Transact, Together, Room, OrderInv;
    match step
    case Seal(_, _) =>
    case Submit(_, action) =>
      if Transact(c, peer, action).Ok? {
        TransactOrder(c, peer, action);
      }
  }

  /** What every run establishes in `n` steps. */
  ghost predicate Established(w: World, n: nat) {
    WorldInv(w, n) && OrderedInv(w.a) && OrderedInv(w.b)
  }

  /** One step keeps what is established, and extends both histories. */
  lemma StepKeepsHistory(w: World, step: Step, n: nat)
    requires Established(w, n) && n < TWO_64 - 2
    ensures Established(Next(w, step), n + 1)
    ensures Extends(w.a, Next(w, step).a) && Extends(w.b, Next(w, step).b)
  {
    hide LocalInv, Links, BlocksInv, Apply, MoneyInv, OrderedInv, AcksGrow;
    StepMoney(w, step, n);
    AcksGrowRefl(w.a.host.store.acknowledgements);
    AcksGrowRefl(w.b.host.store.acknowledgements);
    if step.onA {
      ApplyOrder(w.a, w.b, step);
      ApplyExtends(w.a, w.b, step);
    } else {
      ApplyOrder(w.b, w.a, step);
      ApplyExtends(w.b, w.a, step);
    }
  }

  /** A run short enough that no 64-bit counter wraps, between two deployed applications. */
  ghost predicate ShortRun(setup: Setup, steps: seq<Step>) {
    setup.a.app != ZERO_ADDRESS && setup.b.app != ZERO_ADDRESS && |steps| < TWO_64 - 1
  }

  lemma {:induction false} RunEstablishes(setup: Setup, steps: seq<Step>)
    requires ShortRun(setup, steps)
    ensures Established(Run(setup, steps), |steps|)
  {
    hide ProtocolInv, MoneyInv, Next;
    if steps == [] {
      RunStart(setup);
      GenesisMoney(setup.a, setup.b);
    } else {
      hide OrderedInv;
      RunEstablishes(setup, steps[..|steps| - 1]);
      StepKeepsHistory(Run(setup, steps[..|steps| - 1]), steps[|steps| - 1], |steps| - 1);
    }
  }

  lemma ExtendsTransitive(c: Chain, d: Chain, e: Chain)
    requires Extends(c, d) && Extends(d, e)
    ensures Extends(c, e)
  {
  }

  /** Whatever happens later extends what happened before. */
  lemma {:induction false} RunExtends(setup: Setup, steps: seq<Step>, more: seq<Step>)
    requires ShortRun(setup, steps + more)
    ensures Extends(Run(setup, steps).a, Run(setup, steps + more).a)
    ensures Extends(Run(setup, steps).b, Run(setup, steps + more).b)
    decreases |more|
  {
    hide Next, Established;
    if more == [] {
      assert steps + more == steps;
    } else {
      hide Extends;
      var before := more[..|more| - 1];
      var w, v := Run(setup, steps), Run(setup, steps + before);
      assert (steps + more)[..|steps + more| - 1] == steps + before;
      RunExtends(setup, steps, before);
      RunEstablishes(setup, steps + before);
      StepKeepsHistory(v, more[|more| - 1], |steps + before|);
      ExtendsTransitive(w.a, v.a, Run(setup, steps + more).a);
      ExtendsTransitive(w.b, v.b, Run(setup, steps + more).b);
    }
  }
}
