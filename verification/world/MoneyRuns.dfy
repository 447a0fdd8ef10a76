/** In every run both banks stay in order and every denomination is conserved. */
module MoneyRuns {
  import opened Prelude
  import opened IBCIdentifier
  import opened IBCTypes
  import opened HostSpec
  import opened BankSpec
  import opened TransferSpec
  import opened ChainSpec
  import opened World
  import opened ProtocolInvariant
  import opened HandshakeSteps
  import opened ChannelSteps
  import opened PacketSteps
  import opened Runs
  import opened Ledger
  import opened Conservation
  import opened MoneySteps
  import ClientSpec
  import ConnectionSpec
  import ChannelSpec

  /** Transactions of the client, connection and channel handshakes. */
  predicate Handshake(action: Action) {
    || action.RegisterClient? || action.CreateClient? || action.UpdateClient?
    || action.ConnectionOpenInit? || action.ConnectionOpenTry? || action.ConnectionOpenAck? || action.ConnectionOpenConfirm?
    || action.BindPort? || action.ChannelOpenInit? || action.ChannelOpenTry? || action.ChannelOpenAck?
    || action.ChannelOpenConfirm?
  }

  /** Neither the bank nor any packet is touched. */
  ghost predicate Quiet(c: Chain, d: Chain) {
    && d.bank == c.bank && d.erc20Held == c.erc20Held && d.donated == c.donated && d.direct == c.direct && d.app.address == c.app.address
    && d.sent == c.sent && d.received == c.received && d.acknowledged == c.acknowledged
    && d.host.store.packetCommitments == c.host.store.packetCommitments
    && d.host.store.acknowledgements == c.host.store.acknowledgements
    && (d.channelLog == c.channelLog || exists key :: d.channelLog == c.channelLog + [key])
  }

  lemma QuietClients(c: Chain)
    ensures forall t, h, client, block | ChainSpec.CreateClient(c, t, h, client, block).Ok? ::
              Quiet(c, ChainSpec.CreateClient(c, t, h, client, block).value)
    ensures forall id, h, block | ChainSpec.UpdateClient(c, id, h, block).Ok? ::
              Quiet(c, ChainSpec.UpdateClient(c, id, h, block).value)
  {
    hide ClientId, HasClientImpl;
  }

  lemma QuietConnections(c: Chain)
    ensures forall msg :: Quiet(c, ChainSpec.ConnectionOpenInit(c, msg))
    ensures forall msg | ChainSpec.ConnectionOpenTry(c, msg).Ok? :: Quiet(c, ChainSpec.ConnectionOpenTry(c, msg).value)
    ensures forall msg | ChainSpec.ConnectionOpenAck(c, msg).Ok? :: Quiet(c, ChainSpec.ConnectionOpenAck(c, msg).value)
    ensures forall msg | ChainSpec.ConnectionOpenConfirm(c, msg).Ok? :: Quiet(c, ChainSpec.ConnectionOpenConfirm(c, msg).value)
  {
    hide ConnectionId, VerifyMembership, HostSpec.GetConnection, ConnectionSpec.GetVersions;
  }

  lemma QuietNewChannels(c: Chain)
    ensures forall msg | ChainSpec.ChannelOpenInit(c, msg).Ok? :: Quiet(c, ChainSpec.ChannelOpenInit(c, msg).value)
    ensures forall msg | ChainSpec.ChannelOpenTry(c, msg).Ok? :: Quiet(c, ChainSpec.ChannelOpenTry(c, msg).value)
  {
    hide ChannelId, VerifyMembership, ChannelSpec.HopConnection, ChannelSpec.GetCounterpartyHops, ChannelCapabilityPath;
  }

  lemma QuietOpenChannels(c: Chain)
    ensures forall msg | ChainSpec.ChannelOpenAck(c, msg).Ok? :: Quiet(c, ChainSpec.ChannelOpenAck(c, msg).value)
    ensures forall msg | ChainSpec.ChannelOpenConfirm(c, msg).Ok? :: Quiet(c, ChainSpec.ChannelOpenConfirm(c, msg).value)
  {
    hide VerifyMembership, ChannelSpec.OpenConnection, ChannelSpec.GetCounterpartyHops, HostSpec.GetChannel, ModuleOwner;
  }

  lemma ConnectionIsQuiet(c: Chain, peer: Chain, action: Action)
    requires ClientOrConnection(action) && Transact(c, peer, action).Ok?
    ensures Quiet(c, Transact(c, peer, action).value)
  {
    hide ChainSpec.ConnectionOpenInit, ChainSpec.ConnectionOpenTry, ChainSpec.ConnectionOpenAck, Quiet;
    hide ChainSpec.ConnectionOpenConfirm, ChainSpec.CreateClient, ChainSpec.UpdateClient, BlockAt;
    QuietConnections(c);
    QuietClients(c);
    if action.CreateClient? || action.UpdateClient? {
      BlockHeight(peer, action.height);
    }
  }

  lemma HandshakeIsQuiet(c: Chain, peer: Chain, action: Action)
    requires Handshake(action) && Transact(c, peer, action).Ok?
    ensures Quiet(c, Transact(c, peer, action).value)
  {
    if ClientOrConnection(action) {
      hide Transact, Quiet;
      ConnectionIsQuiet(c, peer, action);
    } else {
      hide ChainSpec.ChannelOpenInit, ChainSpec.ChannelOpenTry, SlashFree;
      hide ChainSpec.ChannelOpenAck, ChainSpec.ChannelOpenConfirm;
      match action
      case RegisterClient(_) =>
      case BindPort(_) =>
      case _ =>
        QuietNewChannels(c);
        QuietOpenChannels(c);
    }
  }

  lemma LogOf(c: Chain)
    requires LocalInv(c)
    ensures Distinct(c.channelLog)
  {
    hide ConnectionsInv, ChannelsInv, EscrowsInv, SequencesInv, SentInv, CommittedInv;
    hide AcknowledgedInv, ReceivedInv, WrittenInv, ChannelLogInv;
    LogDistinct(c.host.store.channels, c.channelLog, c.host.nextChannelSequence);
  }

  lemma HandshakeMoney(c: Chain, d: Chain, peer: Chain)
    requires MoneyInv(c, peer) && Quiet(c, d) && LocalInv(d)
    ensures MoneyInv(d, peer)
  {
    hide LocalInv, BankInv, Conserved, Unresolved, Voucher, Supply, SlashFreeKey;
    assert SamePending(c, d, peer);
    if d.channelLog == c.channelLog {
      QuietMoney(c, d, peer);
    } else {
      var key :| d.channelLog == c.channelLog + [key];
      LogOf(d);
      assert d.channelLog[|c.channelLog|] == key;
      assert forall i | 0 <= i < |c.channelLog| :: c.channelLog[i] == d.channelLog[i] != key;
      BankInvNewChannel(c.bank, c.erc20Held, c.donated, c.channelLog, key);
      NewChannelConserves(c, d, peer, key);
    }
  }

  /** Every accepted transaction keeps the ledgers balanced. */
  lemma TransactMoney(c: Chain, peer: Chain, action: Action)
    requires Linked(c, peer) && MoneyInv(c, peer)
    requires Transact(c, peer, action).Ok?
    requires Linked(Transact(c, peer, action).value, peer)
    ensures MoneyInv(Transact(c, peer, action).value, peer)
  {
    hide LocalInv, Links, MoneyInv, BlockAt, SlashFree, Quiet;
    hide ChainSpec.CreateClient, ChainSpec.UpdateClient, ChainSpec.ConnectionOpenInit, ChainSpec.ConnectionOpenTry;
    hide ChainSpec.ConnectionOpenAck, ChainSpec.ConnectionOpenConfirm, ChainSpec.ChannelOpenInit, ChainSpec.ChannelOpenTry;
    hide ChainSpec.ChannelOpenAck, ChainSpec.ChannelOpenConfirm, ChainSpec.SendTransfer, ChainSpec.RecvPacket;
    hide ChainSpec.AcknowledgePacket, ChainSpec.BankTransfer, ChainSpec.Deposit, ChainSpec.Donate, ChainSpec.Withdraw;
    hide ChainSpec.BindPort, CurrentBlock;
    if Handshake(action) {
      HandshakeIsQuiet(c, peer, action);
      HandshakeMoney(c, Transact(c, peer, action).value, peer);
    } else {
      match action
      case SendTransfer(t) => SendMoney(c, peer, t);
      case RecvPacket(msg) => RecvMoney(c, peer, msg, CurrentBlock(c));
      case AcknowledgePacket(msg) => AckMoney(c, peer, msg);
      case BankTransfer(caller, to, denom, amount) => BankTransferMoney(c, peer, caller, to, denom, amount);
      case Deposit(token, amount, receiver, paid) => DepositMoney(c, peer, token, amount, receiver, paid);
      case Donate(token, amount) => DonateMoney(c, peer, token, amount);
      case Withdraw(caller, token, amount, paid) => WithdrawMoney(c, peer, caller, token, amount, paid);
    }
  }

  lemma LinkedAfter(c: Chain, peer: Chain, action: Action)
    requires Together(c, peer) && Room(c)
    requires Transact(c, peer, action).Ok?
    ensures Linked(c, peer) && Linked(Transact(c, peer, action).value, peer)
  {
    hide Transact, LocalInv, Links, BlocksInv, Grows, Room;
    TransactKeeps(c, peer, action);
    LinksGrow(peer, c, Transact(c, peer, action).value);
  }

  lemma ApplyMoney(c: Chain, peer: Chain, step: Step)
    requires Together(c, peer) && Room(c) && MoneyInv(c, peer)
    ensures MoneyInv(Apply(c, peer, step), peer)
  {
    hide Transact, LocalInv, Links, BlocksInv, Grows, Together, Linked, Room, MoneyInv, Unresolved;
    match step
    case Seal(_, timestamp) =>
      QuietMoney(c, SealBlock(c, timestamp), peer);
    case Submit(_, action) =>
      if Transact(c, peer, action).Ok? {
        LinkedAfter(c, peer, action);
        TransactMoney(c, peer, action);
      }
  }

  /** What holds after `n` steps, of the protocol and of the money. */
  ghost predicate WorldInv(w: World, n: nat) {
    ProtocolInv(w, n) && MoneyInv(w.a, w.b)
  }

  lemma StepMoney(w: World, step: Step, n: nat)
    requires WorldInv(w, n) && n < TWO_64 - 2
    ensures WorldInv(Next(w, step), n + 1)
  {
    hide LocalInv, Links, BlocksInv, Apply, BankInv, Conserved, Distinct;
    StepKeeps(w, step, n);
    if step.onA {
      ApplyMoney(w.a, w.b, step);
    } else {
      ApplyMoney(w.b, w.a, step);
    }
  }

  lemma GenesisMoney(s: ChainSetup, other: ChainSetup)
    ensures MoneyInv(Genesis(s), Genesis(other))
  {
  }
}
