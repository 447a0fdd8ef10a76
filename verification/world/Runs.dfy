/** Every transaction keeps the protocol invariant, and so does every run. */
module Runs {
  import opened Prelude
  import opened IBCIdentifier
  import opened IBCTypes
  import opened HostSpec
  import opened BankSpec
  import opened TransferSpec
  import opened ChainSpec
  import opened World
  import opened ProtocolInvariant
  import opened HandshakeSteps
  import opened ChannelSteps
  import opened PacketSteps
  import ClientSpec
  import ConnectionSpec
  import ChannelSpec

  // ----- Transactions that touch neither the store nor the logs -----

  lemma UnsharedStep(c: Chain, d: Chain, peer: Chain)
    requires LocalInv(c) && Links(c, peer)
    requires d == c.(host := c.host.(clientImpls := d.host.clientImpls, capabilities := d.host.capabilities),
                     bank := d.bank, erc20Held := d.erc20Held, blocks := d.blocks, now := d.now, direct := d.direct,
                     donated := d.donated)
    ensures Kept(c, d, peer)
  {
    hide ConnectionsInv, ChannelsInv, ChannelLogInv, EscrowsInv, SequencesInv, SentInv, CommittedInv;
    hide AcknowledgedInv, ReceivedInv, WrittenInv, ConnectionLinks, ChannelLinks, PacketLinks, ClientsKnow;
  }

  // ----- Clients -----

  lemma BlockIsPast(peer: Chain, height: nat)
    requires BlocksInv(peer) && BlockAt(peer, height).Ok?
    ensures Past(peer, BlockAt(peer, height).value.root)
  {
  }

  lemma CreateClientStep(c: Chain, peer: Chain, clientType: Bytes, height: uint64, client: ClientState, block: ConsensusState)
    requires LocalInv(c) && Links(c, peer) && Past(peer, block.root)
    requires ChainSpec.CreateClient(c, clientType, height, client, block).Ok?
    ensures Kept(c, ChainSpec.CreateClient(c, clientType, height, client, block).value, peer)
  {
    hide LocalInv, Links, Past, Kept;
    var (host, clientId) := ClientSpec.CreateClient(c.host, clientType, height, client, block).value;
    ClientStep(c, peer, host, clientId, height, client, block);
  }

  lemma UpdateClientStep(c: Chain, peer: Chain, clientId: Bytes, height: uint64, block: ConsensusState)
    requires LocalInv(c) && Links(c, peer) && Past(peer, block.root)
    requires ChainSpec.UpdateClient(c, clientId, height, block).Ok?
    ensures Kept(c, ChainSpec.UpdateClient(c, clientId, height, block).value, peer)
  {
    hide LocalInv, Links, Past, Kept;
    var host := ClientSpec.UpdateClient(c.host, clientId, height, block).value;
    ClientStep(c, peer, host, clientId, height, ClientSpec.Advance(c.host.store.clientStates[clientId], height), block);
  }

  // ----- Any transaction -----

  predicate Unshared(action: Action) {
    || action.RegisterClient? || action.BindPort? || action.BankTransfer? || action.Deposit? || action.Donate?
    || action.Withdraw?
  }

  lemma UnsharedShape(c: Chain, peer: Chain, action: Action)
    requires Unshared(action) && Transact(c, peer, action).Ok?
    ensures var d := Transact(c, peer, action).value;
            d == c.(host := c.host.(clientImpls := d.host.clientImpls, capabilities := d.host.capabilities),
                    bank := d.bank, erc20Held := d.erc20Held, direct := d.direct, donated := d.donated)
  {
  }

  /** Two chains whose invariants hold together, seen from one of them. */
  ghost predicate Together(c: Chain, peer: Chain) {
    LocalInv(c) && Links(c, peer) && BlocksInv(c) && LocalInv(peer) && Links(peer, c) && BlocksInv(peer)
  }

  /** Transactions of the client and connection handshakes. */
  predicate ClientOrConnection(action: Action) {
    || action.CreateClient? || action.UpdateClient?
    || action.ConnectionOpenInit? || action.ConnectionOpenTry? || action.ConnectionOpenAck? || action.ConnectionOpenConfirm?
  }

  /** There is room for one more connection, channel and packet. */
  predicate Room(c: Chain) {
    c.host.nextConnectionSequence < TWO_64 - 1 && c.host.nextChannelSequence < TWO_64 - 1 && |c.sent| < TWO_64 - 2
  }

  lemma ConnectionTransactKeeps(c: Chain, peer: Chain, action: Action)
    requires ClientOrConnection(action)
    requires LocalInv(c) && Links(c, peer) && LocalInv(peer) && Links(peer, c) && BlocksInv(peer) && Room(c)
    requires Transact(c, peer, action).Ok?
    ensures Kept(c, Transact(c, peer, action).value, peer)
  {
    hide LocalInv, Links, BlocksInv, Kept, BlockAt, Past;
    hide ChainSpec.CreateClient, ChainSpec.UpdateClient, ChainSpec.ConnectionOpenInit, ChainSpec.ConnectionOpenTry;
    hide ChainSpec.ConnectionOpenAck, ChainSpec.ConnectionOpenConfirm;
    match action
    case CreateClient(clientType, height, client) =>
      BlockHeight(peer, height);
      BlockIsPast(peer, height);
      CreateClientStep(c, peer, clientType, height, client, BlockAt(peer, height).value);
    case UpdateClient(clientId, height) =>
      BlockHeight(peer, height);
      BlockIsPast(peer, height);
      UpdateClientStep(c, peer, clientId, height, BlockAt(peer, height).value);
    case ConnectionOpenInit(msg) => ConnectionOpenInitStep(c, peer, msg);
    case ConnectionOpenTry(msg) => ConnectionOpenTryStep(c, peer, msg);
    case ConnectionOpenAck(msg) => ConnectionOpenAckStep(c, peer, msg);
    case ConnectionOpenConfirm(msg) => ConnectionOpenConfirmStep(c, peer, msg);
  }

  lemma ChannelTransactKeeps(c: Chain, peer: Chain, action: Action)
    requires !ClientOrConnection(action) && !Unshared(action)
    requires LocalInv(c) && Links(c, peer) && LocalInv(peer) && Links(peer, c) && Room(c)
    requires Transact(c, peer, action).Ok?
    ensures Kept(c, Transact(c, peer, action).value, peer)
  {
    hide LocalInv, Links, Kept, SlashFree, CurrentBlock;
    hide ChainSpec.ChannelOpenInit, ChainSpec.ChannelOpenTry, ChainSpec.ChannelOpenAck, ChainSpec.ChannelOpenConfirm;
    hide ChainSpec.SendTransfer, ChainSpec.RecvPacket, ChainSpec.AcknowledgePacket;
    match action
    case ChannelOpenInit(msg) => ChannelOpenInitStep(c, peer, msg);
    case ChannelOpenTry(msg) => ChannelOpenTryStep(c, peer, msg);
    case ChannelOpenAck(msg) => ChannelOpenAckStep(c, peer, msg);
    case ChannelOpenConfirm(msg) => ChannelOpenConfirmStep(c, peer, msg);
    case SendTransfer(t) => SendTransferStep(c, peer, t);
    case RecvPacket(msg) => RecvPacketStep(c, peer, msg, CurrentBlock(c));
    case AcknowledgePacket(msg) => AcknowledgePacketStep(c, peer, msg);
  }

  /** Every accepted transaction keeps the invariant, and takes nothing back. */
  lemma TransactKeeps(c: Chain, peer: Chain, action: Action)
    requires Together(c, peer) && Room(c)
    requires Transact(c, peer, action).Ok?
    ensures Kept(c, Transact(c, peer, action).value, peer)
  {
    hide LocalInv, Links, BlocksInv, Kept, Transact;
    if Unshared(action) {
      UnsharedShape(c, peer, action);
      UnsharedStep(c, Transact(c, peer, action).value, peer);
    } else if ClientOrConnection(action) {
      ConnectionTransactKeeps(c, peer, action);
    } else {
      ChannelTransactKeeps(c, peer, action);
    }
  }

  lemma BlockHeight(peer: Chain, height: nat)
    requires BlockAt(peer, height).Ok?
    ensures height < TWO_64
  {
  }

  /** No counter moves by more than one, the block being built stays, and the chain stays who it is. */
  ghost predicate CountersStep(c: Chain, d: Chain) {
    && d.host.nextConnectionSequence <= c.host.nextConnectionSequence + 1
    && d.host.nextChannelSequence <= c.host.nextChannelSequence + 1
    && |d.sent| <= |c.sent| + 1 && |d.received| <= |c.received| + 1
    && d.blocks == c.blocks && d.now == c.now
    && d.app.address == c.app.address && d.host.lightClient == c.host.lightClient
  }

  lemma ConnectionCounters(c: Chain)
    ensures forall msg :: CountersStep(c, ChainSpec.ConnectionOpenInit(c, msg))
    ensures forall msg | ChainSpec.ConnectionOpenTry(c, msg).Ok? :: CountersStep(c, ChainSpec.ConnectionOpenTry(c, msg).value)
    ensures forall msg | ChainSpec.ConnectionOpenAck(c, msg).Ok? :: CountersStep(c, ChainSpec.ConnectionOpenAck(c, msg).value)
    ensures forall msg | ChainSpec.ConnectionOpenConfirm(c, msg).Ok? ::
              CountersStep(c, ChainSpec.ConnectionOpenConfirm(c, msg).value)
  {
    hide ConnectionId, VerifyMembership, HostSpec.GetConnection, ConnectionSpec.GetVersions;
  }

  lemma NewChannelCounters(c: Chain)
    ensures forall msg | ChainSpec.ChannelOpenInit(c, msg).Ok? :: CountersStep(c, ChainSpec.ChannelOpenInit(c, msg).value)
    ensures forall msg | ChainSpec.ChannelOpenTry(c, msg).Ok? :: CountersStep(c, ChainSpec.ChannelOpenTry(c, msg).value)
  {
    hide ChannelId, VerifyMembership, ChannelSpec.HopConnection, ChannelSpec.GetCounterpartyHops, ChannelCapabilityPath;
  }

  lemma OpenChannelCounters(c: Chain)
    ensures forall msg | ChainSpec.ChannelOpenAck(c, msg).Ok? :: CountersStep(c, ChainSpec.ChannelOpenAck(c, msg).value)
    ensures forall msg | ChainSpec.ChannelOpenConfirm(c, msg).Ok? :: CountersStep(c, ChainSpec.ChannelOpenConfirm(c, msg).value)
  {
    hide VerifyMembership, ChannelSpec.OpenConnection, ChannelSpec.GetCounterpartyHops, HostSpec.GetChannel, ModuleOwner;
  }

  lemma ConnectionTransactCounters(c: Chain, peer: Chain, action: Action)
    requires ClientOrConnection(action) && Transact(c, peer, action).Ok?
    ensures CountersStep(c, Transact(c, peer, action).value)
  {
    hide ChainSpec.ConnectionOpenInit, ChainSpec.ConnectionOpenTry, ChainSpec.ConnectionOpenAck, CountersStep;
    hide ChainSpec.ConnectionOpenConfirm, ChainSpec.CreateClient, ChainSpec.UpdateClient, BlockAt;
    ConnectionCounters(c);
    ClientCounters(c);
    if action.CreateClient? || action.UpdateClient? {
      BlockHeight(peer, action.height);
    }
  }

  lemma ClientCounters(c: Chain)
    ensures forall t, h, client, block | ChainSpec.CreateClient(c, t, h, client, block).Ok? ::
              CountersStep(c, ChainSpec.CreateClient(c, t, h, client, block).value)
    ensures forall id, h, block | ChainSpec.UpdateClient(c, id, h, block).Ok? ::
              CountersStep(c, ChainSpec.UpdateClient(c, id, h, block).value)
  {
    hide ClientId, HasClientImpl;
  }

  lemma ChannelTransactCounters(c: Chain, peer: Chain, action: Action)
    requires !ClientOrConnection(action) && !Unshared(action) && Transact(c, peer, action).Ok?
    ensures CountersStep(c, Transact(c, peer, action).value)
  {
    hide ChainSpec.ChannelOpenInit, ChainSpec.ChannelOpenTry, SlashFree, CurrentBlock;
    hide ChainSpec.ChannelOpenAck, ChainSpec.ChannelOpenConfirm, ChainSpec.SendTransfer, ChainSpec.RecvPacket;
    hide ChainSpec.AcknowledgePacket;
    match action
    case SendTransfer(t) => SendShape(c, t);
    case RecvPacket(msg) => RecvShape(c, msg, CurrentBlock(c));
    case AcknowledgePacket(msg) => AckShape(c, msg);
    case _ =>
      NewChannelCounters(c);
      OpenChannelCounters(c);
  }

  lemma TransactCounters(c: Chain, peer: Chain, action: Action)
    requires Transact(c, peer, action).Ok?
    ensures CountersStep(c, Transact(c, peer, action).value)
  {
    hide Transact;
    if Unshared(action) {
      UnsharedShape(c, peer, action);
    } else if ClientOrConnection(action) {
      ConnectionTransactCounters(c, peer, action);
    } else {
      ChannelTransactCounters(c, peer, action);
    }
  }

  // ----- Blocks -----

  /** What past blocks proved, they still prove after a transaction. */
  lemma BlocksGrow(c: Chain, d: Chain)
    requires BlocksInv(c) && Grows(c, d) && d.blocks == c.blocks
    ensures BlocksInv(d)
  {
    hide Past, Grows;
    forall h | 0 <= h < |d.blocks|
      ensures Past(d, d.blocks[h].root)
    {
      PastGrows(c, d, c.blocks[h].root);
    }
  }

  /** A sealed block changes nothing the invariant speaks of, and its root is the present. */
  lemma SealKeeps(c: Chain, peer: Chain, timestamp: uint64)
    requires LocalInv(c) && Links(c, peer) && BlocksInv(c)
    ensures Kept(c, SealBlock(c, timestamp), peer) && BlocksInv(SealBlock(c, timestamp))
  {
    var d := SealBlock(c, timestamp);
    UnsharedStep(c, d, peer);
    hide LocalInv, Links, Past, Grows;
    PresentIsPast(c);
    forall h | 0 <= h < |d.blocks|
      ensures Past(d, d.blocks[h].root)
    {
      PastGrows(c, d, d.blocks[h].root);
    }
  }

  // ----- Steps and runs -----

  /** One step of one chain: the invariant is kept, and the peer still knows what it knew. */
  lemma ApplyKeeps(c: Chain, peer: Chain, step: Step, n: nat)
    requires Together(c, peer) && Bounded(c, n) && n < TWO_64 - 2
    ensures var d := Apply(c, peer, step);
            && Kept(c, d, peer) && Together(d, peer) && Bounded(d, n + 1)
            && d.app.address == c.app.address && d.host.lightClient == c.host.lightClient
            && |d.blocks| >= |c.blocks| && d.now >= c.now
  {
    hide Transact, LocalInv, Links, BlocksInv, Grows;
    match step
    case Seal(_, timestamp) =>
      SealKeeps(c, peer, timestamp);
      LinksGrow(peer, c, SealBlock(c, timestamp));
    case Submit(_, action) =>
      if Transact(c, peer, action).Ok? {
        var d := Transact(c, peer, action).value;
        TransactKeeps(c, peer, action);
        TransactCounters(c, peer, action);
        BlocksGrow(c, d);
        LinksGrow(peer, c, d);
      } else {
        UnsharedStep(c, c, peer);
      }
  }

  lemma StepKeeps(w: World, step: Step, n: nat)
    requires ProtocolInv(w, n) && n < TWO_64 - 2
    ensures ProtocolInv(Next(w, step), n + 1)
  {
    hide LocalInv, Links, BlocksInv, Apply, Kept;
    if step.onA {
      ApplyKeeps(w.a, w.b, step, n);
    } else {
      ApplyKeeps(w.b, w.a, step, n);
    }
  }

  lemma GenesisInv(s: ChainSetup, other: ChainSetup)
    requires s.app != ZERO_ADDRESS
    ensures LocalInv(Genesis(s)) && BlocksInv(Genesis(s)) && Bounded(Genesis(s), 0)
    ensures Links(Genesis(s), Genesis(other))
  {
  }

  lemma RunStart(setup: Setup)
    requires setup.a.app != ZERO_ADDRESS && setup.b.app != ZERO_ADDRESS
    ensures ProtocolInv(World(Genesis(setup.a), Genesis(setup.b)), 0)
  {
    hide LocalInv, Links, BlocksInv, Bounded;
    GenesisInv(setup.a, setup.b);
    GenesisInv(setup.b, setup.a);
  }
}
