/** Receipts and capabilities stay in step with acknowledgements and channels, in every run. */
module Books {
  import opened Prelude
  import opened IBCIdentifier
  import opened IBCTypes
  import opened HostSpec
  import opened TransferSpec
  import opened ChainSpec
  import opened World
  import opened ProtocolInvariant
  import opened PacketSteps
  import opened Runs
  import opened Ledger
  import opened Conservation
  import opened MoneySteps
  import opened History
  import AppMessages
  import ClientSpec
  import ConnectionSpec
  import ChannelSpec

  // ----- Receipts and capabilities -----

  /** The name of a channel's capability. */
  ghost predicate NamesChannel(name: Bytes, key: ChannelKey) {
    name == ChannelCapabilityPath(key.portId, key.channelId)
  }

  /** Every capability is the application's alone, and is that of a port or of a channel; every channel has its own. */
  ghost predicate CapabilitiesInv(capabilities: map<Bytes, seq<Address>>, ends: Channels, app: Address) {
    && (forall name | name in capabilities ::
          && capabilities[name] == [app]
          && (SlashFree(name) || exists key :: key in ends && NamesChannel(name, key)))
    && (forall key | key in ends :: ChannelCapabilityPath(key.portId, key.channelId) in capabilities)
  }

  /** A receipt is left only where an acknowledgement was written. */
  ghost predicate BookInv(c: Chain) {
    && c.host.packetReceipts <= c.host.store.acknowledgements.Keys
    && CapabilitiesInv(c.host.capabilities, c.host.store.channels, c.app.address)
  }

  ghost predicate BookKept(c: Chain, d: Chain) {
    && d.host.packetReceipts == c.host.packetReceipts
    && d.host.capabilities == c.host.capabilities
    && d.host.store.channels.Keys == c.host.store.channels.Keys
    && d.app.address == c.app.address
  }

  lemma ConnectionBooks(c: Chain)
    ensures forall msg :: BookKept(c, ChainSpec.ConnectionOpenInit(c, msg))
    ensures forall msg | ChainSpec.ConnectionOpenTry(c, msg).Ok? :: BookKept(c, ChainSpec.ConnectionOpenTry(c, msg).value)
    ensures forall msg | ChainSpec.ConnectionOpenAck(c, msg).Ok? :: BookKept(c, ChainSpec.ConnectionOpenAck(c, msg).value)
    ensures forall msg | ChainSpec.ConnectionOpenConfirm(c, msg).Ok? ::
              BookKept(c, ChainSpec.ConnectionOpenConfirm(c, msg).value)
  {
    hide ConnectionId, VerifyMembership, HostSpec.GetConnection, ConnectionSpec.GetVersions;
  }

  lemma OpenChannelBooks(c: Chain)
    ensures forall msg | ChainSpec.ChannelOpenAck(c, msg).Ok? :: BookKept(c, ChainSpec.ChannelOpenAck(c, msg).value)
    ensures forall msg | ChainSpec.ChannelOpenConfirm(c, msg).Ok? :: BookKept(c, ChainSpec.ChannelOpenConfirm(c, msg).value)
  {
    hide VerifyMembership, ChannelSpec.OpenConnection, ChannelSpec.GetCounterpartyHops, ModuleOwner;
  }

  lemma ClientBooks(c: Chain)
    ensures forall t, h, client, block | ChainSpec.CreateClient(c, t, h, client, block).Ok? ::
              BookKept(c, ChainSpec.CreateClient(c, t, h, client, block).value)
    ensures forall id, h, block | ChainSpec.UpdateClient(c, id, h, block).Ok? ::
              BookKept(c, ChainSpec.UpdateClient(c, id, h, block).value)
  {
    hide ClientId, HasClientImpl;
  }

  lemma ConnectionKeepsBooks(c: Chain, peer: Chain, action: Action)
    requires ClientOrConnection(action) && Transact(c, peer, action).Ok?
    ensures BookKept(c, Transact(c, peer, action).value)
  {
    hide ChainSpec.ConnectionOpenInit, ChainSpec.ConnectionOpenTry, ChainSpec.ConnectionOpenAck, BookKept;
    hide ChainSpec.ConnectionOpenConfirm, ChainSpec.CreateClient, ChainSpec.UpdateClient, BlockAt;
    ConnectionBooks(c);
    ClientBooks(c);
    if action.CreateClient? || action.UpdateClient? {
      BlockHeight(peer, action.height);
    }
  }

  lemma PacketsKeepBooks(c: Chain, peer: Chain, action: Action)
    requires Transact(c, peer, action).Ok?
    requires action.SendTransfer? || action.AcknowledgePacket?
    ensures BookKept(c, Transact(c, peer, action).value)
  {
    hide ChainSpec.SendTransfer, ChainSpec.AcknowledgePacket;
    match action
    case SendTransfer(t) => SendShape(c, t);
    case AcknowledgePacket(msg) => AckShape(c, msg);
  }

  lemma OpeningKeepsBooks(c: Chain, peer: Chain, action: Action)
    requires Transact(c, peer, action).Ok?
    requires action.ChannelOpenAck? || action.ChannelOpenConfirm?
    ensures BookKept(c, Transact(c, peer, action).value)
  {
    hide ChainSpec.ChannelOpenAck, ChainSpec.ChannelOpenConfirm, BookKept;
    OpenChannelBooks(c);
  }

  lemma BankKeepsBooks(c: Chain, peer: Chain, action: Action)
    requires Unshared(action) && !action.BindPort? && Transact(c, peer, action).Ok?
    ensures BookKept(c, Transact(c, peer, action).value)
  {
    hide Transact;
    UnsharedShape(c, peer, action);
    UnsharedNames(c, peer, action);
  }

  /** Of these actions only binding a port claims a capability. */
  lemma UnsharedNames(c: Chain, peer: Chain, action: Action)
    requires Unshared(action) && !action.BindPort? && Transact(c, peer, action).Ok?
    ensures Transact(c, peer, action).value.host.capabilities == c.host.capabilities
  {
    hide ChainSpec.BankTransfer, ChainSpec.Deposit, ChainSpec.Donate, ChainSpec.Withdraw;
    BankShapes(c);
  }

  /** The bank's own entry points leave the host alone. */
  lemma BankShapes(c: Chain)
    ensures forall caller, to, denom, amount | ChainSpec.BankTransfer(c, caller, to, denom, amount).Ok? ::
              ChainSpec.BankTransfer(c, caller, to, denom, amount).value.host == c.host
    ensures forall token, amount, receiver, paid | ChainSpec.Deposit(c, token, amount, receiver, paid).Ok? ::
              ChainSpec.Deposit(c, token, amount, receiver, paid).value.host == c.host
    ensures forall token, amount | ChainSpec.Donate(c, token, amount).Ok? :: ChainSpec.Donate(c, token, amount).value.host == c.host
    ensures forall caller, token, amount, paid | ChainSpec.Withdraw(c, caller, token, amount, paid).Ok? ::
              ChainSpec.Withdraw(c, caller, token, amount, paid).value.host == c.host
  {
    hide PaidDirectly;
  }

  lemma MostKeepBooks(c: Chain, peer: Chain, action: Action)
    requires Transact(c, peer, action).Ok?
    requires !action.BindPort? && !action.ChannelOpenInit? && !action.ChannelOpenTry? && !action.RecvPacket?
    ensures BookKept(c, Transact(c, peer, action).value)
  {
    hide Transact, BookKept;
    if ClientOrConnection(action) {
      ConnectionKeepsBooks(c, peer, action);
    } else if Unshared(action) {
      BankKeepsBooks(c, peer, action);
    } else if action.SendTransfer? || action.AcknowledgePacket? {
      PacketsKeepBooks(c, peer, action);
    } else {
      OpeningKeepsBooks(c, peer, action);
    }
  }

  /** Claiming a name nobody holds yet makes the application its only owner. */
  lemma Claimed(s: HostState, ends: Channels, app: Address, name: Bytes)
    requires CapabilitiesInv(s.capabilities, ends, app)
    ensures HostSpec.ClaimCapability(s, name, app)
         == if name in s.capabilities then Revert else Ok(s.(capabilities := s.capabilities[name := [app]]))
  {
    hide SlashFree, NamesChannel;
    assert [app][0] == app;
    assert [] + [app] == [app];
  }

  lemma PortClaimed(capabilities: map<Bytes, seq<Address>>, ends: Channels, app: Address, name: Bytes)
    requires CapabilitiesInv(capabilities, ends, app) && SlashFree(name)
    ensures CapabilitiesInv(capabilities[name := [app]], ends, app)
  {
    hide SlashFree, NamesChannel, ChannelCapabilityPath;
  }

  lemma OwnerIsApp(s: HostState, ends: Channels, app: Address, name: Bytes)
    requires CapabilitiesInv(s.capabilities, ends, app)
    ensures name in s.capabilities ==> ModuleOwner(s, name) == Ok(app)
    ensures ModuleOwner(s, name).Ok? ==> ModuleOwner(s, name) == Ok(app)
  {
  }

  lemma NewChannelBooks(c: Chain, portId: Bytes, end: Channel)
    requires BookInv(c) && c.host.nextChannelSequence < TWO_64 - 1
    requires var (host, id) := ChannelSpec.AddChannel(c.host, portId, end); RecordChannel(c, host, portId, id).Ok?
    ensures var (host, id) := ChannelSpec.AddChannel(c.host, portId, end);
            BookInv(RecordChannel(c, host, portId, id).value)
  {
    hide ChannelId, CapabilitiesInv, ModuleOwner, HostSpec.ClaimCapability, ChannelCapabilityPath;
    var (host, id) := ChannelSpec.AddChannel(c.host, portId, end);
    var d := RecordChannel(c, host, portId, id).value;
    var path := ChannelCapabilityPath(portId, id);
    OwnerIsApp(host, c.host.store.channels, c.app.address, portId);
    Claimed(host, c.host.store.channels, c.app.address, path);
    ChannelNamed(host.capabilities, c.host.store.channels, c.app.address, ChannelKey(portId, id), end);
  }

  lemma ChannelNamed(capabilities: map<Bytes, seq<Address>>, ends: Channels, app: Address, key: ChannelKey, end: Channel)
    requires CapabilitiesInv(capabilities, ends, app)
    ensures CapabilitiesInv(capabilities[ChannelCapabilityPath(key.portId, key.channelId) := [app]], ends[key := end], app)
  {
    hide SlashFree, ChannelCapabilityPath;
    var name := ChannelCapabilityPath(key.portId, key.channelId);
    var more, grown := capabilities[name := [app]], ends[key := end];
    forall x | x in more
      ensures SlashFree(x) || exists k :: k in grown && NamesChannel(x, k)
    {
      if x == name {
        assert key in grown && NamesChannel(x, key);
      } else if !SlashFree(x) {
        var k :| k in ends && NamesChannel(x, k);
        assert k in grown && NamesChannel(x, k);
      }
    }
  }

  /** The name of a new channel's capability is free. */
  lemma NewNameFree(capabilities: map<Bytes, seq<Address>>, ends: Channels, app: Address, key: ChannelKey)
    requires CapabilitiesInv(capabilities, ends, app)
    requires key !in ends && SlashFree(key.portId) && SlashFree(key.channelId)
    ensures ChannelCapabilityPath(key.portId, key.channelId) !in capabilities
  {
    var name := ChannelCapabilityPath(key.portId, key.channelId);
    assert name[|key.portId|] == SLASH;
    if name in capabilities {
      var k :| k in ends && NamesChannel(name, k);
      PortChannelUnique(k.portId, k.channelId, key.portId, key.channelId);
    }
  }

  lemma SameNames(capabilities: map<Bytes, seq<Address>>, ends: Channels, more: Channels, app: Address)
    requires CapabilitiesInv(capabilities, ends, app) && more.Keys == ends.Keys
    ensures CapabilitiesInv(capabilities, more, app)
  {
    hide SlashFree, NamesChannel, ChannelCapabilityPath;
    forall name | name in capabilities
      ensures SlashFree(name) || exists key :: key in more && NamesChannel(name, key)
    {
      if !SlashFree(name) {
        var key :| key in ends && NamesChannel(name, key);
        assert key in more.Keys;
      }
    }
    forall key | key in more
      ensures ChannelCapabilityPath(key.portId, key.channelId) in capabilities
    {
      assert key in ends.Keys;
    }
  }

  lemma BooksFollow(c: Chain, d: Chain)
    requires BookInv(c) && BookKept(c, d) && AcksGrow(c.host.store.acknowledgements, d.host.store.acknowledgements)
    ensures BookInv(d)
  {
    hide CapabilitiesInv;
    SameNames(c.host.capabilities, c.host.store.channels, d.host.store.channels, c.app.address);
  }

  lemma TransactAcksGrow(c: Chain, peer: Chain, action: Action)
    requires Together(c, peer) && Room(c)
    requires Transact(c, peer, action).Ok?
    ensures AcksGrow(c.host.store.acknowledgements, Transact(c, peer, action).value.host.store.acknowledgements)
  {
    hide LocalInv, Links, BlocksInv, Transact, AcksGrow, Room;
    TransactKeeps(c, peer, action);
  }

  lemma RecvBooks(c: Chain, msg: MsgPacketRecv, env: Env)
    requires BookInv(c) && ChainSpec.RecvPacket(c, msg, env).Ok?
    ensures BookInv(ChainSpec.RecvPacket(c, msg, env).value)
  {
    hide ChainSpec.RecvPacket, OnRecvPacket, AppMessages.Decode, PaidDirectly, ReceivedDenom, CapabilitiesInv;
    hide ChannelSpec.VerifyPacketCommitment;
    RecvShape(c, msg, env);
  }

  lemma TransactBooks(c: Chain, peer: Chain, action: Action)
    requires Together(c, peer) && Room(c)
    requires BookInv(c) && Transact(c, peer, action).Ok?
    ensures BookInv(Transact(c, peer, action).value)
  {
    hide LocalInv, Links, BlocksInv, BookKept, SlashFree, BlockAt, ChainSpec.RecvPacket, RecordChannel, CapabilitiesInv;
    hide ChainSpec.SendTransfer, ChainSpec.AcknowledgePacket, ChainSpec.ConnectionOpenInit, ChainSpec.ConnectionOpenTry;
    hide ChainSpec.ConnectionOpenAck, ChainSpec.ConnectionOpenConfirm, ChainSpec.ChannelOpenAck, ChainSpec.ChannelOpenConfirm;
    hide ChainSpec.BankTransfer, ChainSpec.Deposit, ChainSpec.Donate, ChainSpec.Withdraw, ChainSpec.CreateClient;
    hide ChainSpec.UpdateClient, CurrentBlock;
    var d := Transact(c, peer, action).value;
    match action
    case BindPort(portId) =>
      Claimed(c.host, c.host.store.channels, c.app.address, portId);
      PortClaimed(c.host.capabilities, c.host.store.channels, c.app.address, portId);
    case ChannelOpenInit(msg) =>
      NewChannelBooks(c, msg.portId, msg.channel);
    case ChannelOpenTry(msg) =>
      NewChannelBooks(c, msg.portId, msg.channel);
    case RecvPacket(msg) =>
      RecvBooks(c, msg, CurrentBlock(c));
    case _ =>
      MostKeepBooks(c, peer, action);
      TransactAcksGrow(c, peer, action);
      hide BookInv, Transact, AcksGrow;
      BooksFollow(c, d);
  }

  lemma ApplyBooks(c: Chain, peer: Chain, step: Step)
    requires Together(c, peer) && Room(c)
    requires BookInv(c)
    ensures BookInv(Apply(c, peer, step))
  {
    hide Transact, Together, Room, CapabilitiesInv;
    match step
    case Seal(_, _) =>
    case Submit(_, action) =>
      if Transact(c, peer, action).Ok? {
        TransactBooks(c, peer, action);
      }
  }

  lemma OwnerFound(c: Chain, key: ChannelKey)
    requires BookInv(c) && key in c.host.store.channels
    ensures ModuleOwner(c.host, ChannelCapabilityPath(key.portId, key.channelId)).Ok?
  {
    hide ChannelCapabilityPath, ModuleOwner;
    OwnerIsApp(c.host, c.host.store.channels, c.app.address, ChannelCapabilityPath(key.portId, key.channelId));
  }

  // ----- Everything at once -----

  /** Everything that holds after `n` steps of a run. */
  ghost predicate Sound(w: World, n: nat) {
    Established(w, n) && BookInv(w.a) && BookInv(w.b)
  }

  lemma NextSound(w: World, step: Step, n: nat)
    requires Sound(w, n) && n < TWO_64 - 2
    ensures Sound(Next(w, step), n + 1)
  {
    hide LocalInv, Links, BlocksInv, Apply, MoneyInv, OrderedInv, BookInv, Extends;
    StepKeepsHistory(w, step, n);
    if step.onA {
      ApplyBooks(w.a, w.b, step);
    } else {
      ApplyBooks(w.b, w.a, step);
    }
  }

  lemma GenesisBooks(s: ChainSetup)
    ensures BookInv(Genesis(s))
  {
  }

  lemma {:induction false} RunSound(setup: Setup, steps: seq<Step>)
    requires ShortRun(setup, steps)
    ensures Sound(Run(setup, steps), |steps|)
  {
    hide Next, BookInv, ProtocolInv, MoneyInv, OrderedInv;
    if steps == [] {
      RunEstablishes(setup, steps);
      GenesisBooks(setup.a);
      GenesisBooks(setup.b);
    } else {
      hide Established;
      RunSound(setup, steps[..|steps| - 1]);
      NextSound(Run(setup, steps[..|steps| - 1]), steps[|steps| - 1], |steps| - 1);
    }
  }

  /** What one chain and its peer satisfy in every run. */
  ghost predicate Sides(c: Chain, peer: Chain) {
    Linked(c, peer) && MoneyInv(c, peer) && OrderedInv(c) && OrderedInv(peer) && BookInv(c) && BookInv(peer)
  }

  lemma SoundSides(w: World, n: nat)
    requires Sound(w, n)
    ensures Sides(w.a, w.b) && Sides(w.b, w.a)
  {
    hide LocalInv, Links, BlocksInv, Bounded, BankInv, Distinct, Conserved, OrderedInv, BookInv;
  }
}
