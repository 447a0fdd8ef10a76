/**
 What every run makes of light clients: each has a registered type and a number of its own, and
 each consensus state it keeps is the peer's sealed block of that height.
 */
module Clients {
  import opened Prelude
  import opened IBCIdentifier
  import opened IBCTypes
  import opened HostSpec
  import opened TransferSpec
  import opened ChainSpec
  import opened World
  import opened PacketSteps
  import opened Runs
  import opened History
  import opened Continuation
  import AppMessages
  import ClientSpec
  import ConnectionSpec
  import ChannelSpec

  // ----- The invariant -----

  /** Numbered below `next`. */
  ghost predicate Numbered(id: Bytes, clientType: Bytes, next: nat) {
    exists k: nat :: k < next && id == ClientId(clientType, k)
  }

  ghost predicate TypesInv(types: map<Bytes, Bytes>, impls: set<Bytes>, next: nat) {
    forall id | id in types :: types[id] != [] && types[id] in impls && Numbered(id, types[id], next)
  }

  ghost predicate ShownInv(states: map<ConsensusKey, ConsensusState>, clients: map<Bytes, ClientState>,
                           blocks: seq<ConsensusState>)
  {
    forall k | k in states :: k.clientId in clients && k.height < |blocks| && states[k] == blocks[k.height]
  }

  ghost predicate ClientsInv(c: Chain, peer: Chain) {
    && TypesInv(c.host.clientTypes, c.host.clientImpls, c.host.nextClientSequence)
    && c.host.store.clientStates.Keys == c.host.clientTypes.Keys
    && ShownInv(c.host.store.consensusStates, c.host.store.clientStates, peer.blocks)
  }

  // ----- Steps -----

  /** Nothing about clients changes, but that types may be registered. */
  ghost predicate ClientsKept(c: Chain, d: Chain) {
    && c.host.clientImpls <= d.host.clientImpls && d.host.clientTypes == c.host.clientTypes
    && d.host.nextClientSequence == c.host.nextClientSequence
    && d.host.store.clientStates == c.host.store.clientStates
    && d.host.store.consensusStates == c.host.store.consensusStates
    && d.blocks == c.blocks
  }

  lemma ConnectionsKeepClients(c: Chain)
    ensures forall msg :: ClientsKept(c, ChainSpec.ConnectionOpenInit(c, msg))
    ensures forall msg | ChainSpec.ConnectionOpenTry(c, msg).Ok? :: ClientsKept(c, ChainSpec.ConnectionOpenTry(c, msg).value)
    ensures forall msg | ChainSpec.ConnectionOpenAck(c, msg).Ok? :: ClientsKept(c, ChainSpec.ConnectionOpenAck(c, msg).value)
    ensures forall msg | ChainSpec.ConnectionOpenConfirm(c, msg).Ok? ::
              ClientsKept(c, ChainSpec.ConnectionOpenConfirm(c, msg).value)
  {
    hide ConnectionId, VerifyMembership, HostSpec.GetConnection, ConnectionSpec.GetVersions;
  }

  lemma NewChannelsKeepClients(c: Chain)
    ensures forall msg | ChainSpec.ChannelOpenInit(c, msg).Ok? :: ClientsKept(c, ChainSpec.ChannelOpenInit(c, msg).value)
    ensures forall msg | ChainSpec.ChannelOpenTry(c, msg).Ok? :: ClientsKept(c, ChainSpec.ChannelOpenTry(c, msg).value)
  {
    hide ChannelId, VerifyMembership, ChannelSpec.HopConnection, ChannelSpec.GetCounterpartyHops, ChannelCapabilityPath;
  }

  lemma OpenChannelsKeepClients(c: Chain)
    ensures forall msg | ChainSpec.ChannelOpenAck(c, msg).Ok? :: ClientsKept(c, ChainSpec.ChannelOpenAck(c, msg).value)
    ensures forall msg | ChainSpec.ChannelOpenConfirm(c, msg).Ok? :: ClientsKept(c, ChainSpec.ChannelOpenConfirm(c, msg).value)
  {
    hide VerifyMembership, ChannelSpec.OpenConnection, ChannelSpec.GetCounterpartyHops, ModuleOwner;
  }

  lemma PacketsKeepClients(c: Chain, peer: Chain, action: Action)
    requires action.SendTransfer? || action.RecvPacket? || action.AcknowledgePacket?
    requires Transact(c, peer, action).Ok?
    ensures ClientsKept(c, Transact(c, peer, action).value)
  {
    hide ChainSpec.SendTransfer, ChainSpec.RecvPacket, ChainSpec.AcknowledgePacket, CurrentBlock, OnRecvPacket, TakeTokens;
    hide OnAcknowledgementPacket, ReceivedDenom, PaidDirectly, AppMessages.Decode, AppMessages.Encode, DenomPrefix;
    match action
    case SendTransfer(t) => SendShape(c, t);
    case RecvPacket(msg) => RecvShape(c, msg, CurrentBlock(c));
    case AcknowledgePacket(msg) => AckShape(c, msg);
  }

  lemma BankKeepsClients(c: Chain, peer: Chain, action: Action)
    requires Unshared(action) && Transact(c, peer, action).Ok?
    ensures ClientsKept(c, Transact(c, peer, action).value)
  {
    hide Transact;
    UnsharedShape(c, peer, action);
    TypesOnlyAdded(c, peer, action);
  }

  lemma TypesOnlyAdded(c: Chain, peer: Chain, action: Action)
    requires Unshared(action) && Transact(c, peer, action).Ok?
    ensures c.host.clientImpls <= Transact(c, peer, action).value.host.clientImpls
  {
    hide SlashFree;
  }

  lemma OthersKeepClients(c: Chain, peer: Chain, action: Action)
    requires Transact(c, peer, action).Ok? && !action.CreateClient? && !action.UpdateClient?
    ensures ClientsKept(c, Transact(c, peer, action).value)
  {
    if Unshared(action) {
      hide Transact;
      BankKeepsClients(c, peer, action);
    } else if action.SendTransfer? || action.RecvPacket? || action.AcknowledgePacket? {
      hide Transact;
      PacketsKeepClients(c, peer, action);
    } else {
      hide ClientsKept, SlashFree;
      HandshakeKeepsClients(c, peer, action);
    }
  }

  lemma HandshakeKeepsClients(c: Chain, peer: Chain, action: Action)
    requires Transact(c, peer, action).Ok? && !action.CreateClient? && !action.UpdateClient? && !Unshared(action)
    requires !action.SendTransfer? && !action.RecvPacket? && !action.AcknowledgePacket?
    ensures ClientsKept(c, Transact(c, peer, action).value)
  {
    hide ClientsKept, SlashFree, ChainSpec.ConnectionOpenInit, ChainSpec.ConnectionOpenTry, ChainSpec.ConnectionOpenAck;
    hide ChainSpec.ConnectionOpenConfirm, ChainSpec.ChannelOpenInit, ChainSpec.ChannelOpenTry, ChainSpec.ChannelOpenAck;
    hide ChainSpec.ChannelOpenConfirm;
    ConnectionsKeepClients(c);
    NewChannelsKeepClients(c);
    OpenChannelsKeepClients(c);
  }

  /** What a client number names is free. */
  lemma FreshClient(types: map<Bytes, Bytes>, impls: set<Bytes>, next: nat, clientType: Bytes)
    requires TypesInv(types, impls, next)
    ensures ClientId(clientType, next) !in types
  {
    var id := ClientId(clientType, next);
    if id in types {
      assert Numbered(id, types[id], next);
      var k: nat :| k < next && id == ClientId(types[id], k);
      ClientIdInjective(clientType, next, types[id], k);
    }
  }

  lemma TypesLarger(types: map<Bytes, Bytes>, impls: set<Bytes>, more: set<Bytes>, next: nat)
    requires TypesInv(types, impls, next) && impls <= more
    ensures TypesInv(types, more, next)
  {
    hide ClientId, Numbered;
  }

  lemma TypesNext(types: map<Bytes, Bytes>, impls: set<Bytes>, next: nat, clientType: Bytes)
    requires TypesInv(types, impls, next) && clientType != [] && clientType in impls
    ensures TypesInv(types[ClientId(clientType, next) := clientType], impls, next + 1)
  {
    hide ClientId;
    var id := ClientId(clientType, next);
    assert Numbered(id, clientType, next + 1);
    forall x | x in types
      ensures Numbered(x, types[x], next + 1)
    {
      var k: nat :| k < next && x == ClientId(types[x], k);
    }
  }

  /** The chain with a new client, and its state at a height. */
  function WithClient(c: Chain, id: Bytes, clientType: Bytes, client: ClientState, height: uint64, state: ConsensusState): Chain {
    c.(host := c.host.(
         store := c.host.store.(
           clientStates := c.host.store.clientStates[id := client],
           consensusStates := c.host.store.consensusStates[ConsensusKey(id, height) := state]),
         clientTypes := c.host.clientTypes[id := clientType],
         nextClientSequence := Inc64(c.host.nextClientSequence)))
  }

  /**
   A client is created exactly for a registered type with a name and a block of the peer, and
   then under an identifier that no client has.
   */
  lemma CreatedExactly(c: Chain, peer: Chain, clientType: Bytes, height: nat, client: ClientState)
    requires TypesInv(c.host.clientTypes, c.host.clientImpls, c.host.nextClientSequence)
    requires c.host.nextClientSequence < TWO_64 - 1
    ensures var id := ClientId(clientType, c.host.nextClientSequence);
            && id !in c.host.clientTypes
            && Transact(c, peer, Action.CreateClient(clientType, height, client))
               == if height < |peer.blocks| && height < TWO_64 && clientType in c.host.clientImpls && clientType != []
                  then Ok(WithClient(c, id, clientType, client, height, peer.blocks[height])) else Revert
  {
    hide ClientId, TypesInv, ChainSpec.ConnectionOpenInit, ChainSpec.ConnectionOpenTry, ChainSpec.ConnectionOpenAck;
    hide ChainSpec.ConnectionOpenConfirm, ChainSpec.ChannelOpenInit, ChainSpec.ChannelOpenTry, ChainSpec.ChannelOpenAck;
    hide ChainSpec.ChannelOpenConfirm, ChainSpec.SendTransfer, ChainSpec.RecvPacket, ChainSpec.AcknowledgePacket;
    FreshClient(c.host.clientTypes, c.host.clientImpls, c.host.nextClientSequence, clientType);
  }

  /** The chain with a client shown a block: its latest height becomes the larger of the two. */
  function WithUpdate(c: Chain, id: Bytes, height: uint64, state: ConsensusState): Chain
    requires id in c.host.store.clientStates
  {
    var s := c.host.store;
    var client := s.clientStates[id];
    var latest := if client.latestHeight < height then height else client.latestHeight;
    c.(host := c.host.(
         store := s.(clientStates := s.clientStates[id := ClientState(latest, client.rest)],
                     consensusStates := s.consensusStates[ConsensusKey(id, height) := state])))
  }

  /** A client is updated exactly if it exists and its light client accepts a block of the peer. */
  lemma UpdatedExactly(c: Chain, peer: Chain, clientId: Bytes, height: nat)
    requires TypesInv(c.host.clientTypes, c.host.clientImpls, c.host.nextClientSequence)
    requires c.host.store.clientStates.Keys == c.host.clientTypes.Keys
    ensures Transact(c, peer, Action.UpdateClient(clientId, height))
            == if && height < |peer.blocks| && height < TWO_64 && clientId in c.host.store.clientStates
                  && c.host.lightClient.accepts(clientId, height)
               then Ok(WithUpdate(c, clientId, height, peer.blocks[height])) else Revert
  {
    hide Numbered;
    assert clientId in c.host.store.clientStates ==> clientId in c.host.clientTypes;
  }

  /** Clients stay, none goes back in height, and none forgets a block it was shown. */
  ghost predicate ClientsAdvance(c: Chain, d: Chain) {
    && (forall id | id in c.host.store.clientStates ::
          && id in d.host.store.clientStates
          && c.host.store.clientStates[id].latestHeight <= d.host.store.clientStates[id].latestHeight)
    && (forall k | k in c.host.store.consensusStates ::
          && k in d.host.store.consensusStates
          && d.host.store.consensusStates[k] == c.host.store.consensusStates[k])
  }

  /** What holds after a step of `c`. */
  ghost predicate ClientsStep(c: Chain, d: Chain, peer: Chain) {
    && ClientsInv(d, peer) && ClientsAdvance(c, d)
    && d.host.nextClientSequence <= c.host.nextClientSequence + 1
  }

  lemma KeptStep(c: Chain, d: Chain, peer: Chain)
    requires ClientsInv(c, peer) && ClientsKept(c, d)
    ensures ClientsStep(c, d, peer)
  {
    hide TypesInv;
    TypesLarger(c.host.clientTypes, c.host.clientImpls, d.host.clientImpls, c.host.nextClientSequence);
  }

  lemma CreateStep(c: Chain, peer: Chain, clientType: Bytes, height: nat, client: ClientState)
    requires ClientsInv(c, peer) && c.host.nextClientSequence < TWO_64 - 1
    requires Transact(c, peer, Action.CreateClient(clientType, height, client)).Ok?
    ensures var d := Transact(c, peer, Action.CreateClient(clientType, height, client)).value;
            ClientsStep(c, d, peer) && d.blocks == c.blocks
  {
    hide Transact, ClientId, TypesInv, WithClient, ClientsStep, ShownInv;
    CreatedExactly(c, peer, clientType, height, client);
    WithClientStep(c, peer, clientType, height, client);
  }

  lemma WithClientStep(c: Chain, peer: Chain, clientType: Bytes, height: uint64, client: ClientState)
    requires ClientsInv(c, peer) && c.host.nextClientSequence < TWO_64 - 1
    requires height < |peer.blocks| && clientType != [] && clientType in c.host.clientImpls
    requires ClientId(clientType, c.host.nextClientSequence) !in c.host.clientTypes
    ensures var id := ClientId(clientType, c.host.nextClientSequence);
            var d := WithClient(c, id, clientType, client, height, peer.blocks[height]);
            ClientsStep(c, d, peer) && d.blocks == c.blocks
  {
    hide ClientId, TypesInv, ShownInv;
    var id := ClientId(clientType, c.host.nextClientSequence);
    TypesNext(c.host.clientTypes, c.host.clientImpls, c.host.nextClientSequence, clientType);
    assert id !in c.host.store.clientStates.Keys;
    ShownNext(c.host.store.consensusStates, c.host.store.clientStates, peer.blocks, id, client, height);
  }

  lemma ShownNext(states: map<ConsensusKey, ConsensusState>, clients: map<Bytes, ClientState>, blocks: seq<ConsensusState>,
                  id: Bytes, client: ClientState, height: uint64)
    requires ShownInv(states, clients, blocks) && height < |blocks|
    ensures ShownInv(states[ConsensusKey(id, height) := blocks[height]], clients[id := client], blocks)
    ensures forall k | k in states :: states[ConsensusKey(id, height) := blocks[height]][k] == states[k]
  {
  }

  lemma UpdateStep(c: Chain, peer: Chain, clientId: Bytes, height: nat)
    requires ClientsInv(c, peer)
    requires Transact(c, peer, Action.UpdateClient(clientId, height)).Ok?
    ensures var d := Transact(c, peer, Action.UpdateClient(clientId, height)).value;
            ClientsStep(c, d, peer) && d.blocks == c.blocks
  {
    hide Transact, TypesInv, WithUpdate, ClientsStep, ShownInv;
    UpdatedExactly(c, peer, clientId, height);
    WithUpdateStep(c, peer, clientId, height);
  }

  lemma WithUpdateStep(c: Chain, peer: Chain, clientId: Bytes, height: uint64)
    requires ClientsInv(c, peer) && height < |peer.blocks| && clientId in c.host.store.clientStates
    ensures var d := WithUpdate(c, clientId, height, peer.blocks[height]);
            ClientsStep(c, d, peer) && d.blocks == c.blocks
  {
    hide TypesInv;
  }

  lemma TransactClients(c: Chain, peer: Chain, action: Action)
    requires ClientsInv(c, peer) && c.host.nextClientSequence < TWO_64 - 1 && Transact(c, peer, action).Ok?
    ensures var d := Transact(c, peer, action).value;
            ClientsStep(c, d, peer) && d.blocks == c.blocks
  {
    hide Transact, ClientsInv, ClientsStep;
    match action
    case CreateClient(clientType, height, client) => CreateStep(c, peer, clientType, height, client);
    case UpdateClient(clientId, height) => UpdateStep(c, peer, clientId, height);
    case _ =>
      OthersKeepClients(c, peer, action);
      KeptStep(c, Transact(c, peer, action).value, peer);
  }

  /** Blocks are only added. */
  lemma MoreBlocks(c: Chain, peer: Chain, later: Chain)
    requires ClientsInv(c, peer) && peer.blocks <= later.blocks
    ensures ClientsInv(c, later)
  {
    hide TypesInv;
  }

  lemma ApplyClients(c: Chain, peer: Chain, step: Step)
    requires ClientsInv(c, peer) && c.host.nextClientSequence < TWO_64 - 1
    ensures var d := Apply(c, peer, step);
            ClientsStep(c, d, peer) && c.blocks <= d.blocks
  {
    hide Transact, TypesInv, ShownInv;
    match step
    case Seal(_, timestamp) =>
    case Submit(_, action) =>
      if Transact(c, peer, action).Ok? {
        TransactClients(c, peer, action);
      }
  }

  // ----- Runs -----

  ghost predicate WorldClients(w: World, n: nat) {
    && ClientsInv(w.a, w.b) && ClientsInv(w.b, w.a)
    && w.a.host.nextClientSequence <= n && w.b.host.nextClientSequence <= n
  }

  lemma NextClients(w: World, step: Step, n: nat)
    requires WorldClients(w, n) && n < TWO_64 - 1
    ensures WorldClients(Next(w, step), n + 1)
    ensures ClientsAdvance(w.a, Next(w, step).a) && ClientsAdvance(w.b, Next(w, step).b)
  {
    hide Apply, ClientsInv;
    if step.onA {
      ApplyClients(w.a, w.b, step);
      MoreBlocks(w.b, w.a, Next(w, step).a);
    } else {
      ApplyClients(w.b, w.a, step);
      MoreBlocks(w.a, w.b, Next(w, step).b);
    }
  }

  lemma GenesisClients(s: ChainSetup, other: ChainSetup)
    ensures ClientsInv(Genesis(s), Genesis(other))
  {
  }

  /** In every run each client has a registered type and a number, and knows only blocks of the peer. */
  lemma {:induction false} RunClients(setup: Setup, steps: seq<Step>)
    requires |steps| < TWO_64 - 1
    ensures WorldClients(Run(setup, steps), |steps|)
  {
    hide Next, ClientsInv;
    if steps == [] {
      GenesisClients(setup.a, setup.b);
      GenesisClients(setup.b, setup.a);
    } else {
      RunClients(setup, steps[..|steps| - 1]);
      NextClients(Run(setup, steps[..|steps| - 1]), steps[|steps| - 1], |steps| - 1);
    }
  }

  lemma AdvanceTransitive(c: Chain, d: Chain, e: Chain)
    requires ClientsAdvance(c, d) && ClientsAdvance(d, e)
    ensures ClientsAdvance(c, e)
  {
  }

  /** Whatever happens later, no client goes back in height or forgets a block. */
  lemma {:induction false} ClientsOnlyAdvance(setup: Setup, steps: seq<Step>, more: seq<Step>)
    requires |steps + more| < TWO_64 - 1
    ensures ClientsAdvance(Run(setup, steps).a, Run(setup, steps + more).a)
    ensures ClientsAdvance(Run(setup, steps).b, Run(setup, steps + more).b)
    decreases |more|
  {
    hide Next, WorldClients;
    if more == [] {
      assert steps + more == steps;
    } else {
      hide ClientsAdvance;
      var before := more[..|more| - 1];
      assert (steps + more)[..|steps + more| - 1] == steps + before;
      ClientsOnlyAdvance(setup, steps, before);
      RunClients(setup, steps + before);
      var w, v, u := Run(setup, steps), Run(setup, steps + before), Run(setup, steps + more);
      NextClients(v, more[|more| - 1], |steps + before|);
      AdvanceTransitive(w.a, v.a, u.a);
      AdvanceTransitive(w.b, v.b, u.b);
    }
  }
}
