/**
 What the theorems are about does happen: between clients that accept and prove everything, as
 the mock client does for tests, two fresh chains open a connection and a channel, ordered or
 not, and a transfer over it is paid out. On the unordered channel its acknowledgement then
 goes through; on the ordered one it is turned away, now and for ever.
 */
module Witness {
  import opened Prelude
  import opened IBCIdentifier
  import opened IBCTypes
  import opened HostSpec
  import AppMessages
  import opened BankSpec
  import opened TransferSpec
  import opened AddressText
  import opened ChainSpec
  import opened World
  import opened ProtocolInvariant
  import opened PacketSteps
  import opened Conservation
  import opened MoneySteps
  import opened History
  import opened Books
  import opened Continuation
  import opened Theorems
  import opened Timeouts
  import opened Completion
  import opened Opening
  import opened ChannelOpening
  import opened PacketAcceptance
  import ClientSpec
  import ConnectionSpec
  import ChannelSpec

  // ----- The two chains and the transfer -----

  const CLIENT_TYPE: Bytes := [109, 111, 99, 107, 45, 99, 108, 105, 101, 110, 116]  // "mock-client"
  const PORT: Bytes := [116, 114, 97, 110, 115, 102, 101, 114]  // "transfer"
  const VERSION: Bytes := [105, 99, 115, 50, 48, 45, 49]  // "ics20-1"

  /** The first client of a chain. */
  function FirstClient(): Bytes {
    ClientId(CLIENT_TYPE, 0)
  }

  ghost predicate Trusting(l: LightClient) {
    (forall id, height :: l.accepts(id, height)) && (forall digest :: l.proves(digest))
  }

  /** Two deployed applications over trusting clients. */
  ghost predicate Trusted(setup: Setup) {
    && setup.a.app != ZERO_ADDRESS && setup.b.app != ZERO_ADDRESS
    && Trusting(setup.a.lightClient) && Trusting(setup.b.lightClient)
  }

  /** Tokens that someone holds on one chain and sends to someone on the other. */
  datatype Remittance = Remittance(token: Address, amount: uint64, sender: Address, receiver: Address)

  function Denom(r: Remittance): Bytes {
    AddressToString(r.token)
  }

  // ----- Clients and ports -----

  /** Nothing was sent or received, and the bank is as given. */
  ghost predicate Idle(c: Chain, s: ChainSetup, bank: BankState) {
    && c.sent == [] && c.host.store.acknowledgements == map[] && c.bank == bank
    && c.app.address == s.app && c.host.lightClient == s.lightClient
  }

  /** A client and a port are in place. */
  ghost predicate Equipped(c: Chain, s: ChainSetup, bank: BankState) {
    Idle(c, s, bank) && Working(c, FirstClient()) && Current(c, FirstClient()) && Bound(c, PORT)
  }

  lemma PortSlashFree()
    ensures SlashFree(PORT)
  {
  }

  lemma FirstClientCreated(c: Chain, peer: Chain, onA: bool, s: ChainSetup)
    requires c == SealBlock(Genesis(s), 0) && |peer.blocks| == 1
    ensures var c1 := Apply(c, peer, Submit(onA, Action.RegisterClient(CLIENT_TYPE)));
            var d := Apply(c1, peer, Submit(onA, Action.CreateClient(CLIENT_TYPE, 0, ClientState(0, []))));
            && Idle(d, s, BankState(map[])) && Working(d, FirstClient()) && Current(d, FirstClient())
            && d.host.capabilities == map[] && d.erc20Held == map[] && d.blocks == c.blocks
  {
    hide ClientId;
  }

  lemma PortBound(c: Chain, peer: Chain, onA: bool, s: ChainSetup, bank: BankState)
    requires Idle(c, s, bank) && Working(c, FirstClient()) && Current(c, FirstClient())
    requires c.host.capabilities == map[]
    ensures var d := Apply(c, peer, Submit(onA, Action.BindPort(PORT)));
            Equipped(d, s, bank) && d.erc20Held == c.erc20Held && d.blocks == c.blocks
  {
    hide ClientId, SlashFree;
    PortSlashFree();
  }

  lemma Equips(w: World, onA: bool, s: ChainSetup)
    requires Side(w, onA) == SealBlock(Genesis(s), 0) && |Side(w, !onA).blocks| == 1
    ensures exists v :: && Leads(w, v, 3) && Equipped(Side(v, onA), s, BankState(map[]))
                        && Side(v, onA).erc20Held == map[] && |Side(v, onA).blocks| == 1 && Side(v, !onA) == Side(w, !onA)
  {
    hide Apply, Next, Leads, Equipped, Working, Current, FirstClient;
    var c, peer := Side(w, onA), Side(w, !onA);
    var register := Submit(onA, Action.RegisterClient(CLIENT_TYPE));
    var create := Submit(onA, Action.CreateClient(CLIENT_TYPE, 0, ClientState(0, [])));
    var bind := Submit(onA, Action.BindPort(PORT));
    LeadsNow(w);
    LeadsNext(w, w, 0, register);
    var w1 := Next(w, register);
    NextSides(w, register);
    LeadsNext(w, w1, 1, create);
    var w2 := Next(w1, create);
    NextSides(w1, create);
    FirstClientCreated(c, peer, onA, s);
    LeadsNext(w, w2, 2, bind);
    NextSides(w2, bind);
    PortBound(Side(w2, onA), peer, onA, s, BankState(map[]));
  }

  /** The ledger after the first deposit. */
  function FirstDeposit(r: Remittance): BankState {
    Credit(BankState(map[]), Denom(r), r.sender, r.amount)
  }

  lemma Deposited(c: Chain, peer: Chain, onA: bool, s: ChainSetup, r: Remittance)
    requires Equipped(c, s, BankState(map[])) && c.erc20Held == map[]
    ensures Equipped(Apply(c, peer, Submit(onA, Action.Deposit(r.token, r.amount, r.sender, true))), s, FirstDeposit(r))
  {
    hide SlashFree, ClientId, AddressToString;
  }

  /** Both chains are equipped, and the sender of the transfer has the tokens. */
  ghost predicate Prepared(w: World, setup: Setup, r: Remittance) {
    Equipped(w.a, setup.a, FirstDeposit(r)) && Equipped(w.b, setup.b, BankState(map[]))
  }

  lemma Prepares(setup: Setup, r: Remittance)
    ensures exists w :: Leads(Run(setup, []), w, 9) && Prepared(w, setup, r)
  {
    hide Apply, Leads, Equipped, Steps;
    var w := Run(setup, []);
    LeadsNow(w);
    LeadsNext(w, w, 0, Seal(true, 0));
    var w1 := Next(w, Seal(true, 0));
    SealApplied(w.a, w.b, Seal(true, 0));
    LeadsNext(w, w1, 1, Seal(false, 0));
    var w2 := Next(w1, Seal(false, 0));
    SealApplied(w1.b, w1.a, Seal(false, 0));
    Equips(w2, true, setup.a);
    var w5 :| && Leads(w2, w5, 3) && Equipped(Side(w5, true), setup.a, BankState(map[]))
              && Side(w5, true).erc20Held == map[] && |Side(w5, true).blocks| == 1 && Side(w5, false) == Side(w2, false);
    Equips(w5, false, setup.b);
    var w8 :| && Leads(w5, w8, 3) && Equipped(Side(w8, false), setup.b, BankState(map[]))
              && Side(w8, false).erc20Held == map[] && |Side(w8, false).blocks| == 1 && Side(w8, true) == Side(w5, true);
    LeadsJoin(w, w2, w5, 2, 3);
    LeadsJoin(w, w5, w8, 5, 3);
    var deposit := Submit(true, Action.Deposit(r.token, r.amount, r.sender, true));
    Deposited(w8.a, w8.b, true, setup.a, r);
    LeadsNext(w, w8, 8, deposit);
    assert Prepared(Next(w8, deposit), setup, r);
  }

  // ----- The connection and the channel -----

  /** An open connection over the first client. */
  ghost predicate Connected(c: Chain, s: ChainSetup, bank: BankState, hop: Bytes, other: Bytes) {
    && Equipped(c, s, bank) && Joins(c, hop, other) && ClientUnder(c, hop) == FirstClient()
  }

  lemma StaysEquipped(c: Chain, d: Chain, s: ChainSetup, bank: BankState, hop: Bytes, other: Bytes)
    requires Equipped(c, s, bank) && ConnectionsOnly(c, d) && ClientsStay(c, d)
    requires HasEnd(d, hop, Opened(FirstClient(), FirstClient(), other))
    ensures Connected(d, s, bank, hop, other)
  {
    hide FirstClient, SlashFree, ConnectionSpec.GetVersions;
  }

  /** The identifiers of the first connection do not matter. */
  ghost predicate ConnectedBy(w: World, setup: Setup, r: Remittance, hop: Bytes, other: Bytes) {
    Connected(w.a, setup.a, FirstDeposit(r), hop, other) && Connected(w.b, setup.b, BankState(map[]), other, hop)
  }

  lemma Connects(setup: Setup, r: Remittance)
    requires Trusted(setup)
    ensures exists w, hop, other :: Leads(Run(setup, []), w, 19) && ConnectedBy(w, setup, r, hop, other)
  {
    hide Leads, Run, Sound, Connected, FirstClient, ConnectionId, ConnectionOpens, Prepared, ConnectionsOnly, ClientsStay;
    Prepares(setup, r);
    var w0 := Run(setup, []);
    var w :| Leads(w0, w, 9) && Prepared(w, setup, r);
    RunSound(setup, []);
    LeadsSound(w0, w, 9, 0);
    ProvablePrepared(w, setup, r);
    var client := FirstClient();
    ConnectionCompletes(w, 9, true, client, client);
    var hop := ConnectionId(Side(w, true).host.nextConnectionSequence);
    var other := ConnectionId(Side(w, !true).host.nextConnectionSequence);
    var v :| Leads(w, v, 10) && ConnectionOpens(w, v, true, client, client, hop, other);
    LeadsJoin(w0, w, v, 9, 10);
    PreparedConnects(w, v, setup, r, hop, other);
  }

  lemma ProvablePrepared(w: World, setup: Setup, r: Remittance)
    requires Trusted(setup) && Prepared(w, setup, r) && Sound(w, 9)
    ensures ConnectionProvable(Side(w, true), Side(w, !true), FirstClient(), FirstClient())
  {
    hide Sound, FirstClient, ConnectionId, SlashFree, Bound, Current, ClientSpec.Advance, Begun, Tried, Opened;
    hide HasClientImpl, Sides;
    SideSound(w, true, 9);
    SideSound(w, false, 9);
  }

  lemma PreparedConnects(w: World, v: World, setup: Setup, r: Remittance, hop: Bytes, other: Bytes)
    requires Prepared(w, setup, r)
    requires ConnectionOpens(w, v, true, FirstClient(), FirstClient(), hop, other)
    ensures ConnectedBy(v, setup, r, hop, other)
  {
    hide Equipped, Connected, FirstClient, ConnectionsOnly, ClientsStay, HasEnd, Opened;
    StaysEquipped(w.a, v.a, setup.a, FirstDeposit(r), hop, other);
    StaysEquipped(w.b, v.b, setup.b, BankState(map[]), other, hop);
  }

  /** An open channel end that has neither sent nor received. */
  ghost predicate Channeled(c: Chain, s: ChainSetup, bank: BankState, key: ChannelKey, end: Channel) {
    && Idle(c, s, bank) && HasChannel(c, key, end) && Unused(c, key) && end.state == CHAN_OPEN
    && |end.connectionHops| == 1
    && (exists other :: Joins(c, end.connectionHops[0], other) && Current(c, ClientUnder(c, end.connectionHops[0])))
  }

  lemma StaysConnected(c: Chain, d: Chain, s: ChainSetup, bank: BankState, ordering: Order, key: ChannelKey, other: ChannelKey,
                       hop: Bytes, otherHop: Bytes)
    requires Connected(c, s, bank, hop, otherHop) && ChannelsTouched(c, d)
    requires HasChannel(d, key, OpenEnd(ordering, other, hop, VERSION)) && Unused(d, key)
    ensures Channeled(d, s, bank, key, OpenEnd(ordering, other, hop, VERSION))
  {
    hide FirstClient, SlashFree, Unused, Working, Joins, HasChannel, Current;
    JoinsStays(c, d, hop, otherHop);
    JoinsOver(d, hop, otherHop);
    assert Joins(d, OpenEnd(ordering, other, hop, VERSION).connectionHops[0], otherHop);
  }

  /** Two ends of one channel. */
  ghost predicate Paired(w: World, setup: Setup, r: Remittance, ordering: Order, key: ChannelKey, other: ChannelKey,
                         hop: Bytes, otherHop: Bytes)
  {
    && other.portId == PORT
    && Channeled(w.a, setup.a, FirstDeposit(r), key, OpenEnd(ordering, other, hop, VERSION))
    && Channeled(w.b, setup.b, BankState(map[]), other, OpenEnd(ordering, key, otherHop, VERSION))
  }

  lemma OpensChannel(setup: Setup, r: Remittance, ordering: Order)
    requires Trusted(setup)
    ensures exists w, key, other, hop, otherHop ::
              Leads(Run(setup, []), w, 29) && Paired(w, setup, r, ordering, key, other, hop, otherHop)
  {
    hide Leads, Run, Sound, ConnectedBy, ChannelOpens, ChannelProvable, Paired;
    Connects(setup, r);
    var w0 := Run(setup, []);
    var w, hop, otherHop :| Leads(w0, w, 19) && ConnectedBy(w, setup, r, hop, otherHop);
    RunSound(setup, []);
    LeadsSound(w0, w, 19, 0);
    var q := Proposal(ordering, PORT, PORT, hop, otherHop, VERSION);
    ProvableConnected(w, setup, r, q);
    ChannelCompletes(w, 19, true, q);
    var v :| Leads(w, v, 10) && ChannelOpens(w, v, true, q);
    LeadsJoin(w0, w, v, 19, 10);
    ConnectedOpens(w, v, setup, r, q);
    var key, other := NextKey(w.a, PORT), NextKey(w.b, PORT);
    assert Paired(v, setup, r, ordering, key, other, hop, otherHop);
  }

  lemma ProvableConnected(w: World, setup: Setup, r: Remittance, q: Proposal)
    requires Trusted(setup) && ConnectedBy(w, setup, r, q.hop, q.otherHop) && Sound(w, 19)
    requires q.port == PORT == q.otherPort
    ensures ChannelProvable(Side(w, true), Side(w, !true), q)
  {
    hide Sound, FirstClient, ChannelId, SlashFree, Bound, Current, Working, Joins, BegunEnd, TriedEnd, OpenEnd;
    hide Sides;
    SideSound(w, true, 19);
    SideSound(w, false, 19);
  }

  lemma ConnectedOpens(w: World, v: World, setup: Setup, r: Remittance, q: Proposal)
    requires ConnectedBy(w, setup, r, q.hop, q.otherHop) && ChannelOpens(w, v, true, q)
    requires q.port == PORT == q.otherPort && q.version == VERSION
    ensures Paired(v, setup, r, q.ordering, NextKey(w.a, PORT), NextKey(w.b, PORT), q.hop, q.otherHop)
  {
    hide Connected, ChannelsTouched, HasChannel, Unused, OpenEnd, Channeled, ChannelId;
    StaysConnected(w.a, v.a, setup.a, FirstDeposit(r), q.ordering, NextKey(w.a, PORT), NextKey(w.b, PORT), q.hop, q.otherHop);
    StaysConnected(w.b, v.b, setup.b, BankState(map[]), q.ordering, NextKey(w.b, PORT), NextKey(w.a, PORT), q.otherHop, q.hop);
  }

  // ----- The transfer -----

  function TransferOf(r: Remittance, key: ChannelKey): Transfer {
    Transfer(r.sender, Denom(r), r.amount, r.receiver, key.portId, key.channelId, 0)
  }

  /** What a denomination that is a token's address is not. */
  lemma NotAVoucher(r: Remittance, port: Bytes, channel: Bytes)
    ensures !IsVoucher(port, channel, Denom(r)) && |Denom(r)| < TWO_62
  {
    AddressToStringSlashFree(r.token);
    HexTextShape(r.token);
    assert DenomPrefix(port, channel)[|port|] == SLASH;
  }

  /** The sender of the transfer is an ordinary account. */
  predicate Ordinary(setup: Setup, r: Remittance) {
    r.sender != setup.a.app && r.sender != ZERO_ADDRESS
  }

  lemma Affordable(c: Chain, r: Remittance, key: ChannelKey)
    requires c.bank == FirstDeposit(r) && key.channelId in c.app.escrows
    requires c.app.escrows[key.channelId] == c.app.address != ZERO_ADDRESS
    ensures TakeTokens(c.bank, c.app, TransferOf(r, key)).Ok?
    ensures r.sender != c.app.address ==>
              BalanceOf(TakeTokens(c.bank, c.app, TransferOf(r, key)).value, Denom(r), r.sender) == 0
  {
    hide IsVoucher, Denom;
    NotAVoucher(r, key.portId, key.channelId);
  }

  /** The packet of the transfer. */
  function FirstPacket(r: Remittance, key: ChannelKey, end: Channel): SendEvent {
    TransferEvent(TransferOf(r, key), 1, end)
  }

  lemma HostSends(c: Chain, s: ChainSetup, bank: BankState, r: Remittance, key: ChannelKey, end: Channel)
    requires Channeled(c, s, bank, key, end)
    ensures ChannelSpec.SendPacket(c.host, FirstPacket(r, key, end).packet).Ok?
  {
    hide Idle, AppMessages.Encode, Denom, MakePacketCommitment, HasClientImpl;
    var other :| Joins(c, end.connectionHops[0], other) && Current(c, ClientUnder(c, end.connectionHops[0]));
    Implemented(c, ClientUnder(c, end.connectionHops[0]));
  }

  lemma Implemented(c: Chain, id: Bytes)
    requires Working(c, id)
    ensures HasClientImpl(c.host, id)
  {
  }

  lemma EndReady(c: Chain, s: ChainSetup, bank: BankState, key: ChannelKey, end: Channel)
    requires Channeled(c, s, bank, key, end)
    ensures Ready(c, key)
  {
    hide Idle, Working, Current, Unused;
  }

  lemma Sends(c: Chain, peer: Chain, setup: Setup, r: Remittance, key: ChannelKey, end: Channel)
    requires Sides(c, peer) && Ordinary(setup, r) && Channeled(c, setup.a, FirstDeposit(r), key, end)
    ensures ChainSpec.SendTransfer(c, TransferOf(r, key)).Ok?
    ensures BalanceOf(ChainSpec.SendTransfer(c, TransferOf(r, key)).value.bank, Denom(r), r.sender) == 0
  {
    hide Sides, FirstDeposit, Denom, TakeTokens, ChannelSpec.SendPacket, ChannelCapabilityPath, AuthenticateCapability;
    hide BalanceOf, AppMessages.Encode, BookInv, LocalInv, Joins, Current;
    SidesBooks(c, peer);
    CapabilityStored(c, key);
    EscrowStored(c, key);
    Affordable(c, r, key);
    NotAVoucher(r, key.portId, key.channelId);
    HostSends(c, setup.a, FirstDeposit(r), r, key, end);
  }

  lemma SidesBooks(c: Chain, peer: Chain)
    requires Sides(c, peer)
    ensures BookInv(c) && LocalInv(c)
  {
    hide LocalInv, Links, MoneyInv, OrderedInv, BookInv;
  }

  /** The packet is on its way. */
  ghost predicate Dispatched(c: Chain, d: Chain, e: SendEvent) {
    && d.sent == [e] && SourcePacketKey(e.packet) in d.host.store.packetCommitments
    && d.blocks == c.blocks && d.host.lightClient == c.host.lightClient
    && d.host.store.channels == c.host.store.channels && Ready(d, SourceKey(e.packet))
    && d.app == c.app && d.host.nextSequenceRecvs == c.host.nextSequenceRecvs
  }

  lemma SendApplied(c: Chain, peer: Chain, onA: bool, setup: Setup, r: Remittance, key: ChannelKey, end: Channel)
    requires Sides(c, peer) && Ordinary(setup, r) && Channeled(c, setup.a, FirstDeposit(r), key, end)
    ensures var d := Apply(c, peer, Submit(onA, Action.SendTransfer(TransferOf(r, key))));
            Dispatched(c, d, FirstPacket(r, key, end)) && BalanceOf(d.bank, Denom(r), r.sender) == 0
  {
    hide Sides, FirstDeposit, Denom, TakeTokens, ChainSpec.SendTransfer, AppMessages.Encode, Joins, Current, Working;
    hide MakePacketCommitment, BalanceOf;
    Sends(c, peer, setup, r, key, end);
    SendShape(c, TransferOf(r, key));
    EndReady(c, setup.a, FirstDeposit(r), key, end);
    ReadyOverSame(c, ChainSpec.SendTransfer(c, TransferOf(r, key)).value, key);
  }

  lemma ReadyOverSame(c: Chain, d: Chain, key: ChannelKey)
    requires Ready(c, key)
    requires d.host.store.channels == c.host.store.channels && d.host.store.connections == c.host.store.connections
    requires d.host.store.clientStates == c.host.store.clientStates
    requires d.host.clientTypes == c.host.clientTypes && d.host.clientImpls == c.host.clientImpls
    ensures Ready(d, key)
  {
  }


  /** The receiver's end takes the packet, and its client the next block. */
  lemma AwaitsFirst(d: Chain, peer: Chain, s: ChainSetup, bank: BankState, r: Remittance, ordering: Order, key: ChannelKey,
                    other: ChannelKey, hop: Bytes, otherHop: Bytes)
    requires d.sent == [FirstPacket(r, key, OpenEnd(ordering, other, hop, VERSION))] && ordering != ORDER_NONE
    requires Channeled(peer, s, bank, other, OpenEnd(ordering, key, otherHop, VERSION))
    ensures Waiting(d, peer, 0)
  {
    hide Joins, Current, Denom, AppMessages.Encode, Ready;
    EndReady(peer, s, bank, other, OpenEnd(ordering, key, otherHop, VERSION));
  }

  /** Between trusting clients nothing but lateness stops a packet. */
  lemma InTime(p: Packet, c: Chain)
    requires Trusting(c.host.lightClient) && p.timeoutHeight.revisionHeight == 0 && p.timeoutTimestamp == 0
    ensures !Unreceivable(p, c)
  {
    hide MakePacketCommitment;
  }

  lemma Accepting(c: Chain, peer: Chain, key: ChannelKey)
    requires Ready(c, key) && Trusting(c.host.lightClient) && |peer.blocks| < TWO_64
    ensures AcceptsNext(c, peer, key)
  {
    hide Ready;
  }

  /** The first packet is paid out in vouchers. */
  lemma PaysFirst(c: Chain, d: Chain, r: Remittance, key: ChannelKey, end: Channel)
    requires c.bank == BankState(map[]) && Settled(c, d, FirstPacket(r, key, end).packet)
    ensures var p := FirstPacket(r, key, end).packet;
            && Answered(d, p, ACK_SUCCESS)
            && BalanceOf(d.bank, DenomPrefix(p.destinationPort, p.destinationChannel) + Denom(r), r.receiver) == r.amount
  {
    hide AppMessages.Encode, AppMessages.Decode, Denom, Answered, IsVoucher, DenomPrefix;
    var data := AppMessages.FungibleTokenPacketData(Denom(r), r.amount, r.sender, r.receiver);
    NotAVoucher(r, key.portId, key.channelId);
    DataRoundTrip(data);
  }

  /** The receiver's end can send the next packet, and the sender's end takes it. */
  ghost predicate WayBack(w: World, key: ChannelKey, other: ChannelKey) {
    && Ready(w.b, other) && Current(w.b, Under(w.b, other).clientId)
    && other.portId == PORT && CounterpartyKey(w.b.host.store.channels[other]) == key
    && SequenceAt(w.a.host.nextSequenceRecvs, key) == SequenceAt(w.b.host.nextSequenceSends, other)
  }

  /**
   The transfer was paid out to its receiver on a channel of the given ordering, the sending
   chain has not heard of it yet, and its client would accept the next block.
   */
  ghost predicate PaidOut(w: World, setup: Setup, r: Remittance, ordering: Order) {
    && |w.a.sent| == 1
    && var e := w.a.sent[0];
    && BalanceOf(w.a.bank, Denom(r), r.sender) == 0
    && w.a.app.address == setup.a.app && w.b.app.address == setup.b.app
    && WayBack(w, SourceKey(e.packet), DestinationKey(e.packet))
    && e.data == AppMessages.FungibleTokenPacketData(Denom(r), r.amount, r.sender, r.receiver)
    && Due(w.a, w.b, 0, ACK_SUCCESS) && AcceptsNext(w.a, w.b, SourceKey(e.packet))
    && w.a.host.store.channels[SourceKey(e.packet)].ordering == ordering
    && Trusting(w.a.host.lightClient)
    && BalanceOf(w.b.bank, DenomPrefix(e.packet.destinationPort, e.packet.destinationChannel) + Denom(r), r.receiver) == r.amount
  }

  lemma PaidParts(w: World, setup: Setup, r: Remittance, ordering: Order)
    requires PaidOut(w, setup, r, ordering)
    ensures |w.a.sent| == 1
    ensures Due(w.a, w.b, 0, ACK_SUCCESS) && AcceptsNext(w.a, w.b, SourceKey(w.a.sent[0].packet))
    ensures w.a.host.store.channels[SourceKey(w.a.sent[0].packet)].ordering == ordering
    ensures w.a.host.lightClient.proves(AckDigest(ACK_SUCCESS))
  {
    hide Answered, WayBack, BalanceOf, Working;
  }

  lemma Remits(setup: Setup, r: Remittance, ordering: Order)
    requires Trusted(setup) && Ordinary(setup, r) && ordering != ORDER_NONE
    ensures exists w :: Leads(Run(setup, []), w, 33) && PaidOut(w, setup, r, ordering)
  {
    hide Leads, Run, Sound, Paired, PaidOut, Apply, Next;
    OpensChannel(setup, r, ordering);
    var w0 := Run(setup, []);
    var w, key, other, hop, otherHop :| Leads(w0, w, 29) && Paired(w, setup, r, ordering, key, other, hop, otherHop);
    RunSound(setup, []);
    LeadsSound(w0, w, 29, 0);
    var send := Submit(true, Action.SendTransfer(TransferOf(r, key)));
    LeadsNext(w0, w, 29, send);
    var v := Next(w, send);
    LeadsSound(w0, v, 30, 0);
    DispatchesFirst(w, setup, r, ordering, key, other, hop, otherHop);
    DeliversFirst(w, v, setup, r, ordering, key, other, hop, otherHop);
    var u :| Leads(v, u, 3) && PaidOut(u, setup, r, ordering);
    LeadsJoin(w0, v, u, 30, 3);
  }

  lemma DispatchesFirst(w: World, setup: Setup, r: Remittance, ordering: Order, key: ChannelKey, other: ChannelKey,
                        hop: Bytes, otherHop: Bytes)
    requires Sound(w, 29) && Ordinary(setup, r) && Paired(w, setup, r, ordering, key, other, hop, otherHop)
    ensures var v := Next(w, Submit(true, Action.SendTransfer(TransferOf(r, key))));
            && v.b == w.b && Dispatched(w.a, v.a, FirstPacket(r, key, OpenEnd(ordering, other, hop, VERSION)))
            && BalanceOf(v.a.bank, Denom(r), r.sender) == 0
  {
    hide Sound, Apply, Sides, Channeled, Dispatched, Ordinary, FirstPacket, OpenEnd, TransferOf, BalanceOf;
    SideSound(w, true, 29);
    SendApplied(w.a, w.b, true, setup, r, key, OpenEnd(ordering, other, hop, VERSION));
  }

  lemma DeliversFirst(w: World, v: World, setup: Setup, r: Remittance, ordering: Order, key: ChannelKey, other: ChannelKey,
                      hop: Bytes, otherHop: Bytes)
    requires Trusted(setup) && ordering != ORDER_NONE && Sound(v, 30)
    requires Paired(w, setup, r, ordering, key, other, hop, otherHop) && v.b == w.b
    requires Dispatched(w.a, v.a, FirstPacket(r, key, OpenEnd(ordering, other, hop, VERSION)))
    requires BalanceOf(v.a.bank, Denom(r), r.sender) == 0
    ensures exists u :: Leads(v, u, 3) && PaidOut(u, setup, r, ordering)
  {
    hide Leads, Sound, Ready, Waiting, AcceptsNext, Settled, AppMessages.Encode, Denom, Joins, Current, Sides;
    hide Unreceivable, MakePacketCommitment, StaysReady, WayBack, Channeled, BalanceOf, Trusting;
    var end := OpenEnd(ordering, other, hop, VERSION);
    var e := FirstPacket(r, key, end);
    ChanneledParts(w.a, setup.a, FirstDeposit(r), key, end);
    ChanneledParts(w.b, setup.b, BankState(map[]), other, OpenEnd(ordering, key, otherHop, VERSION));
    AwaitsFirst(v.a, v.b, setup.b, BankState(map[]), r, ordering, key, other, hop, otherHop);
    InTime(e.packet, v.b);
    EndReady(v.b, setup.b, BankState(map[]), other, OpenEnd(ordering, key, otherHop, VERSION));
    SideSound(v, true, 30);
    SideSound(v, false, 30);
    Accepting(v.b, v.a, other);
    Receipt(v, 30, true, 0);
    var u :| Leads(v, u, 3) && ReceivedBy(v, u, true, 0);
    PaysFirst(v.b, u.b, r, key, end);
    LeadsSound(v, u, 3, 30);
    SideSound(u, false, 33);
    SealedReady(v.a, key);
    Accepting(u.a, u.b, key);
    DueNow(u.a, u.b, e);
    LeadsBack(w, v, u, setup, r, ordering, key, other, hop, otherHop);
    assert PaidOut(u, setup, r, ordering);
  }

  lemma ChanneledParts(c: Chain, s: ChainSetup, bank: BankState, key: ChannelKey, end: Channel)
    requires Channeled(c, s, bank, key, end)
    ensures c.app.address == s.app && c.host.lightClient == s.lightClient && c.bank == bank
    ensures HasChannel(c, key, end) && Unused(c, key)
  {
    hide Joins, Current, Unused;
  }

  lemma LeadsBack(w: World, v: World, u: World, setup: Setup, r: Remittance, ordering: Order, key: ChannelKey,
                  other: ChannelKey, hop: Bytes, otherHop: Bytes)
    requires Paired(w, setup, r, ordering, key, other, hop, otherHop) && v.b == w.b && other.portId == PORT
    requires v.a.host.nextSequenceRecvs == w.a.host.nextSequenceRecvs
    requires v.a.sent == [FirstPacket(r, key, OpenEnd(ordering, other, hop, VERSION))]
    requires ReceivedBy(v, u, true, 0)
    ensures WayBack(u, key, other)
  {
    hide Idle, Joins, Settled, AppMessages.Encode, Denom, Working;
    var end := OpenEnd(ordering, key, otherHop, VERSION);
    var far :| Joins(w.b, otherHop, far) && Current(w.b, ClientUnder(w.b, otherHop));
    assert Under(w.b, other) == w.b.host.store.connections[otherHop];
  }

  lemma DueNow(c: Chain, peer: Chain, e: SendEvent)
    requires c.sent == [e] && SourcePacketKey(e.packet) in c.host.store.packetCommitments
    requires Ready(c, SourceKey(e.packet)) && Answered(peer, e.packet, ACK_SUCCESS)
    ensures Due(c, peer, 0, ACK_SUCCESS)
  {
    hide Ready, Answered;
  }

  // ----- The results -----

  /**
   The run ends with the transfer paid out, and some continuation acknowledges it exactly on
   an unordered channel.
   */
  ghost predicate PaidAndSettled(setup: Setup, steps: seq<Step>, r: Remittance, ordering: Order) {
    var w := Run(setup, steps);
    && ShortRun(setup, steps) && PaidOut(w, setup, r, ordering)
    && ((exists more :: AcknowledgedIn(setup, steps + more, true, w.a.sent[0].packet)) <==> ordering == ORDER_UNORDERED)
  }

  /**
   Any amount can be deposited, sent over a channel opened from scratch, and paid out to its
   receiver. If the channel is unordered, the sender's chain can then be told; if it is
   ordered, no continuation does.
   */
  lemma TransfersHappen(setup: Setup, r: Remittance, ordering: Order)
    requires Trusted(setup) && Ordinary(setup, r) && ordering in {ORDER_UNORDERED, ORDER_ORDERED}
    ensures exists steps :: PaidAndSettled(setup, steps, r, ordering)
  {
    hide Run, Leads, Due, AcceptsNext, AcknowledgedIn, Ordinary, PaidOut;
    Remits(setup, r, ordering);
    var w :| Leads(Run(setup, []), w, 33) && PaidOut(w, setup, r, ordering);
    LeadsRun(setup, [], w, 33);
    var steps: seq<Step> :| |steps| == 33 && Run(setup, [] + steps) == w;
    assert [] + steps == steps;
    PaidParts(w, setup, r, ordering);
    AcknowledgeableExactly(setup, steps, true, 0, ACK_SUCCESS);
    assert PaidAndSettled(setup, steps, r, ordering);
  }

  /** The acknowledgement that the other side wrote, proved, and still refused. */
  ghost predicate Refused(setup: Setup, steps: seq<Step>, r: Remittance, msg: MsgPacketAcknowledgement) {
    var w := Run(setup, steps);
    && ShortRun(setup, steps) && Due(w.a, w.b, 0, ACK_SUCCESS)
    && w.a.sent[0].data == AppMessages.FungibleTokenPacketData(Denom(r), r.amount, r.sender, r.receiver)
    && msg.packet == w.a.sent[0].packet && msg.acknowledgement == ACK_SUCCESS
    && var p := msg.packet;
    && ChannelSpec.VerifyPacketAcknowledgement(w.a.host, Under(w.a, SourceKey(p)), msg.proofHeight, msg.proof, p.destinationPort,
                                               p.destinationChannel, p.sequence, msg.acknowledgement)
    && ChainSpec.AcknowledgePacket(w.a, msg).Revert?
  }

  /** A transfer over an ordered channel that is received, and whose honest, proved acknowledgement is turned away. */
  lemma OrderedAcknowledgementRefused(setup: Setup, r: Remittance)
    requires Trusted(setup) && Ordinary(setup, r)
    ensures exists steps, msg :: Refused(setup, steps, r, msg)
  {
    hide Run, Leads, Sound, Informs, Ordinary, Denom, DenomPrefix, Refused, Due, AcceptsNext, Sides, PaidOut;
    Remits(setup, r, ORDER_ORDERED);
    var w0 := Run(setup, []);
    var w :| Leads(w0, w, 33) && PaidOut(w, setup, r, ORDER_ORDERED);
    PaidParts(w, setup, r, ORDER_ORDERED);
    RunSound(setup, []);
    LeadsSound(w0, w, 33, 0);
    SideSound(w, false, 33);
    Informed(w, 33, true, 0, ACK_SUCCESS);
    var v :| && Leads(w, v, 2) && Sound(v, 35)
             && Informs(Side(w, true), Side(v, true), Side(v, !true), 0, ACK_SUCCESS, |Side(w, !true).blocks|);
    LeadsJoin(w0, w, v, 33, 2);
    LeadsRun(setup, [], v, 35);
    var steps: seq<Step> :| |steps| == 35 && Run(setup, [] + steps) == v;
    assert [] + steps == steps;
    var msg := MsgPacketAcknowledgement(w.a.sent[0].packet, ACK_SUCCESS, [0], |w.b.blocks|);
    RefusedThere(setup, steps, w, r, msg);
  }

  lemma RefusedThere(setup: Setup, steps: seq<Step>, w: World, r: Remittance, msg: MsgPacketAcknowledgement)
    requires ShortRun(setup, steps) && PaidOut(w, setup, r, ORDER_ORDERED) && |w.b.blocks| < TWO_64
    requires Informs(w.a, Run(setup, steps).a, Run(setup, steps).b, 0, ACK_SUCCESS, |w.b.blocks|)
    requires msg == MsgPacketAcknowledgement(w.a.sent[0].packet, ACK_SUCCESS, [0], |w.b.blocks|)
    ensures Refused(setup, steps, r, msg)
  {
    hide Run, Denom, DenomPrefix, Knows, Working, ChainSpec.AcknowledgePacket, ChannelSpec.VerifyPacketAcknowledgement;
    var v := Run(setup, steps);
    VerifiesAck(v.a, Under(v.a, SourceKey(msg.packet)), |w.b.blocks|, v.b.host.store, msg.packet, ACK_SUCCESS);
    OrderedNeverAcknowledged(setup, steps, v.a, v.b, msg);
  }
}
