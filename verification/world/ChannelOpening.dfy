/**
 A channel can be opened over any open connection between bound ports, ordered or not: ten
 more steps do, if the clients accept the blocks and prove the ends that the handshake shows
 them.
 */
module ChannelOpening {
  import opened Prelude
  import opened IBCIdentifier
  import opened IBCTypes
  import opened HostSpec
  import opened ChainSpec
  import opened World
  import opened ProtocolInvariant
  import opened ChannelSteps
  import opened Conservation
  import opened History
  import opened Books
  import opened Continuation
  import opened Opening
  import ChannelSpec

  // ----- Ends and connections -----

  predicate HasChannel(c: Chain, key: ChannelKey, end: Channel) {
    key in c.host.store.channels && c.host.store.channels[key] == end
  }

  /** The ends the handshake goes through. */
  function BegunEnd(ordering: Order, port: Bytes, hop: Bytes, version: Bytes): Channel {
    Channel(CHAN_INIT, ordering, ChannelCounterparty(port, []), [hop], version)
  }

  function TriedEnd(ordering: Order, other: ChannelKey, hop: Bytes, version: Bytes): Channel {
    Channel(CHAN_TRYOPEN, ordering, ChannelCounterparty(other.portId, other.channelId), [hop], version)
  }

  function OpenEnd(ordering: Order, other: ChannelKey, hop: Bytes, version: Bytes): Channel {
    TriedEnd(ordering, other, hop, version).(state := CHAN_OPEN)
  }

  /** An open connection end that names `other`, with one version and a working client. */
  predicate Joins(c: Chain, hop: Bytes, other: Bytes) {
    && hop in c.host.store.connections
    && var end := c.host.store.connections[hop];
    && end.state == CONN_OPEN && end.counterparty.connectionId == other && end.counterparty.prefix != []
    && |end.versions| == 1 && Working(c, end.clientId)
  }

  function ClientUnder(c: Chain, hop: Bytes): Bytes
    requires hop in c.host.store.connections
  {
    c.host.store.connections[hop].clientId
  }

  /** The application is bound to the port. */
  predicate Bound(c: Chain, port: Bytes) {
    SlashFree(port) && port in c.host.capabilities
  }

  /** A channel end that has neither sent nor received. */
  predicate Unused(c: Chain, key: ChannelKey) {
    && key in c.host.nextSequenceSends && c.host.nextSequenceSends[key] == 1
    && key in c.host.nextSequenceRecvs && c.host.nextSequenceRecvs[key] == 1
  }

  // ----- What the handshake leaves alone -----

  /** Only channels, client states and blocks change; old counters, names and clients stay. */
  ghost predicate ChannelsTouched(c: Chain, d: Chain) {
    && d == c.(host := d.host, app := d.app, blocks := d.blocks, channelOrigins := d.channelOrigins,
               channelLog := d.channelLog)
    && d.app.address == c.app.address
    && d.host == c.host.(store := d.host.store, nextSequenceSends := d.host.nextSequenceSends,
                         nextSequenceRecvs := d.host.nextSequenceRecvs, nextSequenceAcks := d.host.nextSequenceAcks,
                         capabilities := d.host.capabilities, nextChannelSequence := d.host.nextChannelSequence)
    && d.host.store == c.host.store.(clientStates := d.host.store.clientStates, consensusStates := d.host.store.consensusStates,
                                     channels := d.host.store.channels)
    && (forall name | name in c.host.capabilities :: name in d.host.capabilities)
    && (forall key | Unused(c, key) :: Unused(d, key))
    && (forall id | Working(c, id) :: Working(d, id))
    && (forall id | Current(c, id) :: Current(d, id))
  }

  lemma TouchedTransitive(c: Chain, d: Chain, e: Chain)
    requires ChannelsTouched(c, d) && ChannelsTouched(d, e)
    ensures ChannelsTouched(c, e)
  {
    hide Unused, Working, Current;
  }

  lemma JoinsStays(c: Chain, d: Chain, hop: Bytes, other: Bytes)
    requires Joins(c, hop, other) && ChannelsTouched(c, d)
    ensures Joins(d, hop, other) && ClientUnder(d, hop) == ClientUnder(c, hop)
  {
    hide Working, Unused, Current;
  }

  lemma BoundStays(c: Chain, d: Chain, port: Bytes)
    requires Bound(c, port) && ChannelsTouched(c, d)
    ensures Bound(d, port)
  {
    hide SlashFree, Working, Unused, Current;
  }

  lemma ClientsTouched(c: Chain, d: Chain)
    requires OnlyClients(c, d) && ClientsStay(c, d)
    ensures ChannelsTouched(c, d)
  {
  }

  lemma SealTouched(c: Chain)
    ensures ChannelsTouched(c, SealBlock(c, 0))
  {
  }

  /** What showing a client the other side's state changes. */
  lemma RefreshTouches(w: World, onA: bool, hop: Bytes, other: Bytes)
    requires var c, peer := Side(w, onA), Side(w, !onA);
             && Joins(c, hop, other) && |peer.blocks| < TWO_64
             && c.host.lightClient.accepts(ClientUnder(c, hop), |peer.blocks|)
    ensures var c, peer := Side(w, onA), Side(w, !onA);
            var v := Refresh(w, onA, ClientUnder(c, hop));
            var d, e := Side(v, onA), Side(v, !onA);
            && Leads(w, v, 2)
            && ChannelsTouched(c, d) && d.blocks == c.blocks && d.host.store.channels == c.host.store.channels
            && d.host.nextChannelSequence == c.host.nextChannelSequence && d.host.lightClient == c.host.lightClient
            && Knows(d, ClientUnder(c, hop), |peer.blocks|, peer.host.store)
            && ChannelsTouched(peer, e) && e.host == peer.host && |e.blocks| == |peer.blocks| + 1
  {
    hide Refresh, Leads, Knows, Working, ChannelsTouched, ClientsStay;
    var c, peer := Side(w, onA), Side(w, !onA);
    Refreshed(w, onA, ClientUnder(c, hop));
    RefreshKeeps(w, onA, ClientUnder(c, hop));
    ClientsTouched(c, Side(Refresh(w, onA, ClientUnder(c, hop)), onA));
    SealTouched(peer);
  }

  // ----- Single transactions -----

  /** Storing a new channel under a free name of a bound port. */
  lemma NewChannelApplied(c: Chain, port: Bytes, end: Channel)
    requires BookInv(c) && Bound(c, port) && c.host.nextChannelSequence < TWO_64
    requires var key := ChannelKey(port, ChannelId(c.host.nextChannelSequence));
             key !in c.host.store.channels && !Counted(c, key)
    ensures var (host, id) := ChannelSpec.AddChannel(c.host, port, end);
            var key := ChannelKey(port, ChannelId(c.host.nextChannelSequence));
            && key in host.store.channels && id == key.channelId
            && RecordChannel(c, host, port, id).Ok?
            && var d := RecordChannel(c, host, port, id).value;
               HasChannel(d, key, end) && Unused(d, key) && ChannelsTouched(c, d) && d.blocks == c.blocks
  {
    hide ChannelId, HasChannel, Unused, ChannelsTouched, BookInv, Bound, RecordChannel, WithChannel, Counted;
    NewChannelRecorded(c, port, end);
    WithChannelTouches(c, port, end);
  }

  /** The chain with one more channel, its capability and its escrow account. */
  function WithChannel(c: Chain, port: Bytes, end: Channel): Chain {
    var (host, id) := ChannelSpec.AddChannel(c.host, port, end);
    c.(host := host.(capabilities := host.capabilities[ChannelCapabilityPath(port, id) := [c.app.address]]),
       app := c.app.(escrows := c.app.escrows[id := c.app.address]),
       channelOrigins := c.channelOrigins[ChannelKey(port, id) := end],
       channelLog := c.channelLog + [ChannelKey(port, id)])
  }

  lemma NewChannelRecorded(c: Chain, port: Bytes, end: Channel)
    requires BookInv(c) && Bound(c, port) && c.host.nextChannelSequence < TWO_64
    requires ChannelKey(port, ChannelId(c.host.nextChannelSequence)) !in c.host.store.channels
    ensures var (host, id) := ChannelSpec.AddChannel(c.host, port, end);
            && ChannelKey(port, id) in host.store.channels && id == ChannelId(c.host.nextChannelSequence)
            && RecordChannel(c, host, port, id) == Ok(WithChannel(c, port, end))
  {
    hide ChannelId, ChannelCapabilityPath, CapabilitiesInv, HostSpec.ClaimCapability, ModuleOwner, SlashFree;
    var (host, id) := ChannelSpec.AddChannel(c.host, port, end);
    var key := ChannelKey(port, id);
    ChannelIdSlashFree(c.host.nextChannelSequence);
    OwnerIsApp(host, c.host.store.channels, c.app.address, port);
    NewNameFree(c.host.capabilities, c.host.store.channels, c.app.address, key);
    Claimed(host, c.host.store.channels, c.app.address, ChannelCapabilityPath(port, id));
  }

  lemma WithChannelTouches(c: Chain, port: Bytes, end: Channel)
    requires var key := ChannelKey(port, ChannelId(c.host.nextChannelSequence));
             key !in c.host.store.channels && !Counted(c, key)
    ensures var d := WithChannel(c, port, end);
            var key := ChannelKey(port, ChannelId(c.host.nextChannelSequence));
            HasChannel(d, key, end) && Unused(d, key) && ChannelsTouched(c, d) && d.blocks == c.blocks
  {
    hide ChannelId, ChannelCapabilityPath;
  }

  /** The channel has counters already. */
  predicate Counted(c: Chain, key: ChannelKey) {
    key in c.host.nextSequenceSends || key in c.host.nextSequenceRecvs
  }

  lemma InitEndApplied(c: Chain, peer: Chain, step: Step, port: Bytes, end: Channel, hop: Bytes, other: Bytes)
    requires BookInv(c) && Bound(c, port) && c.host.nextChannelSequence < TWO_64
    requires var key := ChannelKey(port, ChannelId(c.host.nextChannelSequence));
             key !in c.host.store.channels && !Counted(c, key)
    requires Joins(c, hop, other) && end.connectionHops == [hop] && end.state == CHAN_INIT
    requires step.Submit? && step.action == Action.ChannelOpenInit(MsgChannelOpenInit(port, end))
    ensures var d := Apply(c, peer, step);
            var key := ChannelKey(port, ChannelId(c.host.nextChannelSequence));
            HasChannel(d, key, end) && Unused(d, key) && ChannelsTouched(c, d) && d.blocks == c.blocks
  {
    hide ChannelId, RecordChannel, BookInv, ChannelSpec.AddChannel, HasChannel, Unused, ChannelsTouched, Counted;
    NewChannelApplied(c, port, end);
    BoundSlashFree(c, port);
    hide SlashFree, Bound, Working;
    assert ChannelSpec.ChannelOpenInit(c.host, step.action.chanInit) == Ok(ChannelSpec.AddChannel(c.host, port, end));
  }

  lemma BoundSlashFree(c: Chain, port: Bytes)
    requires Bound(c, port)
    ensures SlashFree(port)
  {
    hide SlashFree;
  }

  lemma VerifiesEnd(c: Chain, hop: Bytes, other: Bytes, height: uint64, root: Store, key: ChannelKey, end: Channel)
    requires Joins(c, hop, other) && Knows(c, ClientUnder(c, hop), height, root)
    requires key in root.channels && root.channels[key] == end && c.host.lightClient.proves(ChannelDigest(end))
    ensures ChannelSpec.VerifyChannelState(c.host, c.host.store.connections[hop], height, SOME_PROOF, key.portId, key.channelId, end)
  {
  }

  lemma TryEndApplied(c: Chain, peer: Chain, step: Step, ordering: Order, port: Bytes, hop: Bytes, other: Bytes,
                      theirs: ChannelKey, version: Bytes, height: uint64, root: Store)
    requires BookInv(c) && Bound(c, port) && c.host.nextChannelSequence < TWO_64
    requires var key := ChannelKey(port, ChannelId(c.host.nextChannelSequence));
             key !in c.host.store.channels && !Counted(c, key)
    requires Joins(c, hop, other) && Knows(c, ClientUnder(c, hop), height, root)
    requires theirs in root.channels && root.channels[theirs] == BegunEnd(ordering, port, other, version)
    requires c.host.lightClient.proves(ChannelDigest(BegunEnd(ordering, port, other, version)))
    requires step.Submit? && step.action == Action.ChannelOpenTry(
               MsgChannelOpenTry(port, TriedEnd(ordering, theirs, hop, version), version, SOME_PROOF, height))
    ensures var d := Apply(c, peer, step);
            var key := ChannelKey(port, ChannelId(c.host.nextChannelSequence));
            && HasChannel(d, key, TriedEnd(ordering, theirs, hop, version)) && Unused(d, key)
            && ChannelsTouched(c, d) && d.blocks == c.blocks
  {
    hide ChannelId, RecordChannel, BookInv, ChannelSpec.AddChannel, HasChannel, Unused, ChannelsTouched, Counted, Knows;
    hide ChannelSpec.VerifyChannelState, Bound, SlashFree, Working;
    NewChannelApplied(c, port, TriedEnd(ordering, theirs, hop, version));
    BoundSlashFree(c, port);
    VerifiesEnd(c, hop, other, height, root, theirs, BegunEnd(ordering, port, other, version));
    assert ChannelSpec.ChannelOpenTry(c.host, step.action.chanTry)
        == Ok(ChannelSpec.AddChannel(c.host, port, TriedEnd(ordering, theirs, hop, version)));
  }

  /** Opening a stored end changes nothing else. */
  lemma EndOpened(c: Chain, key: ChannelKey, end: Channel)
    ensures var d := c.(host := SetChannel(c.host, key.portId, key.channelId, end));
            HasChannel(d, key, end) && ChannelsTouched(c, d) && d.blocks == c.blocks
            && (forall id | id in c.host.store.channels && id != key :: HasChannel(d, id, c.host.store.channels[id]))
  {
  }

  lemma AckEndApplied(c: Chain, peer: Chain, step: Step, ordering: Order, key: ChannelKey, hop: Bytes, other: Bytes,
                      theirs: ChannelKey, version: Bytes, height: uint64, root: Store)
    requires BookInv(c) && Bound(c, key.portId)
    requires HasChannel(c, key, BegunEnd(ordering, theirs.portId, hop, version))
    requires Joins(c, hop, other) && Knows(c, ClientUnder(c, hop), height, root)
    requires theirs in root.channels && root.channels[theirs] == TriedEnd(ordering, key, other, version)
    requires c.host.lightClient.proves(ChannelDigest(TriedEnd(ordering, key, other, version)))
    requires step.Submit? && step.action == Action.ChannelOpenAck(
               MsgChannelOpenAck(key.portId, key.channelId, version, theirs.channelId, SOME_PROOF, height))
    ensures var d := Apply(c, peer, step);
            HasChannel(d, key, OpenEnd(ordering, theirs, hop, version)) && ChannelsTouched(c, d) && d.blocks == c.blocks
  {
    hide BookInv, ChannelsTouched, Knows, ChannelSpec.VerifyChannelState, SlashFree, Working, ModuleOwner, SetChannel;
    VerifiesEnd(c, hop, other, height, root, theirs, TriedEnd(ordering, key, other, version));
    EndOpened(c, key, OpenEnd(ordering, theirs, hop, version));
    PortOwned(c, key, OpenEnd(ordering, theirs, hop, version));
    assert ChannelSpec.ChannelOpenAck(c.host, step.action.chanAck)
        == Ok(SetChannel(c.host, key.portId, key.channelId, OpenEnd(ordering, theirs, hop, version)));
  }

  lemma PortOwned(c: Chain, key: ChannelKey, end: Channel)
    requires BookInv(c) && Bound(c, key.portId)
    ensures ModuleOwner(SetChannel(c.host, key.portId, key.channelId, end), key.portId).Ok?
  {
    hide CapabilitiesInv, SlashFree, ModuleOwner;
    OwnerIsApp(SetChannel(c.host, key.portId, key.channelId, end), c.host.store.channels, c.app.address, key.portId);
  }

  lemma ConfirmEndApplied(c: Chain, peer: Chain, step: Step, ordering: Order, key: ChannelKey, hop: Bytes, other: Bytes,
                          theirs: ChannelKey, version: Bytes, height: uint64, root: Store)
    requires BookInv(c) && Bound(c, key.portId)
    requires HasChannel(c, key, TriedEnd(ordering, theirs, hop, version))
    requires Joins(c, hop, other) && Knows(c, ClientUnder(c, hop), height, root)
    requires theirs in root.channels && root.channels[theirs] == OpenEnd(ordering, key, other, version)
    requires c.host.lightClient.proves(ChannelDigest(OpenEnd(ordering, key, other, version)))
    requires step.Submit? && step.action == Action.ChannelOpenConfirm(
               MsgChannelOpenConfirm(key.portId, key.channelId, SOME_PROOF, height))
    ensures var d := Apply(c, peer, step);
            HasChannel(d, key, OpenEnd(ordering, theirs, hop, version)) && ChannelsTouched(c, d) && d.blocks == c.blocks
  {
    hide BookInv, ChannelsTouched, Knows, ChannelSpec.VerifyChannelState, SlashFree, Working, ModuleOwner, SetChannel;
    VerifiesEnd(c, hop, other, height, root, theirs, OpenEnd(ordering, key, other, version));
    EndOpened(c, key, OpenEnd(ordering, theirs, hop, version));
    PortOwned(c, key, OpenEnd(ordering, theirs, hop, version));
    assert ChannelSpec.ChannelOpenConfirm(c.host, step.action.chanConfirm)
        == Ok(SetChannel(c.host, key.portId, key.channelId, OpenEnd(ordering, theirs, hop, version)));
  }

  // ----- The handshake -----

  /** A channel to open: its ordering, the two ports, the connection ends under it, and its version. */
  datatype Proposal = Proposal(ordering: Order, port: Bytes, otherPort: Bytes, hop: Bytes, otherHop: Bytes, version: Bytes)

  /** The name the next channel of a port gets. */
  function NextKey(c: Chain, port: Bytes): ChannelKey {
    ChannelKey(port, ChannelId(c.host.nextChannelSequence))
  }

  /**
   What the clients have to do: accept the blocks that carry the proofs, and prove the ends
   in them.
   */
  predicate ChannelProvable(c: Chain, peer: Chain, q: Proposal) {
    var key, other := NextKey(c, q.port), NextKey(peer, q.otherPort);
    && Bound(c, q.port) && Bound(peer, q.otherPort)
    && Joins(c, q.hop, q.otherHop) && Joins(peer, q.otherHop, q.hop)
    && |c.blocks| + 1 < TWO_64 && |peer.blocks| < TWO_64
    && peer.host.lightClient.accepts(ClientUnder(peer, q.otherHop), |c.blocks|)
    && peer.host.lightClient.accepts(ClientUnder(peer, q.otherHop), |c.blocks| + 1)
    && c.host.lightClient.accepts(ClientUnder(c, q.hop), |peer.blocks|)
    && peer.host.lightClient.proves(ChannelDigest(BegunEnd(q.ordering, q.otherPort, q.hop, q.version)))
    && c.host.lightClient.proves(ChannelDigest(TriedEnd(q.ordering, key, q.otherHop, q.version)))
    && peer.host.lightClient.proves(ChannelDigest(OpenEnd(q.ordering, other, q.hop, q.version)))
  }

  lemma NextKeyFree(w: World, n: nat, onA: bool, port: Bytes)
    requires Sound(w, n) && n < TWO_64
    ensures var c := Side(w, onA);
            && BookInv(c) && c.host.nextChannelSequence < TWO_64
            && NextKey(c, port) !in c.host.store.channels && !Counted(c, NextKey(c, port))
  {
    hide Sound, BookInv, ChannelId, Counted;
    SideSound(w, onA, n);
    FreeIn(Side(w, onA), Side(w, !onA), port);
    SoundBounded(w, n);
  }

  lemma FreeIn(c: Chain, peer: Chain, port: Bytes)
    requires Sides(c, peer)
    ensures BookInv(c) && NextKey(c, port) !in c.host.store.channels && !Counted(c, NextKey(c, port))
  {
    hide ConnectionsInv, ChannelsInv, ChannelLogInv, EscrowsInv, SentInv, CommittedInv, AcknowledgedInv;
    hide ReceivedInv, WrittenInv, Links, MoneyInv, BookInv, ChannelId, CountsUp, AcceptedOn;
    FreshChannelId(c.host.store.channels, c.channelLog, c.host.nextChannelSequence, NextKey(c, port));
  }

  lemma JoinsOver(c: Chain, hop: Bytes, other: Bytes)
    requires Joins(c, hop, other)
    ensures hop in c.host.store.connections
  {
    hide Working;
  }

  lemma SameChannel(c: Chain, d: Chain, key: ChannelKey, end: Channel)
    requires HasChannel(c, key, end) && d.host.store.channels == c.host.store.channels
    ensures HasChannel(d, key, end)
  {
  }

  lemma ChannelParts(c: Chain, key: ChannelKey, end: Channel)
    requires HasChannel(c, key, end)
    ensures key in c.host.store.channels && c.host.store.channels[key] == end
  {
  }

  lemma UnusedStays(c: Chain, d: Chain, key: ChannelKey)
    requires Unused(c, key) && ChannelsTouched(c, d)
    ensures Unused(d, key)
  {
    hide Unused, Working, Current;
  }

  lemma SameClient(c: Chain, d: Chain)
    requires ChannelsTouched(c, d)
    ensures d.host.lightClient == c.host.lightClient
  {
    hide Unused, Working, Current;
  }

  /** The first half: an end begun here and answered there. */
  ghost predicate ChannelHalfway(w: World, v: World, onA: bool, q: Proposal) {
    var c, peer := Side(w, onA), Side(w, !onA);
    var d, e := Side(v, onA), Side(v, !onA);
    var key, other := NextKey(c, q.port), NextKey(peer, q.otherPort);
    && HasChannel(d, key, BegunEnd(q.ordering, q.otherPort, q.hop, q.version)) && Unused(d, key)
    && HasChannel(e, other, TriedEnd(q.ordering, key, q.otherHop, q.version)) && Unused(e, other)
    && |d.blocks| == |c.blocks| + 1 && |e.blocks| == |peer.blocks|
    && ChannelsTouched(c, d) && ChannelsTouched(peer, e)
  }

  /** Three steps in: an end begun here, which the client there knows about. */
  ghost predicate ChannelAnnounced(w: World, v: World, onA: bool, q: Proposal) {
    var c, peer := Side(w, onA), Side(w, !onA);
    var d, e := Side(v, onA), Side(v, !onA);
    var key := NextKey(c, q.port);
    && HasChannel(d, key, BegunEnd(q.ordering, q.otherPort, q.hop, q.version)) && Unused(d, key)
    && |d.blocks| == |c.blocks| + 1 && e.blocks == peer.blocks && |c.blocks| < TWO_64
    && ChannelsTouched(c, d) && ChannelsTouched(peer, e)
    && e.host.nextChannelSequence == peer.host.nextChannelSequence
    && q.otherHop in peer.host.store.connections && Knows(e, ClientUnder(peer, q.otherHop), |c.blocks|, d.host.store)
  }

  lemma ChannelBegins(w: World, n: nat, onA: bool, q: Proposal)
    requires Sound(w, n) && n + 4 < TWO_64 - 1
    requires ChannelProvable(Side(w, onA), Side(w, !onA), q)
    ensures exists v :: Leads(w, v, 3) && ChannelAnnounced(w, v, onA, q)
  {
    hide Sound, Apply, Next, Leads, Knows, Working, BegunEnd, TriedEnd, OpenEnd, Joins, Bound, Unused, Counted, HasChannel;
    hide Refresh, BookInv, ChannelsTouched, ClientUnder, ChannelId;
    var c, peer := Side(w, onA), Side(w, !onA);
    var key := NextKey(c, q.port);
    var begun := BegunEnd(q.ordering, q.otherPort, q.hop, q.version);
    NextKeyFree(w, n, onA, q.port);
    BegunParts(q);
    var init := Submit(onA, Action.ChannelOpenInit(MsgChannelOpenInit(q.port, begun)));
    InitEndApplied(c, peer, init, q.port, begun, q.hop, q.otherHop);
    NextSides(w, init);
    var w1 := Next(w, init);
    LeadsNow(w);
    LeadsNext(w, w, 0, init);
    JoinsOver(peer, q.otherHop, q.hop);
    var v := Refresh(w1, !onA, ClientUnder(peer, q.otherHop));
    RefreshTouches(w1, !onA, q.otherHop, q.hop);
    LeadsJoin(w, w1, v, 1, 2);
    var c1, d := Side(w1, onA), Side(v, onA);
    SameChannel(c1, d, key, begun);
    UnusedStays(c1, d, key);
    TouchedTransitive(c, c1, d);
    assert ChannelAnnounced(w, v, onA, q);
  }

  lemma ChannelReachesHalfway(w: World, n: nat, onA: bool, q: Proposal)
    requires Sound(w, n) && n + 4 < TWO_64 - 1
    requires ChannelProvable(Side(w, onA), Side(w, !onA), q)
    ensures exists v :: Leads(w, v, 4) && ChannelHalfway(w, v, onA, q)
  {
    hide Sound, Apply, Next, Leads, Knows, Working, BegunEnd, TriedEnd, OpenEnd, Joins, Bound, Unused, Counted, HasChannel;
    hide BookInv, ChannelsTouched, ClientUnder, ChannelId;
    var peer := Side(w, !onA);
    var key := NextKey(Side(w, onA), q.port);
    ChannelBegins(w, n, onA, q);
    var w3 :| Leads(w, w3, 3) && ChannelAnnounced(w, w3, onA, q);
    LeadsSound(w, w3, 3, n);
    NextKeyFree(w3, n + 3, !onA, q.otherPort);
    var c3, p3 := Side(w3, onA), Side(w3, !onA);
    var height := |Side(w, onA).blocks|;
    JoinsStays(peer, p3, q.otherHop, q.hop);
    BoundStays(peer, p3, q.otherPort);
    SameClient(peer, p3);
    ChannelParts(c3, key, BegunEnd(q.ordering, q.otherPort, q.hop, q.version));
    var try := Submit(!onA, Action.ChannelOpenTry(
      MsgChannelOpenTry(q.otherPort, TriedEnd(q.ordering, key, q.otherHop, q.version), q.version, SOME_PROOF, height)));
    TryEndApplied(p3, c3, try, q.ordering, q.otherPort, q.otherHop, q.hop, key, q.version, height, c3.host.store);
    NextSides(w3, try);
    var v := Next(w3, try);
    LeadsNext(w, w3, 3, try);
    TouchedTransitive(peer, p3, Side(v, !onA));
    assert ChannelHalfway(w, v, onA, q);
  }

  lemma BegunParts(q: Proposal)
    ensures var end := BegunEnd(q.ordering, q.otherPort, q.hop, q.version);
            end.connectionHops == [q.hop] && end.state == CHAN_INIT
  {
  }

  /** Both ends of a new channel are open and name each other, and nothing was sent over it. */
  ghost predicate ChannelOpens(w: World, v: World, onA: bool, q: Proposal) {
    var c, peer := Side(w, onA), Side(w, !onA);
    var d, e := Side(v, onA), Side(v, !onA);
    var key, other := NextKey(c, q.port), NextKey(peer, q.otherPort);
    && HasChannel(d, key, OpenEnd(q.ordering, other, q.hop, q.version)) && Unused(d, key)
    && HasChannel(e, other, OpenEnd(q.ordering, key, q.otherHop, q.version)) && Unused(e, other)
    && ChannelsTouched(c, d) && ChannelsTouched(peer, e)
  }

  lemma ChannelConcluded(w: World, v: World, n: nat, onA: bool, q: Proposal)
    requires Sound(v, n) && n + 6 < TWO_64 - 1
    requires ChannelProvable(Side(w, onA), Side(w, !onA), q) && ChannelHalfway(w, v, onA, q)
    ensures exists u :: Leads(v, u, 6) && ChannelOpens(w, u, onA, q)
  {
    hide Sound, Apply, Next, Leads, Knows, Working, BegunEnd, TriedEnd, OpenEnd, Joins, Bound, Unused, HasChannel;
    hide Refresh, BookInv, ChannelsTouched, ClientUnder, ChannelId;
    var c, peer := Side(w, onA), Side(w, !onA);
    var d, e := Side(v, onA), Side(v, !onA);
    var key, other := NextKey(c, q.port), NextKey(peer, q.otherPort);
    // Acknowledge.
    JoinsStays(c, d, q.hop, q.otherHop);
    SameClient(c, d);
    JoinsOver(d, q.hop, q.otherHop);
    var w2 := Refresh(v, onA, ClientUnder(d, q.hop));
    RefreshTouches(v, onA, q.hop, q.otherHop);
    LeadsSound(v, w2, 2, n);
    NextKeyFree(w2, n + 2, onA, q.port);
    var d2, e2 := Side(w2, onA), Side(w2, !onA);
    TouchedTransitive(c, d, d2);
    JoinsStays(c, d2, q.hop, q.otherHop);
    BoundStays(c, d2, q.port);
    SameChannel(d, d2, key, BegunEnd(q.ordering, q.otherPort, q.hop, q.version));
    ChannelParts(e, other, TriedEnd(q.ordering, key, q.otherHop, q.version));
    var ack := Submit(onA, Action.ChannelOpenAck(
      MsgChannelOpenAck(q.port, key.channelId, q.version, other.channelId, SOME_PROOF, |e.blocks|)));
    AckEndApplied(d2, e2, ack, q.ordering, key, q.hop, q.otherHop, other, q.version, |e.blocks|, e.host.store);
    NextSides(w2, ack);
    LeadsNext(v, w2, 2, ack);
    var w3 := Next(w2, ack);
    var d3 := Side(w3, onA);
    TouchedTransitive(c, d2, d3);
    UnusedStays(d, d2, key);
    UnusedStays(d2, d3, key);
    ChannelConfirmed(w, v, w3, n, onA, q);
  }

  /** After the acknowledgement: this end is open, and the other one is as it was. */
  ghost predicate ChannelAcknowledged(w: World, v: World, u: World, onA: bool, q: Proposal) {
    var c, peer := Side(w, onA), Side(w, !onA);
    var d, e := Side(u, onA), Side(u, !onA);
    var key, other := NextKey(c, q.port), NextKey(peer, q.otherPort);
    && Leads(v, u, 3)
    && HasChannel(d, key, OpenEnd(q.ordering, other, q.hop, q.version)) && Unused(d, key)
    && |d.blocks| == |c.blocks| + 1 && e.host == Side(v, !onA).host
    && ChannelsTouched(c, d) && ChannelsTouched(Side(v, !onA), e)
  }

  lemma ChannelConfirmed(w: World, v: World, u: World, n: nat, onA: bool, q: Proposal)
    requires Sound(v, n) && n + 6 < TWO_64 - 1
    requires ChannelProvable(Side(w, onA), Side(w, !onA), q) && ChannelHalfway(w, v, onA, q)
    requires ChannelAcknowledged(w, v, u, onA, q)
    ensures exists u2 :: Leads(v, u2, 6) && ChannelOpens(w, u2, onA, q)
  {
    hide Sound, Apply, Next, Leads, Knows, Working, BegunEnd, TriedEnd, OpenEnd, Joins, Bound, Unused, HasChannel;
    hide Refresh, BookInv, ChannelsTouched, ClientUnder, ChannelId;
    var c, peer := Side(w, onA), Side(w, !onA);
    var d3, e3 := Side(u, onA), Side(u, !onA);
    var key, other := NextKey(c, q.port), NextKey(peer, q.otherPort);
    TouchedTransitive(peer, Side(v, !onA), e3);
    JoinsStays(peer, e3, q.otherHop, q.hop);
    SameClient(peer, e3);
    JoinsOver(e3, q.otherHop, q.hop);
    var w5 := Refresh(u, !onA, ClientUnder(e3, q.otherHop));
    RefreshTouches(u, !onA, q.otherHop, q.hop);
    LeadsJoin(v, u, w5, 3, 2);
    LeadsSound(v, w5, 5, n);
    NextKeyFree(w5, n + 5, !onA, q.otherPort);
    var d5, e5 := Side(w5, onA), Side(w5, !onA);
    TouchedTransitive(peer, e3, e5);
    JoinsStays(peer, e5, q.otherHop, q.hop);
    BoundStays(peer, e5, q.otherPort);
    SameChannel(Side(v, !onA), e5, other, TriedEnd(q.ordering, key, q.otherHop, q.version));
    ChannelParts(d3, key, OpenEnd(q.ordering, other, q.hop, q.version));
    var confirm := Submit(!onA, Action.ChannelOpenConfirm(
      MsgChannelOpenConfirm(q.otherPort, other.channelId, SOME_PROOF, |c.blocks| + 1)));
    ConfirmEndApplied(e5, d5, confirm, q.ordering, other, q.otherHop, q.hop, key, q.version, |c.blocks| + 1, d3.host.store);
    NextSides(w5, confirm);
    LeadsNext(v, w5, 5, confirm);
    var u2 := Next(w5, confirm);
    var e6 := Side(u2, !onA);
    SameChannel(d3, d5, key, OpenEnd(q.ordering, other, q.hop, q.version));
    UnusedStays(d3, d5, key);
    TouchedTransitive(c, d3, d5);
    UnusedStays(Side(v, !onA), e3, other);
    UnusedStays(e3, e5, other);
    UnusedStays(e5, e6, other);
    TouchedTransitive(peer, e5, e6);
    assert ChannelOpens(w, u2, onA, q);
  }

  lemma ChannelCompletes(w: World, n: nat, onA: bool, q: Proposal)
    requires Sound(w, n) && n + 10 < TWO_64 - 1
    requires ChannelProvable(Side(w, onA), Side(w, !onA), q)
    ensures exists v :: Leads(w, v, 10) && ChannelOpens(w, v, onA, q)
  {
    hide Sound, Leads, ChannelHalfway, ChannelOpens, ChannelProvable;
    ChannelReachesHalfway(w, n, onA, q);
    var v :| Leads(w, v, 4) && ChannelHalfway(w, v, onA, q);
    LeadsSound(w, v, 4, n);
    ChannelConcluded(w, v, n + 4, onA, q);
    var u :| Leads(v, u, 6) && ChannelOpens(w, u, onA, q);
    LeadsJoin(w, v, u, 4, 6);
  }

  /**
   From any state of a run with an open connection between working clients and with bound
   ports, ten more steps open a new channel over it, ordered or not, whose two ends name each
   other, if the clients accept the blocks and prove the ends involved.
   */
  lemma ChannelHandshakeCompletes(setup: Setup, steps: seq<Step>, onA: bool, q: Proposal)
    requires ShortRun(setup, steps) && |steps| + 10 < TWO_64 - 1
    requires ChannelProvable(Side(Run(setup, steps), onA), Side(Run(setup, steps), !onA), q)
    ensures exists more :: |more| == 10 && ChannelOpens(Run(setup, steps), Run(setup, steps + more), onA, q)
  {
    hide Run, Sound, Leads, ChannelOpens, ChannelProvable;
    RunSound(setup, steps);
    ChannelCompletes(Run(setup, steps), |steps|, onA, q);
    var v :| Leads(Run(setup, steps), v, 10) && ChannelOpens(Run(setup, steps), v, onA, q);
    LeadsRun(setup, steps, v, 10);
    var more :| |more| == 10 && Run(setup, steps + more) == v;
    assert ChannelOpens(Run(setup, steps), Run(setup, steps + more), onA, q);
  }
}
