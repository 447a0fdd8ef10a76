/**
 A connection can be opened from any state in which each chain has a working client of the
 other: ten more steps do, if the clients accept the blocks and prove the ends and client
 states that the handshake shows them.
 */
module Opening {
  import opened Prelude
  import opened IBCIdentifier
  import opened IBCTypes
  import opened HostSpec
  import opened ChainSpec
  import opened World
  import opened ProtocolInvariant
  import opened HandshakeSteps
  import opened Conservation
  import opened History
  import opened Books
  import opened Continuation
  import ClientSpec
  import ConnectionSpec

  predicate HasEnd(c: Chain, id: Bytes, end: ConnectionEnd) {
    id in c.host.store.connections && c.host.store.connections[id] == end
  }

  /** Storage proofs are non-empty; what they prove is up to the client. */
  const SOME_PROOF: Bytes := [0]

  /** The ends the handshake goes through; `mine` is the client here, `theirs` the one there. */
  function Begun(mine: Bytes, theirs: Bytes): ConnectionEnd {
    ConnectionEnd(mine, ConnectionSpec.GetVersions(), CONN_INIT, 0, Counterparty(theirs, [], ConnectionSpec.COMMITMENT_PREFIX))
  }

  function Tried(mine: Bytes, theirs: Bytes, other: Bytes): ConnectionEnd {
    ConnectionEnd(mine, ConnectionSpec.GetVersions(), CONN_TRYOPEN, 0, Counterparty(theirs, other, ConnectionSpec.COMMITMENT_PREFIX))
  }

  function Opened(mine: Bytes, theirs: Bytes, other: Bytes): ConnectionEnd {
    Tried(mine, theirs, other).(state := CONN_OPEN)
  }

  // ----- What a handshake leaves alone -----
  /** Clients stay, and those with a consensus state at their latest height keep one. */
  ghost predicate ClientsStay(c: Chain, d: Chain) {
    && (forall id | id in c.host.store.clientStates :: id in d.host.store.clientStates)
    && (forall id | Current(c, id) :: Current(d, id))
  }

  /** Only connections, client states and blocks change, and open connections do not. */
  ghost predicate ConnectionsOnly(c: Chain, d: Chain) {
    && d == c.(host := d.host, blocks := d.blocks, connectionOrigins := d.connectionOrigins)
    && d.host == c.host.(store := d.host.store, nextConnectionSequence := d.host.nextConnectionSequence)
    && d.host.store == c.host.store.(clientStates := d.host.store.clientStates, consensusStates := d.host.store.consensusStates,
                                     connections := d.host.store.connections)
    && (forall id | id in c.host.store.connections && c.host.store.connections[id].state == CONN_OPEN ::
          id in d.host.store.connections && d.host.store.connections[id] == c.host.store.connections[id])
  }

  lemma ConnectionsOnlyTransitive(c: Chain, d: Chain, e: Chain)
    requires ConnectionsOnly(c, d) && ConnectionsOnly(d, e)
    ensures ConnectionsOnly(c, e)
  {
  }

  lemma ClientsStayTransitive(c: Chain, d: Chain, e: Chain)
    requires ClientsStay(c, d) && ClientsStay(d, e)
    ensures ClientsStay(c, e)
  {
    hide Current;
  }

  /** A transaction that changes connections and nothing else, on one side. */
  ghost predicate Touched(c: Chain, d: Chain) {
    && ConnectionsOnly(c, d) && d.blocks == c.blocks
    && d.host.store.clientStates == c.host.store.clientStates && d.host.store.consensusStates == c.host.store.consensusStates
  }

  lemma TouchedParts(c: Chain, d: Chain)
    requires Touched(c, d)
    ensures ConnectionsOnly(c, d) && ClientsStay(c, d) && d.blocks == c.blocks
    ensures d.host.store.clientStates == c.host.store.clientStates && d.host.lightClient == c.host.lightClient
  {
  }

  lemma TouchedWorking(c: Chain, d: Chain, clientId: Bytes)
    requires Touched(c, d) && Working(c, clientId)
    ensures Working(d, clientId)
  {
  }

  /** What showing a client the other side's state changes. */
  lemma RefreshKeeps(w: World, onA: bool, clientId: Bytes)
    requires var c, peer := Side(w, onA), Side(w, !onA);
             Working(c, clientId) && |peer.blocks| < TWO_64 && c.host.lightClient.accepts(clientId, |peer.blocks|)
    ensures var c, peer := Side(w, onA), Side(w, !onA);
            var v := Refresh(w, onA, clientId);
            var d, e := Side(v, onA), Side(v, !onA);
            && Leads(w, v, 2)
            && ConnectionsOnly(c, d) && ClientsStay(c, d) && d.blocks == c.blocks
            && d.host.store.connections == c.host.store.connections && d.host.lightClient == c.host.lightClient
            && d.host.nextConnectionSequence == c.host.nextConnectionSequence
            && Working(d, clientId) && Knows(d, clientId, |peer.blocks|, peer.host.store)
            && d.host.store.clientStates
               == c.host.store.clientStates[clientId := ClientSpec.Advance(c.host.store.clientStates[clientId], |peer.blocks|)]
            && ConnectionsOnly(peer, e) && ClientsStay(peer, e) && e.host == peer.host && |e.blocks| == |peer.blocks| + 1
  {
    hide Refresh, Leads;
    Refreshed(w, onA, clientId);
  }

  // ----- Single transactions -----

  lemma InitApplied(c: Chain, peer: Chain, step: Step, mine: Bytes, theirs: Bytes)
    requires step.Submit? && step.action == Action.ConnectionOpenInit(
               MsgConnectionOpenInit(mine, Counterparty(theirs, [], ConnectionSpec.COMMITMENT_PREFIX), 0))
    requires ConnectionId(c.host.nextConnectionSequence) !in c.host.store.connections
    ensures var d := Apply(c, peer, step);
            HasEnd(d, ConnectionId(c.host.nextConnectionSequence), Begun(mine, theirs)) && Touched(c, d)
  {
    hide ConnectionId, ConnectionSpec.GetVersions;
  }

  lemma TryAccepted(c: Chain, msg: MsgConnectionOpenTry, mine: Bytes, theirs: Bytes, other: Bytes, root: Store)
    requires Knows(c, mine, msg.proofHeight, root)
    requires other in root.connections && root.connections[other] == Begun(theirs, mine)
    requires theirs in root.clientStates && msg.clientState == root.clientStates[theirs]
    requires c.host.lightClient.proves(ConnectionDigest(Begun(theirs, mine)))
    requires c.host.lightClient.proves(ClientDigest(msg.clientState))
    requires msg.counterparty == Counterparty(theirs, other, ConnectionSpec.COMMITMENT_PREFIX) && msg.clientId == mine
    requires msg.delayPeriod == 0 && msg.counterpartyVersions == ConnectionSpec.GetVersions()
    requires msg.proofInit == msg.proofClient == SOME_PROOF
    ensures ConnectionSpec.ConnectionOpenTry(c.host, msg)
         == Ok(ConnectionSpec.AddConnection(c.host, Tried(mine, theirs, other)))
  {
    hide HasClientImpl, ConnectionSpec.AddConnection, ConnectionSpec.GetVersions;
  }

  lemma TryApplied(c: Chain, peer: Chain, step: Step, mine: Bytes, theirs: Bytes, other: Bytes, height: uint64, root: Store)
    requires Knows(c, mine, height, root)
    requires other in root.connections && root.connections[other] == Begun(theirs, mine)
    requires theirs in root.clientStates
    requires c.host.lightClient.proves(ConnectionDigest(Begun(theirs, mine)))
    requires c.host.lightClient.proves(ClientDigest(root.clientStates[theirs]))
    requires ConnectionId(c.host.nextConnectionSequence) !in c.host.store.connections
    requires step.Submit? && step.action == Action.ConnectionOpenTry(
               MsgConnectionOpenTry(Counterparty(theirs, other, ConnectionSpec.COMMITMENT_PREFIX), 0, mine,
                                    root.clientStates[theirs], ConnectionSpec.GetVersions(), SOME_PROOF, SOME_PROOF, height))
    ensures var d := Apply(c, peer, step);
            HasEnd(d, ConnectionId(c.host.nextConnectionSequence), Tried(mine, theirs, other)) && Touched(c, d)
  {
    hide Knows, ConnectionSpec.ConnectionOpenTry, Begun, ConnectionId, ConnectionSpec.GetVersions;
    TryAccepted(c, step.action.connTry, mine, theirs, other, root);
  }

  lemma AckAccepted(c: Chain, msg: MsgConnectionOpenAck, mine: Bytes, theirs: Bytes, root: Store)
    requires HasEnd(c, msg.connectionId, Begun(mine, theirs)) && Knows(c, mine, msg.proofHeight, root)
    requires var other := msg.counterpartyConnectionId;
             && other in root.connections && root.connections[other] == Tried(theirs, mine, msg.connectionId)
             && c.host.lightClient.proves(ConnectionDigest(Tried(theirs, mine, msg.connectionId)))
    requires theirs in root.clientStates && msg.clientState == root.clientStates[theirs]
    requires c.host.lightClient.proves(ClientDigest(msg.clientState))
    requires [msg.version] == ConnectionSpec.GetVersions() && msg.proofTry == msg.proofClient == SOME_PROOF
    ensures ConnectionSpec.ConnectionOpenAck(c.host, msg)
         == Ok(SetConnection(c.host, msg.connectionId, Opened(mine, theirs, msg.counterpartyConnectionId)))
  {
    hide HasClientImpl, ConnectionSpec.GetVersions, SetConnection;
  }

  lemma AckApplied(c: Chain, peer: Chain, step: Step, id: Bytes, mine: Bytes, theirs: Bytes, other: Bytes, height: uint64,
                   root: Store)
    requires HasEnd(c, id, Begun(mine, theirs)) && Knows(c, mine, height, root)
    requires other in root.connections && root.connections[other] == Tried(theirs, mine, id)
    requires theirs in root.clientStates
    requires c.host.lightClient.proves(ConnectionDigest(Tried(theirs, mine, id)))
    requires c.host.lightClient.proves(ClientDigest(root.clientStates[theirs]))
    requires step.Submit? && step.action == Action.ConnectionOpenAck(
               MsgConnectionOpenAck(id, root.clientStates[theirs], ConnectionSpec.GetVersions()[0], other, SOME_PROOF, SOME_PROOF,
                                    height))
    ensures var d := Apply(c, peer, step); HasEnd(d, id, Opened(mine, theirs, other)) && Touched(c, d)
  {
    hide Knows, ConnectionSpec.ConnectionOpenAck, Tried, Opened, ConnectionSpec.GetVersions;
    var msg := step.action.connAck;
    assert [msg.version] == ConnectionSpec.GetVersions();
    AckAccepted(c, msg, mine, theirs, root);
  }

  lemma ConfirmAccepted(c: Chain, msg: MsgConnectionOpenConfirm, mine: Bytes, theirs: Bytes, other: Bytes, root: Store)
    requires HasEnd(c, msg.connectionId, Tried(mine, theirs, other)) && Knows(c, mine, msg.proofHeight, root)
    requires other in root.connections && root.connections[other] == Opened(theirs, mine, msg.connectionId)
    requires c.host.lightClient.proves(ConnectionDigest(Opened(theirs, mine, msg.connectionId)))
    requires msg.proofAck == SOME_PROOF
    ensures ConnectionSpec.ConnectionOpenConfirm(c.host, msg)
         == Ok(SetConnection(c.host, msg.connectionId, Opened(mine, theirs, other)))
  {
    hide HasClientImpl, ConnectionSpec.GetVersions, SetConnection;
  }

  lemma ConfirmApplied(c: Chain, peer: Chain, step: Step, id: Bytes, mine: Bytes, theirs: Bytes, other: Bytes, height: uint64,
                       root: Store)
    requires HasEnd(c, id, Tried(mine, theirs, other)) && Knows(c, mine, height, root)
    requires other in root.connections && root.connections[other] == Opened(theirs, mine, id)
    requires c.host.lightClient.proves(ConnectionDigest(Opened(theirs, mine, id)))
    requires step.Submit? && step.action == Action.ConnectionOpenConfirm(MsgConnectionOpenConfirm(id, SOME_PROOF, height))
    ensures var d := Apply(c, peer, step); HasEnd(d, id, Opened(mine, theirs, other)) && Touched(c, d)
  {
    hide Knows, ConnectionSpec.ConnectionOpenConfirm, Opened, ConnectionSpec.GetVersions;
    ConfirmAccepted(c, step.action.connConfirm, mine, theirs, other, root);
  }

  // ----- The handshake -----

  /** Both ends of a new connection are open and name each other, and nothing else changed. */
  ghost predicate ConnectionOpens(w: World, v: World, onA: bool, mine: Bytes, theirs: Bytes, id: Bytes, other: Bytes) {
    && HasEnd(Side(v, onA), id, Opened(mine, theirs, other)) && HasEnd(Side(v, !onA), other, Opened(theirs, mine, id))
    && ConnectionsOnly(Side(w, onA), Side(v, onA)) && ClientsStay(Side(w, onA), Side(v, onA))
    && ConnectionsOnly(Side(w, !onA), Side(v, !onA)) && ClientsStay(Side(w, !onA), Side(v, !onA))
  }

  /**
   What the clients have to do: accept the blocks that carry the proofs, and prove the ends
   and client states in them.
   */
  predicate ConnectionProvable(c: Chain, peer: Chain, mine: Bytes, theirs: Bytes) {
    var id, other := ConnectionId(c.host.nextConnectionSequence), ConnectionId(peer.host.nextConnectionSequence);
    && Working(c, mine) && Working(peer, theirs)
    && |c.blocks| + 1 < TWO_64 && |peer.blocks| < TWO_64
    && peer.host.lightClient.accepts(theirs, |c.blocks|) && peer.host.lightClient.accepts(theirs, |c.blocks| + 1)
    && c.host.lightClient.accepts(mine, |peer.blocks|)
    && peer.host.lightClient.proves(ConnectionDigest(Begun(mine, theirs)))
    && peer.host.lightClient.proves(ClientDigest(c.host.store.clientStates[mine]))
    && c.host.lightClient.proves(ConnectionDigest(Tried(theirs, mine, id)))
    && c.host.lightClient.proves(ClientDigest(ClientSpec.Advance(peer.host.store.clientStates[theirs], |c.blocks|)))
    && peer.host.lightClient.proves(ConnectionDigest(Opened(mine, theirs, other)))
  }

  /** The first half: an end begun here and answered there. */
  ghost predicate Halfway(w: World, v: World, onA: bool, mine: Bytes, theirs: Bytes) {
    var c, peer := Side(w, onA), Side(w, !onA);
    var d, e := Side(v, onA), Side(v, !onA);
    var id, other := ConnectionId(c.host.nextConnectionSequence), ConnectionId(peer.host.nextConnectionSequence);
    && HasEnd(d, id, Begun(mine, theirs)) && Working(d, mine) && |d.blocks| == |c.blocks| + 1
    && HasEnd(e, other, Tried(theirs, mine, id)) && Working(e, theirs) && |e.blocks| == |peer.blocks|
    && theirs in peer.host.store.clientStates && |c.blocks| < TWO_64
    && e.host.store.clientStates[theirs] == ClientSpec.Advance(peer.host.store.clientStates[theirs], |c.blocks|)
    && ConnectionsOnly(c, d) && ClientsStay(c, d) && d.host.lightClient == c.host.lightClient
    && ConnectionsOnly(peer, e) && ClientsStay(peer, e) && e.host.lightClient == peer.host.lightClient
  }

  /** Three steps in: an end begun here, which the client there knows about. */
  ghost predicate Announced(w: World, v: World, onA: bool, mine: Bytes, theirs: Bytes) {
    var c, peer := Side(w, onA), Side(w, !onA);
    var d, e := Side(v, onA), Side(v, !onA);
    && HasEnd(d, ConnectionId(c.host.nextConnectionSequence), Begun(mine, theirs)) && Working(d, mine)
    && d.host.store.clientStates == c.host.store.clientStates && d.host.lightClient == c.host.lightClient
    && |d.blocks| == |c.blocks| + 1 && ConnectionsOnly(c, d) && ClientsStay(c, d)
    && |c.blocks| < TWO_64 && Knows(e, theirs, |c.blocks|, d.host.store) && Working(e, theirs)
    && theirs in peer.host.store.clientStates
    && e.host.store.clientStates
       == peer.host.store.clientStates[theirs := ClientSpec.Advance(peer.host.store.clientStates[theirs], |c.blocks|)]
    && e.host.store.connections == peer.host.store.connections && e.host.lightClient == peer.host.lightClient
    && e.host.nextConnectionSequence == peer.host.nextConnectionSequence
    && |e.blocks| == |peer.blocks| && ConnectionsOnly(peer, e) && ClientsStay(peer, e)
  }

  lemma HandshakeAnnounced(w: World, onA: bool, mine: Bytes, theirs: Bytes)
    requires var c, peer := Side(w, onA), Side(w, !onA);
             && Working(c, mine) && Working(peer, theirs) && |c.blocks| < TWO_64
             && peer.host.lightClient.accepts(theirs, |c.blocks|)
             && ConnectionId(c.host.nextConnectionSequence) !in c.host.store.connections
    ensures exists v :: Leads(w, v, 3) && Announced(w, v, onA, mine, theirs)
  {
    hide Apply, Next, Leads, Knows, Working, Begun, Tried, Opened, ConnectionId, Touched, ConnectionsOnly, ClientsStay;
    hide Refresh, ConnectionSpec.GetVersions, ClientSpec.Advance, HasEnd;
    var c, peer := Side(w, onA), Side(w, !onA);
    var init := Submit(onA, Action.ConnectionOpenInit(
                         MsgConnectionOpenInit(mine, Counterparty(theirs, [], ConnectionSpec.COMMITMENT_PREFIX), 0)));
    LeadsNow(w);
    LeadsNext(w, w, 0, init);
    var w1 := Next(w, init);
    NextSides(w, init);
    InitApplied(c, peer, init, mine, theirs);
    var c1 := Side(w1, onA);
    TouchedParts(c, c1);
    TouchedWorking(c, c1, mine);
    var v := Refresh(w1, !onA, theirs);
    RefreshKeeps(w1, !onA, theirs);
    LeadsJoin(w, w1, v, 1, 2);
    var d := Side(v, onA);
    SameEnds(c1, d, ConnectionId(c.host.nextConnectionSequence), Begun(mine, theirs));
    ConnectionsOnlyTransitive(c, c1, d);
    ClientsStayTransitive(c, c1, d);
    SameWorking(c1, d, mine);
    WorkingClient(peer, theirs);
    assert Announced(w, v, onA, mine, theirs);
  }

  lemma HandshakeHalfway(w: World, onA: bool, mine: Bytes, theirs: Bytes)
    requires var c, peer := Side(w, onA), Side(w, !onA);
             && ConnectionProvable(c, peer, mine, theirs)
             && ConnectionId(c.host.nextConnectionSequence) !in c.host.store.connections
             && ConnectionId(peer.host.nextConnectionSequence) !in peer.host.store.connections
    ensures exists v :: Leads(w, v, 4) && Halfway(w, v, onA, mine, theirs)
  {
    hide Apply, Next, Leads, Knows, Working, Begun, Tried, Opened, ConnectionId, Touched, ConnectionsOnly, ClientsStay;
    hide ConnectionSpec.GetVersions, ClientSpec.Advance, HasEnd;
    var c, peer := Side(w, onA), Side(w, !onA);
    var id := ConnectionId(c.host.nextConnectionSequence);
    HandshakeAnnounced(w, onA, mine, theirs);
    var w3 :| Leads(w, w3, 3) && Announced(w, w3, onA, mine, theirs);
    var c3, p3 := Side(w3, onA), Side(w3, !onA);
    WorkingClient(c, mine);
    EndParts(c3, id, Begun(mine, theirs));
    var try := Submit(!onA, Action.ConnectionOpenTry(
      MsgConnectionOpenTry(Counterparty(mine, id, ConnectionSpec.COMMITMENT_PREFIX), 0, theirs, c.host.store.clientStates[mine],
                           ConnectionSpec.GetVersions(), SOME_PROOF, SOME_PROOF, |c.blocks|)));
    LeadsNext(w, w3, 3, try);
    NextSides(w3, try);
    TryApplied(p3, c3, try, theirs, mine, id, |c.blocks|, c3.host.store);
    var v := Next(w3, try);
    var e := Side(v, !onA);
    TouchedParts(p3, e);
    TouchedWorking(p3, e, theirs);
    ConnectionsOnlyTransitive(peer, p3, e);
    ClientsStayTransitive(peer, p3, e);
    assert Halfway(w, v, onA, mine, theirs);
  }

  lemma WorkingClient(c: Chain, clientId: Bytes)
    requires Working(c, clientId)
    ensures clientId in c.host.store.clientStates
  {
  }

  lemma SameWorking(c: Chain, d: Chain, clientId: Bytes)
    requires Working(c, clientId) && d.host == c.host
    ensures Working(d, clientId)
  {
  }

  lemma SameEnds(c: Chain, d: Chain, id: Bytes, end: ConnectionEnd)
    requires HasEnd(c, id, end) && d.host.store.connections == c.host.store.connections
    ensures HasEnd(d, id, end)
  {
  }

  /** Three steps later: this end is open, and the other one is as it was. */
  ghost predicate Acknowledged(v: World, u: World, onA: bool, id: Bytes, end: ConnectionEnd) {
    var d, e := Side(v, onA), Side(v, !onA);
    var d3, e3 := Side(u, onA), Side(u, !onA);
    && HasEnd(d3, id, end) && d3.blocks == d.blocks && e3.host == e.host
    && ConnectionsOnly(d, d3) && ClientsStay(d, d3) && ConnectionsOnly(e, e3) && ClientsStay(e, e3)
  }

  lemma HandshakeAcknowledged(w: World, v: World, onA: bool, mine: Bytes, theirs: Bytes)
    requires ConnectionProvable(Side(w, onA), Side(w, !onA), mine, theirs) && Halfway(w, v, onA, mine, theirs)
    ensures var id := ConnectionId(Side(w, onA).host.nextConnectionSequence);
            var other := ConnectionId(Side(w, !onA).host.nextConnectionSequence);
            exists u :: Leads(v, u, 3) && Acknowledged(v, u, onA, id, Opened(mine, theirs, other))
  {
    hide Apply, Next, Leads, Knows, Working, Begun, Tried, Opened, ConnectionId, Touched, ConnectionsOnly, ClientsStay;
    hide Refresh, ConnectionSpec.GetVersions, ClientSpec.Advance, HasEnd;
    var peer := Side(w, !onA);
    var id, other := ConnectionId(Side(w, onA).host.nextConnectionSequence), ConnectionId(peer.host.nextConnectionSequence);
    var d, e := Side(v, onA), Side(v, !onA);
    var w2 := Refresh(v, onA, mine);
    RefreshKeeps(v, onA, mine);
    var d2, e2 := Side(w2, onA), Side(w2, !onA);
    SameEnds(d, d2, id, Begun(mine, theirs));
    EndParts(e, other, Tried(theirs, mine, id));
    WorkingClient(e, theirs);
    var ack := Submit(onA, Action.ConnectionOpenAck(
      MsgConnectionOpenAck(id, e.host.store.clientStates[theirs], ConnectionSpec.GetVersions()[0], other, SOME_PROOF, SOME_PROOF,
                           |peer.blocks|)));
    LeadsNext(v, w2, 2, ack);
    NextSides(w2, ack);
    AckApplied(d2, e2, ack, id, mine, theirs, other, |peer.blocks|, e.host.store);
    var u := Next(w2, ack);
    TouchedParts(d2, Side(u, onA));
    ConnectionsOnlyTransitive(d, d2, Side(u, onA));
    ClientsStayTransitive(d, d2, Side(u, onA));
    assert Acknowledged(v, u, onA, id, Opened(mine, theirs, other));
  }

  lemma HandshakeConcluded(w: World, v: World, onA: bool, mine: Bytes, theirs: Bytes)
    requires ConnectionProvable(Side(w, onA), Side(w, !onA), mine, theirs) && Halfway(w, v, onA, mine, theirs)
    ensures var id := ConnectionId(Side(w, onA).host.nextConnectionSequence);
            var other := ConnectionId(Side(w, !onA).host.nextConnectionSequence);
            exists u :: Leads(v, u, 6) && ConnectionOpens(w, u, onA, mine, theirs, id, other)
  {
    hide Apply, Next, Leads, Knows, Working, Begun, Tried, Opened, ConnectionId, Touched, ConnectionsOnly, ClientsStay;
    hide Refresh, ConnectionSpec.GetVersions, ClientSpec.Advance, HasEnd;
    var c, peer := Side(w, onA), Side(w, !onA);
    var id, other := ConnectionId(c.host.nextConnectionSequence), ConnectionId(peer.host.nextConnectionSequence);
    var d, e := Side(v, onA), Side(v, !onA);
    HandshakeAcknowledged(w, v, onA, mine, theirs);
    var w3 :| Leads(v, w3, 3) && Acknowledged(v, w3, onA, id, Opened(mine, theirs, other));
    var d3, e3 := Side(w3, onA), Side(w3, !onA);
    SameWorking(e, e3, theirs);
    SameEnds(e, e3, other, Tried(theirs, mine, id));
    var w5 := Refresh(w3, !onA, theirs);
    RefreshKeeps(w3, !onA, theirs);
    LeadsJoin(v, w3, w5, 3, 2);
    var d5, e5 := Side(w5, onA), Side(w5, !onA);
    SameEnds(e3, e5, other, Tried(theirs, mine, id));
    EndParts(d3, id, Opened(mine, theirs, other));
    var confirm := Submit(!onA, Action.ConnectionOpenConfirm(MsgConnectionOpenConfirm(other, SOME_PROOF, |c.blocks| + 1)));
    LeadsNext(v, w5, 5, confirm);
    NextSides(w5, confirm);
    ConfirmApplied(e5, d5, confirm, other, theirs, mine, id, |c.blocks| + 1, d3.host.store);
    var u := Next(w5, confirm);
    TouchedParts(e5, Side(u, !onA));
    SameEnds(d3, d5, id, Opened(mine, theirs, other));
    FourSteps(c, d, d3, d5, d5);
    FourSteps(peer, e, e3, e5, Side(u, !onA));
    ConcludedOpens(w, u, onA, mine, theirs, id, other);
  }

  lemma ConcludedOpens(w: World, v: World, onA: bool, mine: Bytes, theirs: Bytes, id: Bytes, other: Bytes)
    requires HasEnd(Side(v, onA), id, Opened(mine, theirs, other)) && HasEnd(Side(v, !onA), other, Opened(theirs, mine, id))
    requires ConnectionsOnly(Side(w, onA), Side(v, onA)) && ClientsStay(Side(w, onA), Side(v, onA))
    requires ConnectionsOnly(Side(w, !onA), Side(v, !onA)) && ClientsStay(Side(w, !onA), Side(v, !onA))
    ensures ConnectionOpens(w, v, onA, mine, theirs, id, other)
  {
  }

  lemma EndParts(c: Chain, id: Bytes, end: ConnectionEnd)
    requires HasEnd(c, id, end)
    ensures id in c.host.store.connections && c.host.store.connections[id] == end
  {
  }

  lemma FourSteps(c: Chain, d: Chain, e: Chain, f: Chain, g: Chain)
    requires ConnectionsOnly(c, d) && ClientsStay(c, d)
    requires ConnectionsOnly(d, e) && ClientsStay(d, e)
    requires ConnectionsOnly(e, f) && ClientsStay(e, f)
    requires g == f || (ConnectionsOnly(f, g) && ClientsStay(f, g))
    ensures ConnectionsOnly(c, g) && ClientsStay(c, g)
  {
    hide ConnectionsOnly, ClientsStay;
    ConnectionsOnlyTransitive(c, d, e);
    ClientsStayTransitive(c, d, e);
    ConnectionsOnlyTransitive(c, e, f);
    ClientsStayTransitive(c, e, f);
    if g != f {
      ConnectionsOnlyTransitive(c, f, g);
      ClientsStayTransitive(c, f, g);
    }
  }

  lemma ConnectionCompletes(w: World, n: nat, onA: bool, mine: Bytes, theirs: Bytes)
    requires Sound(w, n) && ConnectionProvable(Side(w, onA), Side(w, !onA), mine, theirs)
    ensures var id := ConnectionId(Side(w, onA).host.nextConnectionSequence);
            var other := ConnectionId(Side(w, !onA).host.nextConnectionSequence);
            exists v :: Leads(w, v, 10) && ConnectionOpens(w, v, onA, mine, theirs, id, other)
  {
    hide Sound, Leads, Halfway, ConnectionOpens, ConnectionProvable, ConnectionId;
    NextIdFree(w, onA, n);
    NextIdFree(w, !onA, n);
    HandshakeHalfway(w, onA, mine, theirs);
    var v :| Leads(w, v, 4) && Halfway(w, v, onA, mine, theirs);
    HandshakeConcluded(w, v, onA, mine, theirs);
    var id := ConnectionId(Side(w, onA).host.nextConnectionSequence);
    var other := ConnectionId(Side(w, !onA).host.nextConnectionSequence);
    var u :| Leads(v, u, 6) && ConnectionOpens(w, u, onA, mine, theirs, id, other);
    LeadsJoin(w, v, u, 4, 6);
  }

  lemma NextIdFree(w: World, onA: bool, n: nat)
    requires Sound(w, n)
    ensures ConnectionId(Side(w, onA).host.nextConnectionSequence) !in Side(w, onA).host.store.connections
  {
    hide Sound;
    SideSound(w, onA, n);
    FreeInLocal(Side(w, onA), Side(w, !onA));
  }

  lemma FreeInLocal(c: Chain, peer: Chain)
    requires Sides(c, peer)
    ensures ConnectionId(c.host.nextConnectionSequence) !in c.host.store.connections
  {
    hide ConnectionsInv, ChannelsInv, ChannelLogInv, EscrowsInv, SequencesInv, SentInv, CommittedInv, AcknowledgedInv;
    hide ReceivedInv, WrittenInv, Links, MoneyInv, OrderedInv, BookInv, ConnectionId;
    FreshConnectionId(c.host.store.connections, c.connectionOrigins, c.host.nextConnectionSequence);
  }

  /**
   From any state of a run in which each chain has a working client of the other, ten more
   steps open a new connection whose two ends name each other, if the clients accept the
   blocks and prove the ends and client states involved.
   */
  lemma HandshakeCompletes(setup: Setup, steps: seq<Step>, onA: bool, mine: Bytes, theirs: Bytes)
    requires ShortRun(setup, steps)
    requires ConnectionProvable(Side(Run(setup, steps), onA), Side(Run(setup, steps), !onA), mine, theirs)
    ensures var w := Run(setup, steps);
            var id := ConnectionId(Side(w, onA).host.nextConnectionSequence);
            var other := ConnectionId(Side(w, !onA).host.nextConnectionSequence);
            exists more :: |more| == 10 && ConnectionOpens(w, Run(setup, steps + more), onA, mine, theirs, id, other)
  {
    hide Run, Sound, Leads, ConnectionOpens, ConnectionProvable, ConnectionId;
    var w := Run(setup, steps);
    RunSound(setup, steps);
    ConnectionCompletes(w, |steps|, onA, mine, theirs);
    var id := ConnectionId(Side(w, onA).host.nextConnectionSequence);
    var other := ConnectionId(Side(w, !onA).host.nextConnectionSequence);
    var v :| Leads(w, v, 10) && ConnectionOpens(w, v, onA, mine, theirs, id, other);
    LeadsRun(setup, steps, v, 10);
    var more :| |more| == 10 && Run(setup, steps + more) == v;
    assert ConnectionOpens(w, Run(setup, steps + more), onA, mine, theirs, id, other);
  }
}
