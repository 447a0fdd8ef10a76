/**
 Which messages about clients, connections and channels go through in a run, and what they leave:
 stated over the sealed blocks of the peer that the client was shown.
 */
module HandshakeAcceptance {
  import opened Prelude
  import opened IBCIdentifier
  import opened IBCTypes
  import opened HostSpec
  import opened TransferSpec
  import opened ChainSpec
  import opened World
  import opened ProtocolInvariant
  import opened HandshakeSteps
  import opened ChannelSteps
  import opened Conservation
  import opened MoneySteps
  import opened History
  import opened Books
  import opened Continuation
  import opened Theorems
  import opened ChannelOpening
  import opened Clients
  import ConnectionSpec
  import ChannelSpec

  // ----- What holds in a run -----

  /** The invariants of a run, and room in its counters. */
  ghost predicate Facts(c: Chain, peer: Chain) {
    && Sides(c, peer) && ClientsInv(c, peer)
    && c.host.nextClientSequence < TWO_64 - 1 && c.host.nextConnectionSequence < TWO_64 - 1
    && c.host.nextChannelSequence < TWO_64 - 1
  }

  lemma AfterFacts(setup: Setup, steps: seq<Step>, c: Chain, peer: Chain)
    requires After(setup, steps, c, peer)
    ensures Facts(c, peer)
  {
    hide Run, Sound, Sides, ClientsInv;
    var w := Run(setup, steps);
    RunSound(setup, steps);
    SoundSides(w, |steps|);
    SoundBounded(w, |steps|);
    RunClients(setup, steps);
  }

  lemma FactParts(c: Chain, peer: Chain)
    requires Facts(c, peer)
    ensures LocalInv(c) && Links(c, peer) && LocalInv(peer) && Links(peer, c) && Linked(c, peer)
    ensures BookInv(c) && ClientsInv(c, peer)
    ensures MoneyInv(c, peer)
  {
    hide LocalInv, Links, MoneyInv, OrderedInv, BookInv, ClientsInv;
  }

  // ----- Clients -----

  /**
   After any run a client is created exactly for a registered type and a block of the peer, under
   an identifier of its own.
   */
  lemma ClientCreatedExactly(setup: Setup, steps: seq<Step>, c: Chain, peer: Chain, clientType: Bytes, height: nat,
                             client: ClientState)
    requires After(setup, steps, c, peer)
    ensures var id := clientType + Ascii("-") + Decimal(c.host.nextClientSequence);
            && id !in c.host.clientTypes
            && Transact(c, peer, Action.CreateClient(clientType, height, client))
               == if height < |peer.blocks| && height < TWO_64 && clientType in c.host.clientImpls && clientType != []
                  then Ok(WithClient(c, id, clientType, client, height, peer.blocks[height])) else Revert
  {
    hide After, Sides, TypesInv, ShownInv, Transact, ClientId, Decimal;
    AfterFacts(setup, steps, c, peer);
    CreatedExactly(c, peer, clientType, height, client);
    IdentifierTexts(clientType, c.host.nextClientSequence);
  }

  /**
   After any run a client is updated exactly if it exists and its light client accepts the block;
   the block's state is stored, and the latest height becomes the larger of the two.
   */
  lemma ClientUpdatedExactly(setup: Setup, steps: seq<Step>, c: Chain, peer: Chain, clientId: Bytes, height: nat)
    requires After(setup, steps, c, peer)
    ensures Transact(c, peer, Action.UpdateClient(clientId, height))
            == if && height < |peer.blocks| && height < TWO_64 && clientId in c.host.store.clientStates
                  && c.host.lightClient.accepts(clientId, height)
               then Ok(WithUpdate(c, clientId, height, peer.blocks[height])) else Revert
  {
    hide After, Sides, TypesInv, ShownInv, Transact;
    AfterFacts(setup, steps, c, peer);
    UpdatedExactly(c, peer, clientId, height);
  }

  // ----- What a client can be shown -----

  /** The client exists, was shown the peer's block of this height, and the proof is not empty. */
  predicate Consults(c: Chain, clientId: Bytes, height: uint64, proof: Bytes) {
    && proof != []
    && clientId in c.host.store.clientStates && height <= c.host.store.clientStates[clientId].latestHeight
    && ConsensusKey(clientId, height) in c.host.store.consensusStates
  }

  /** In a run a proof is good exactly if the peer's block held what it claims, and the light client proves it. */
  lemma MembershipExactly(c: Chain, peer: Chain, clientId: Bytes, height: uint64, prefix: Bytes, proof: Bytes, path: Path,
                          digest: Digest)
    requires ClientsInv(c, peer)
    ensures Consults(c, clientId, height, proof) ==> height < |peer.blocks|
    ensures VerifyMembership(c.host, clientId, height, prefix, proof, path, digest)
       <==> && Consults(c, clientId, height, proof) && prefix != []
            && CommittedAt(peer.blocks[height].root, path) == Some(digest) && c.host.lightClient.proves(digest)
  {
    hide Numbered, CommittedAt;
    if Consults(c, clientId, height, proof) {
      assert clientId in c.host.clientTypes.Keys;
    }
  }

  // ----- Connections -----

  /** Stored ends have one version and are past their beginning. */
  lemma StoredEnd(c: Chain, id: Bytes)
    requires LocalInv(c) && id in c.host.store.connections
    ensures c.host.store.connections[id].state != CONN_UNINITIALIZED && |c.host.store.connections[id].versions| == 1
  {
    hide ConnectionId, ChannelsInv, ChannelLogInv, EscrowsInv, SequencesInv, SentInv, CommittedInv;
    hide AcknowledgedInv, ReceivedInv, WrittenInv;
    assert ConnectionEvolves(c.connectionOrigins[id], c.host.store.connections[id]);
  }

  /** The one version, with both orderings as its features. */
  function OurVersion(): Version {
    Version(Ascii("1"), [Ascii("ORDER_ORDERED"), Ascii("ORDER_UNORDERED")])
  }

  lemma VersionsAre()
    ensures ConnectionSpec.GetVersions() == [OurVersion()] && ConnectionSpec.COMMITMENT_PREFIX == Ascii("ibc")
  {
    assert Ascii("1") == [49];
    assert Ascii("ORDER_ORDERED") == [79, 82, 68, 69, 82, 95, 79, 82, 68, 69, 82, 69, 68];
    assert Ascii("ORDER_UNORDERED") == [79, 82, 68, 69, 82, 95, 85, 78, 79, 82, 68, 69, 82, 69, 68];
    assert Ascii("ibc") == [105, 98, 99];
  }

  /** The chain with a new connection under the next identifier. */
  function WithConnection(c: Chain, end: ConnectionEnd): Chain {
    var id := Ascii("connection-") + Decimal(c.host.nextConnectionSequence);
    c.(host := c.host.(
         store := c.host.store.(connections := c.host.store.connections[id := end]),
         nextConnectionSequence := Inc64(c.host.nextConnectionSequence)),
       connectionOrigins := c.connectionOrigins[id := end])
  }

  lemma AddedConnection(c: Chain, end: ConnectionEnd)
    ensures var (host, id) := ConnectionSpec.AddConnection(c.host, end);
            RecordConnection(c, host, id) == WithConnection(c, end)
  {
    hide Decimal, ConnectionId;
    IdentifierTexts([], c.host.nextConnectionSequence);
  }

  /** Beginning a connection always goes through, with the client, counterparty and delay asked for. */
  lemma ConnectionBegins(c: Chain, msg: MsgConnectionOpenInit)
    ensures ChainSpec.ConnectionOpenInit(c, msg)
         == WithConnection(c, ConnectionEnd(msg.clientId, [OurVersion()], CONN_INIT, msg.delayPeriod, msg.counterparty))
  {
    hide ConnectionSpec.AddConnection, RecordConnection, ConnectionSpec.GetVersions, OurVersion, WithConnection;
    VersionsAre();
    AddedConnection(c, ConnectionEnd(msg.clientId, [OurVersion()], CONN_INIT, msg.delayPeriod, msg.counterparty));
  }

  /**
   A connection is answered exactly if the peer's block held an INIT end for this client, and held
   exactly the client state of the message under the counterparty's client; both proofs are needed.
   */
  ghost predicate Answerable(c: Chain, peer: Chain, msg: MsgConnectionOpenTry) {
    && |msg.counterpartyVersions| > 0
    && Consults(c, msg.clientId, msg.proofHeight, msg.proofInit) && msg.proofClient != []
    && msg.counterparty.prefix != [] && msg.proofHeight < |peer.blocks|
    && var root, theirs := peer.blocks[msg.proofHeight].root, msg.counterparty;
    && var claimed := ConnectionEnd(theirs.clientId, msg.counterpartyVersions, CONN_INIT, msg.delayPeriod,
                                    Counterparty(msg.clientId, [], Ascii("ibc")));
    && theirs.connectionId in root.connections && root.connections[theirs.connectionId] == claimed
    && theirs.clientId in root.clientStates && root.clientStates[theirs.clientId] == msg.clientState
    && c.host.lightClient.proves(ConnectionDigest(claimed)) && c.host.lightClient.proves(ClientDigest(msg.clientState))
  }

  lemma AnsweredExactly(setup: Setup, steps: seq<Step>, c: Chain, peer: Chain, msg: MsgConnectionOpenTry)
    requires After(setup, steps, c, peer)
    ensures ChainSpec.ConnectionOpenTry(c, msg)
         == if Answerable(c, peer, msg)
            then Ok(WithConnection(c, ConnectionEnd(msg.clientId, [OurVersion()], CONN_TRYOPEN, msg.delayPeriod, msg.counterparty)))
            else Revert
  {
    hide After, Sides, ClientsInv, Answerable, ConnectionSpec.AddConnection, RecordConnection, WithConnection;
    hide ConnectionSpec.VerifyConnectionState, ConnectionSpec.VerifyClientState, ConnectionSpec.GetVersions, OurVersion;
    AfterFacts(setup, steps, c, peer);
    VersionsAre();
    AnswerableIs(c, peer, msg, ConnectionEnd(msg.clientId, [OurVersion()], CONN_TRYOPEN, msg.delayPeriod, msg.counterparty));
    AddedConnection(c, ConnectionEnd(msg.clientId, [OurVersion()], CONN_TRYOPEN, msg.delayPeriod, msg.counterparty));
  }

  lemma AnswerableIs(c: Chain, peer: Chain, msg: MsgConnectionOpenTry, end: ConnectionEnd)
    requires ClientsInv(c, peer) && end.clientId == msg.clientId && end.counterparty == msg.counterparty
    ensures var theirs := msg.counterparty;
            var claimed := ConnectionEnd(theirs.clientId, msg.counterpartyVersions, CONN_INIT, msg.delayPeriod,
                                         Counterparty(msg.clientId, [], Ascii("ibc")));
            Answerable(c, peer, msg)
            <==> && |msg.counterpartyVersions| > 0
                 && ConnectionSpec.VerifyConnectionState(c.host, end, msg.proofHeight, msg.proofInit, theirs.connectionId, claimed)
                 && ConnectionSpec.VerifyClientState(c.host, end, msg.proofHeight, msg.proofClient, msg.clientState)
  {
    hide ClientsInv, VerifyMembership, Consults;
    var theirs := msg.counterparty;
    var claimed := ConnectionEnd(theirs.clientId, msg.counterpartyVersions, CONN_INIT, msg.delayPeriod,
                                 Counterparty(msg.clientId, [], Ascii("ibc")));
    MembershipExactly(c, peer, msg.clientId, msg.proofHeight, theirs.prefix, msg.proofInit, ConnectionPath(theirs.connectionId),
                      ConnectionDigest(claimed));
    MembershipExactly(c, peer, msg.clientId, msg.proofHeight, theirs.prefix, msg.proofClient, ClientPath(theirs.clientId),
                      ClientDigest(msg.clientState));
    SameConsult(c, msg.clientId, msg.proofHeight, msg.proofInit, msg.proofClient);
    SameConsult(c, msg.clientId, msg.proofHeight, msg.proofClient, msg.proofInit);
  }

  lemma SameConsult(c: Chain, clientId: Bytes, height: uint64, proof: Bytes, other: Bytes)
    ensures Consults(c, clientId, height, proof) && other != [] ==> Consults(c, clientId, height, other)
    ensures Consults(c, clientId, height, proof) ==> proof != []
  {
  }

  /** The chain with one connection end replaced. */
  function WithEnd(c: Chain, id: Bytes, end: ConnectionEnd): Chain {
    c.(host := c.host.(store := c.host.store.(connections := c.host.store.connections[id := end])))
  }

  /** What the other end has to be for an acknowledgement: it answered this end, with this one version. */
  function Answer(end: ConnectionEnd, msg: MsgConnectionOpenAck): ConnectionEnd {
    ConnectionEnd(end.counterparty.clientId, [msg.version], CONN_TRYOPEN, end.delayPeriod,
                  Counterparty(end.clientId, msg.connectionId, Ascii("ibc")))
  }

  /**
   A connection is acknowledged exactly at an end in INIT, if the peer's block held the answer to
   it and exactly the client state of the message; both proofs are needed.
   */
  ghost predicate Acknowledgeable(c: Chain, peer: Chain, msg: MsgConnectionOpenAck) {
    && msg.connectionId in c.host.store.connections
    && var end := c.host.store.connections[msg.connectionId];
    && end.state == CONN_INIT && AnswerShown(c, peer, msg, end)
  }

  ghost predicate AnswerShown(c: Chain, peer: Chain, msg: MsgConnectionOpenAck, end: ConnectionEnd) {
    && Consults(c, end.clientId, msg.proofHeight, msg.proofTry) && msg.proofClient != []
    && end.counterparty.prefix != [] && msg.proofHeight < |peer.blocks|
    && var root, other := peer.blocks[msg.proofHeight].root, msg.counterpartyConnectionId;
    && other in root.connections && root.connections[other] == Answer(end, msg)
    && end.counterparty.clientId in root.clientStates && root.clientStates[end.counterparty.clientId] == msg.clientState
    && c.host.lightClient.proves(ConnectionDigest(Answer(end, msg))) && c.host.lightClient.proves(ClientDigest(msg.clientState))
  }

  lemma AnswerShownIs(c: Chain, peer: Chain, msg: MsgConnectionOpenAck, end: ConnectionEnd)
    requires ClientsInv(c, peer)
    ensures AnswerShown(c, peer, msg, end)
       <==> && ConnectionSpec.VerifyConnectionState(c.host, end, msg.proofHeight, msg.proofTry, msg.counterpartyConnectionId,
                                                    Answer(end, msg))
            && ConnectionSpec.VerifyClientState(c.host, end, msg.proofHeight, msg.proofClient, msg.clientState)
  {
    hide ClientsInv, VerifyMembership, Consults, Answer;
    MembershipExactly(c, peer, end.clientId, msg.proofHeight, end.counterparty.prefix, msg.proofTry,
                      ConnectionPath(msg.counterpartyConnectionId), ConnectionDigest(Answer(end, msg)));
    MembershipExactly(c, peer, end.clientId, msg.proofHeight, end.counterparty.prefix, msg.proofClient,
                      ClientPath(end.counterparty.clientId), ClientDigest(msg.clientState));
    SameConsult(c, end.clientId, msg.proofHeight, msg.proofTry, msg.proofClient);
    SameConsult(c, end.clientId, msg.proofHeight, msg.proofClient, msg.proofTry);
  }

  lemma AcknowledgedExactly(setup: Setup, steps: seq<Step>, c: Chain, peer: Chain, msg: MsgConnectionOpenAck)
    requires After(setup, steps, c, peer)
    ensures ChainSpec.ConnectionOpenAck(c, msg)
         == if Acknowledgeable(c, peer, msg)
            then
              var end := c.host.store.connections[msg.connectionId];
              Ok(WithEnd(c, msg.connectionId,
                         ConnectionEnd(end.clientId, [msg.version], CONN_OPEN, end.delayPeriod,
                                       Counterparty(end.counterparty.clientId, msg.counterpartyConnectionId,
                                                    end.counterparty.prefix))))
            else Revert
  {
    hide After, Facts, AnswerShown, LocalInv, Linked;
    hide ConnectionSpec.VerifyConnectionState, ConnectionSpec.VerifyClientState;
    AfterFacts(setup, steps, c, peer);
    FactParts(c, peer);
    VersionsAre();
    if msg.connectionId in c.host.store.connections {
      StoredEnd(c, msg.connectionId);
      AnswerShownIs(c, peer, msg, c.host.store.connections[msg.connectionId]);
    }
    if ChainSpec.ConnectionOpenAck(c, msg).Ok? {
      AckFromInit(c, peer, msg);
    }
  }

  /** A connection is confirmed exactly at an end in TRYOPEN, if the peer's block held the OPEN end that names it. */
  ghost predicate Confirmable(c: Chain, peer: Chain, msg: MsgConnectionOpenConfirm) {
    && msg.connectionId in c.host.store.connections
    && var end := c.host.store.connections[msg.connectionId];
    && end.state == CONN_TRYOPEN
    && Consults(c, end.clientId, msg.proofHeight, msg.proofAck) && end.counterparty.prefix != []
    && msg.proofHeight < |peer.blocks|
    && var root, theirs := peer.blocks[msg.proofHeight].root, end.counterparty;
    && var claimed := ConnectionEnd(theirs.clientId, end.versions, CONN_OPEN, end.delayPeriod,
                                    Counterparty(end.clientId, msg.connectionId, Ascii("ibc")));
    && theirs.connectionId in root.connections && root.connections[theirs.connectionId] == claimed
    && c.host.lightClient.proves(ConnectionDigest(claimed))
  }

  lemma ConfirmedExactly(setup: Setup, steps: seq<Step>, c: Chain, peer: Chain, msg: MsgConnectionOpenConfirm)
    requires After(setup, steps, c, peer)
    ensures ChainSpec.ConnectionOpenConfirm(c, msg)
         == if Confirmable(c, peer, msg)
            then Ok(WithEnd(c, msg.connectionId, c.host.store.connections[msg.connectionId].(state := CONN_OPEN)))
            else Revert
  {
    hide After, Facts, LocalInv, Linked, Links, ClientsInv, VerifyMembership, Consults;
    AfterFacts(setup, steps, c, peer);
    FactParts(c, peer);
    VersionsAre();
    if msg.connectionId in c.host.store.connections {
      StoredEnd(c, msg.connectionId);
      var end := c.host.store.connections[msg.connectionId];
      var claimed := ConnectionEnd(end.counterparty.clientId, end.versions, CONN_OPEN, end.delayPeriod,
                                   Counterparty(end.clientId, msg.connectionId, Ascii("ibc")));
      MembershipExactly(c, peer, end.clientId, msg.proofHeight, end.counterparty.prefix, msg.proofAck,
                        ConnectionPath(end.counterparty.connectionId), ConnectionDigest(claimed));
    }
  }

  // ----- Channels -----

  /** The chain with a new channel of a bound port, and its capability and escrow account. */
  function WithNewChannel(c: Chain, port: Bytes, end: Channel): Chain {
    var id := Ascii("channel-") + Decimal(c.host.nextChannelSequence);
    var key := ChannelKey(port, id);
    c.(host := c.host.(
         store := c.host.store.(channels := c.host.store.channels[key := end]),
         nextSequenceSends := c.host.nextSequenceSends[key := 1],
         nextSequenceRecvs := c.host.nextSequenceRecvs[key := 1],
         nextSequenceAcks := c.host.nextSequenceAcks[key := 1],
         capabilities := c.host.capabilities[port + Ascii("/") + id := [c.app.address]],
         nextChannelSequence := Inc64(c.host.nextChannelSequence)),
       app := c.app.(escrows := c.app.escrows[id := c.app.address]),
       channelOrigins := c.channelOrigins[key := end],
       channelLog := c.channelLog + [key])
  }

  /** A new channel is recorded exactly for a bound port. */
  lemma RecordedExactly(c: Chain, peer: Chain, port: Bytes, end: Channel)
    requires Facts(c, peer) && SlashFree(port)
    ensures var (host, id) := ChannelSpec.AddChannel(c.host, port, end);
            && ChannelKey(port, id) in host.store.channels
            && RecordChannel(c, host, port, id)
               == if port in c.host.capabilities then Ok(WithNewChannel(c, port, end)) else Revert
  {
    hide Facts, Decimal, SlashFree, BookInv, LocalInv, Links, MoneyInv, ClientsInv, ChannelId, ChannelCapabilityPath;
    FactParts(c, peer);
    FreeIn(c, peer, port) by { FactSides(c, peer); }
    var id := ChannelId(c.host.nextChannelSequence);
    IdentifierTexts([], c.host.nextChannelSequence);
    PackedKeys([], port, id, 0);
    if port in c.host.capabilities {
      FactCounters(c, peer);
      NewChannelRecorded(c, port, end);
    }
  }

  lemma FactSides(c: Chain, peer: Chain)
    requires Facts(c, peer)
    ensures Sides(c, peer)
  {
    hide Sides, ClientsInv;
  }

  lemma FactCounters(c: Chain, peer: Chain)
    requires Facts(c, peer)
    ensures c.host.nextChannelSequence < TWO_64 - 1
  {
    hide Sides, ClientsInv;
  }

  /** The one connection a channel is asked to run over, if it exists. */
  predicate OverConnection(c: Chain, end: Channel) {
    |end.connectionHops| == 1 && end.connectionHops[0] in c.host.store.connections
  }

  lemma HopExactly(c: Chain, end: Channel)
    requires LocalInv(c)
    ensures ChannelSpec.HopConnection(c.host, end)
         == if OverConnection(c, end) then Ok(c.host.store.connections[end.connectionHops[0]]) else Revert
    ensures ChannelSpec.GetCounterpartyHops(c.host, end)
         == if OverConnection(c, end) then Ok([c.host.store.connections[end.connectionHops[0]].counterparty.connectionId])
            else Revert
    ensures ChannelSpec.OpenConnection(c.host, end).Ok? && |end.connectionHops| == 1 ==> OverConnection(c, end)
  {
    hide LocalInv;
    if OverConnection(c, end) {
      StoredEnd(c, end.connectionHops[0]);
    }
  }

  /** A channel begins exactly in INIT, over one existing connection, on a bound port. */
  lemma ChannelBegunExactly(setup: Setup, steps: seq<Step>, c: Chain, peer: Chain, msg: MsgChannelOpenInit)
    requires After(setup, steps, c, peer) && SlashFree(msg.portId)
    ensures ChainSpec.ChannelOpenInit(c, msg)
         == if OverConnection(c, msg.channel) && msg.channel.state == CHAN_INIT && msg.portId in c.host.capabilities
            then Ok(WithNewChannel(c, msg.portId, msg.channel)) else Revert
  {
    hide After, Facts, SlashFree, LocalInv, Links, MoneyInv, BookInv, ClientsInv, OverConnection, RecordChannel, WithNewChannel;
    hide ChannelSpec.AddChannel, ChannelSpec.HopConnection;
    AfterFacts(setup, steps, c, peer);
    FactParts(c, peer);
    HopExactly(c, msg.channel);
    RecordedExactly(c, peer, msg.portId, msg.channel);
  }

  /** The peer's block held this channel end under this name, and it can be proved. */
  ghost predicate ShowsChannel(c: Chain, peer: Chain, connection: ConnectionEnd, height: uint64, proof: Bytes, key: ChannelKey,
                               end: Channel)
  {
    && Consults(c, connection.clientId, height, proof) && connection.counterparty.prefix != []
    && height < |peer.blocks|
    && var root := peer.blocks[height].root;
    && key in root.channels && root.channels[key] == end && c.host.lightClient.proves(ChannelDigest(end))
  }

  lemma ShowsChannelIs(c: Chain, peer: Chain, connection: ConnectionEnd, height: uint64, proof: Bytes, key: ChannelKey,
                       end: Channel)
    requires ClientsInv(c, peer)
    ensures ShowsChannel(c, peer, connection, height, proof, key, end)
       <==> ChannelSpec.VerifyChannelState(c.host, connection, height, proof, key.portId, key.channelId, end)
  {
    hide ClientsInv, VerifyMembership, Consults;
    MembershipExactly(c, peer, connection.clientId, height, connection.counterparty.prefix, proof,
                      ChannelPath(key.portId, key.channelId), ChannelDigest(end));
  }

  /** A channel is answered exactly if the peer's block held the INIT end for this port and ordering. */
  ghost predicate ChannelAnswerable(c: Chain, peer: Chain, msg: MsgChannelOpenTry) {
    && OverConnection(c, msg.channel) && msg.channel.state == CHAN_TRYOPEN && msg.portId in c.host.capabilities
    && var connection := c.host.store.connections[msg.channel.connectionHops[0]];
       ShowsChannel(c, peer, connection, msg.proofHeight, msg.proofInit,
                    ChannelKey(msg.channel.counterparty.portId, msg.channel.counterparty.channelId),
                    Channel(CHAN_INIT, msg.channel.ordering, ChannelCounterparty(msg.portId, []),
                            [connection.counterparty.connectionId], msg.counterpartyVersion))
  }

  lemma ChannelAnsweredExactly(setup: Setup, steps: seq<Step>, c: Chain, peer: Chain, msg: MsgChannelOpenTry)
    requires After(setup, steps, c, peer) && SlashFree(msg.portId)
    ensures ChainSpec.ChannelOpenTry(c, msg)
         == if ChannelAnswerable(c, peer, msg) then Ok(WithNewChannel(c, msg.portId, msg.channel)) else Revert
  {
    hide After, Facts, SlashFree, LocalInv, Links, MoneyInv, BookInv, ClientsInv, RecordChannel, WithNewChannel, ShowsChannel;
    hide ChannelSpec.AddChannel, ChannelSpec.HopConnection, ChannelSpec.GetCounterpartyHops, ChannelSpec.VerifyChannelState;
    hide OverConnection;
    AfterFacts(setup, steps, c, peer);
    FactParts(c, peer);
    HopExactly(c, msg.channel);
    RecordedExactly(c, peer, msg.portId, msg.channel);
    if OverConnection(c, msg.channel) {
      HopKnown(c, msg.channel);
      var connection := c.host.store.connections[msg.channel.connectionHops[0]];
      ShowsChannelIs(c, peer, connection, msg.proofHeight, msg.proofInit,
                     ChannelKey(msg.channel.counterparty.portId, msg.channel.counterparty.channelId),
                     Channel(CHAN_INIT, msg.channel.ordering, ChannelCounterparty(msg.portId, []),
                             [connection.counterparty.connectionId], msg.counterpartyVersion));
    }
  }

  lemma HopKnown(c: Chain, end: Channel)
    requires OverConnection(c, end)
    ensures |end.connectionHops| == 1 && end.connectionHops[0] in c.host.store.connections
  {
  }

  lemma OpenHopExactly(c: Chain, key: ChannelKey)
    requires LocalInv(c) && key in c.host.store.channels
    ensures var end := c.host.store.channels[key];
            && end.state != CHAN_UNINITIALIZED && |end.connectionHops| == 1
            && var id := end.connectionHops[0];
               ChannelSpec.OpenConnection(c.host, end)
               == if id in c.host.store.connections && c.host.store.connections[id].state == CONN_OPEN
                  then Ok(c.host.store.connections[id]) else Revert
  {
    hide ConnectionsInv, ChannelLogInv, EscrowsInv, SequencesInv, SentInv, CommittedInv, AcknowledgedInv;
    hide ReceivedInv, WrittenInv;
    ChannelBeginning(c.host.store.channels, c.channelOrigins, key);
  }

  /** An open connection under a stored channel. */
  predicate OverOpenConnection(c: Chain, end: Channel) {
    OverConnection(c, end) && c.host.store.connections[end.connectionHops[0]].state == CONN_OPEN
  }

  /** The chain with one channel end replaced. */
  function WithChannelEnd(c: Chain, key: ChannelKey, end: Channel): Chain {
    c.(host := c.host.(store := c.host.store.(channels := c.host.store.channels[key := end])))
  }

  /**
   A channel is acknowledged exactly at an end in INIT over an open connection, if the peer's block
   held the TRYOPEN end that names it, with this version.
   */
  ghost predicate ChannelAcknowledgeable(c: Chain, peer: Chain, msg: MsgChannelOpenAck) {
    var key := ChannelKey(msg.portId, msg.channelId);
    && key in c.host.store.channels && msg.portId in c.host.capabilities
    && var end := c.host.store.channels[key];
    && end.state == CHAN_INIT && OverOpenConnection(c, end)
    && var connection := c.host.store.connections[end.connectionHops[0]];
       ShowsChannel(c, peer, connection, msg.proofHeight, msg.proofTry,
                    ChannelKey(end.counterparty.portId, msg.counterpartyChannelId),
                    Channel(CHAN_TRYOPEN, end.ordering, ChannelCounterparty(msg.portId, msg.channelId),
                            [connection.counterparty.connectionId], msg.counterpartyVersion))
  }

  lemma ChannelAckFromInit(c: Chain, peer: Chain, msg: MsgChannelOpenAck)
    requires Linked(c, peer) && ChainSpec.ChannelOpenAck(c, msg).Ok?
    requires ChannelKey(msg.portId, msg.channelId) in c.host.store.channels
    ensures c.host.store.channels[ChannelKey(msg.portId, msg.channelId)].state in {CHAN_INIT, CHAN_OPEN}
  {
    hide ChainSpec.ChannelOpenAck, ConnectionsInv, ChannelLogInv, EscrowsInv, SequencesInv, SentInv, CommittedInv;
    hide AcknowledgedInv, ReceivedInv, WrittenInv, ConnectionLinks, ChannelLinks, PacketLinks, ClientsKnow, Kept;
    ChannelOpenAckStep(c, peer, msg);
    ChannelBeginning(c.host.store.channels, c.channelOrigins, ChannelKey(msg.portId, msg.channelId));
  }

  /** Whether a port has an owner. */
  lemma OwnerExactly(c: Chain, s: HostState, port: Bytes)
    requires BookInv(c) && s.capabilities == c.host.capabilities
    ensures ModuleOwner(s, port).Ok? <==> port in c.host.capabilities
  {
    hide SlashFree, NamesChannel, ChannelCapabilityPath;
  }

  lemma ChannelAcknowledgedExactly(setup: Setup, steps: seq<Step>, c: Chain, peer: Chain, msg: MsgChannelOpenAck)
    requires After(setup, steps, c, peer)
    ensures ChainSpec.ChannelOpenAck(c, msg)
         == if ChannelAcknowledgeable(c, peer, msg)
            then
              var key := ChannelKey(msg.portId, msg.channelId);
              var end := c.host.store.channels[key];
              Ok(WithChannelEnd(c, key, Channel(CHAN_OPEN, end.ordering,
                                                ChannelCounterparty(end.counterparty.portId, msg.counterpartyChannelId),
                                                end.connectionHops, msg.counterpartyVersion)))
            else Revert
  {
    hide After, Facts, LocalInv, Links, Linked, MoneyInv, BookInv, ClientsInv, ShowsChannel, ModuleOwner;
    hide ChannelSpec.OpenConnection, ChannelSpec.GetCounterpartyHops, ChannelSpec.VerifyChannelState;
    AfterFacts(setup, steps, c, peer);
    FactParts(c, peer);
    var key := ChannelKey(msg.portId, msg.channelId);
    if key in c.host.store.channels {
      var end := c.host.store.channels[key];
      OpenHopExactly(c, key);
      HopExactly(c, end);
      if OverOpenConnection(c, end) {
        var connection := c.host.store.connections[end.connectionHops[0]];
        ShowsChannelIs(c, peer, connection, msg.proofHeight, msg.proofTry,
                       ChannelKey(end.counterparty.portId, msg.counterpartyChannelId),
                       Channel(CHAN_TRYOPEN, end.ordering, ChannelCounterparty(msg.portId, msg.channelId),
                               [connection.counterparty.connectionId], msg.counterpartyVersion));
        OwnerExactly(c, WithChannelEnd(c, key, Channel(CHAN_OPEN, end.ordering,
                                                       ChannelCounterparty(end.counterparty.portId, msg.counterpartyChannelId),
                                                       end.connectionHops, msg.counterpartyVersion)).host, msg.portId);
      }
      if ChainSpec.ChannelOpenAck(c, msg).Ok? {
        ChannelAckFromInit(c, peer, msg);
      }
    }
  }

  /** A channel is confirmed exactly at an end in TRYOPEN, if the peer's block held the OPEN end that names it. */
  ghost predicate ChannelConfirmable(c: Chain, peer: Chain, msg: MsgChannelOpenConfirm) {
    var key := ChannelKey(msg.portId, msg.channelId);
    && key in c.host.store.channels && msg.portId in c.host.capabilities
    && var end := c.host.store.channels[key];
    && end.state == CHAN_TRYOPEN && OverOpenConnection(c, end)
    && var connection := c.host.store.connections[end.connectionHops[0]];
       ShowsChannel(c, peer, connection, msg.proofHeight, msg.proofAck,
                    ChannelKey(end.counterparty.portId, end.counterparty.channelId),
                    Channel(CHAN_OPEN, end.ordering, ChannelCounterparty(msg.portId, msg.channelId),
                            [connection.counterparty.connectionId], end.version))
  }

  lemma ChannelConfirmedExactly(setup: Setup, steps: seq<Step>, c: Chain, peer: Chain, msg: MsgChannelOpenConfirm)
    requires After(setup, steps, c, peer)
    ensures ChainSpec.ChannelOpenConfirm(c, msg)
         == if ChannelConfirmable(c, peer, msg)
            then
              var key := ChannelKey(msg.portId, msg.channelId);
              Ok(WithChannelEnd(c, key, c.host.store.channels[key].(state := CHAN_OPEN)))
            else Revert
  {
    hide After, Facts, LocalInv, Links, Linked, MoneyInv, BookInv, ClientsInv, ShowsChannel, ModuleOwner;
    hide ChannelSpec.OpenConnection, ChannelSpec.GetCounterpartyHops, ChannelSpec.VerifyChannelState;
    AfterFacts(setup, steps, c, peer);
    FactParts(c, peer);
    var key := ChannelKey(msg.portId, msg.channelId);
    if key in c.host.store.channels {
      var end := c.host.store.channels[key];
      OpenHopExactly(c, key);
      HopExactly(c, end);
      if OverOpenConnection(c, end) {
        var connection := c.host.store.connections[end.connectionHops[0]];
        ShowsChannelIs(c, peer, connection, msg.proofHeight, msg.proofAck,
                       ChannelKey(end.counterparty.portId, end.counterparty.channelId),
                       Channel(CHAN_OPEN, end.ordering, ChannelCounterparty(msg.portId, msg.channelId),
                               [connection.counterparty.connectionId], end.version));
        OwnerExactly(c, WithChannelEnd(c, key, end.(state := CHAN_OPEN)).host, msg.portId);
      }
    }
  }

  /** A port is bound exactly if nobody is bound to it yet; a type is registered exactly if it is new. */
  lemma NamesTakenOnce(setup: Setup, steps: seq<Step>, c: Chain, peer: Chain, name: Bytes)
    requires After(setup, steps, c, peer) && SlashFree(name)
    ensures Transact(c, peer, Action.BindPort(name))
         == if name in c.host.capabilities then Revert
            else Ok(c.(host := c.host.(capabilities := c.host.capabilities[name := [c.app.address]])))
    ensures Transact(c, peer, Action.RegisterClient(name))
         == if name in c.host.clientImpls then Revert
            else Ok(c.(host := c.host.(clientImpls := c.host.clientImpls + {name})))
  {
    hide After, Facts, SlashFree, LocalInv, Links, MoneyInv, ClientsInv, HostSpec.ClaimCapability, CapabilitiesInv;
    AfterFacts(setup, steps, c, peer);
    FactParts(c, peer);
    Claimed(c.host, c.host.store.channels, c.app.address, name);
  }
}
