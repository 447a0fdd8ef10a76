/** The connection handshake as a function of the host's state. */
module ConnectionSpec {
  import opened Prelude
  import opened IBCIdentifier
  import opened IBCTypes
  import opened HostSpec

  const COMMITMENT_PREFIX: Bytes := [105, 98, 99]  // "ibc"

  /** The one version every connection starts with, and its two features. */
  function GetVersions(): (vs: seq<Version>)
    ensures |vs| == 1
  {
    [Version([49],
             [[79, 82, 68, 69, 82, 95, 79, 82, 68, 69, 82, 69, 68],
              [79, 82, 68, 69, 82, 95, 85, 78, 79, 82, 68, 69, 82, 69, 68]])]
  }

  predicate VerifyConnectionState(s: HostState, connection: ConnectionEnd, height: uint64, proof: Bytes,
                                  connectionId: Bytes, expected: ConnectionEnd)
  {
    VerifyMembership(s, connection.clientId, height, connection.counterparty.prefix, proof,
                     ConnectionPath(connectionId), ConnectionDigest(expected))
  }

  predicate VerifyClientState(s: HostState, connection: ConnectionEnd, height: uint64, proof: Bytes,
                              clientState: ClientState)
  {
    VerifyMembership(s, connection.clientId, height, connection.counterparty.prefix, proof,
                     ClientPath(connection.counterparty.clientId), ClientDigest(clientState))
  }

  /** Stores a connection under a freshly generated identifier. */
  function AddConnection(s: HostState, connection: ConnectionEnd): (HostState, Bytes) {
    var connectionId := ConnectionId(s.nextConnectionSequence);
    (SetConnection(s.(nextConnectionSequence := Inc64(s.nextConnectionSequence)), connectionId, connection), connectionId)
  }

  function ConnectionOpenInit(s: HostState, msg: MsgConnectionOpenInit): (HostState, Bytes) {
    AddConnection(s, ConnectionEnd(msg.clientId, GetVersions(), CONN_INIT, msg.delayPeriod, msg.counterparty))
  }

  function ConnectionOpenTry(s: HostState, msg: MsgConnectionOpenTry): Result<(HostState, Bytes)> {
    var _ :- Require(|msg.counterpartyVersions| > 0);
    var connection :=
      ConnectionEnd(msg.clientId, GetVersions(), CONN_TRYOPEN, msg.delayPeriod, msg.counterparty);
    var expected :=
      ConnectionEnd(msg.counterparty.clientId, msg.counterpartyVersions, CONN_INIT, msg.delayPeriod,
                    Counterparty(msg.clientId, [], COMMITMENT_PREFIX));
    var _ :- Require(VerifyConnectionState(s, connection, msg.proofHeight, msg.proofInit,
                                           msg.counterparty.connectionId, expected));
    var _ :- Require(VerifyClientState(s, connection, msg.proofHeight, msg.proofClient, msg.clientState));
    Ok(AddConnection(s, connection))
  }

  function ConnectionOpenAck(s: HostState, msg: MsgConnectionOpenAck): Result<HostState> {
    var connection :- GetConnection(s, msg.connectionId);
    var _ :- Require(connection.state == CONN_INIT || connection.state == CONN_TRYOPEN);
    var _ :- Require(connection.state == CONN_TRYOPEN ==>
                       |connection.versions| == 1 && connection.versions[0] == msg.version);
    var expected :=
      ConnectionEnd(connection.counterparty.clientId, [msg.version], CONN_TRYOPEN, connection.delayPeriod,
                    Counterparty(connection.clientId, msg.connectionId, COMMITMENT_PREFIX));
    var _ :- Require(VerifyConnectionState(s, connection, msg.proofHeight, msg.proofTry,
                                           msg.counterpartyConnectionId, expected));
    var _ :- Require(VerifyClientState(s, connection, msg.proofHeight, msg.proofClient, msg.clientState));
    Ok(SetConnection(s, msg.connectionId,
                     connection.(state := CONN_OPEN, versions := [msg.version],
                                 counterparty := connection.counterparty.(connectionId := msg.counterpartyConnectionId))))
  }

  function ConnectionOpenConfirm(s: HostState, msg: MsgConnectionOpenConfirm): Result<HostState> {
    var connection :- GetConnection(s, msg.connectionId);
    var _ :- Require(connection.state == CONN_TRYOPEN);
    var expected :=
      ConnectionEnd(connection.counterparty.clientId, connection.versions, CONN_OPEN, connection.delayPeriod,
                    Counterparty(connection.clientId, msg.connectionId, COMMITMENT_PREFIX));
    var _ :- Require(VerifyConnectionState(s, connection, msg.proofHeight, msg.proofAck,
                                           connection.counterparty.connectionId, expected));
    Ok(SetConnection(s, msg.connectionId, connection.(state := CONN_OPEN)))
  }
}
