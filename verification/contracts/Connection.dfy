/** The four steps of the connection handshake, on the host contract. */
module ConnectionContract {
  import opened Prelude
  import opened IBCIdentifier
  import opened IBCTypes
  import opened HostSpec
  import opened ConnectionSpec
  import opened HostContract
  import opened ClientContract

  /** Every stored connection holds exactly one version, so copying them succeeds. */
  ghost predicate SingleVersions(connections: map<Bytes, ConnectionEnd>) {
    forall id | id in connections :: |connections[id].versions| == 1
  }

  method Add(host: IBCHost, connection: ConnectionEnd) returns (id: Bytes)
    requires host.Valid() && SingleVersions(host.connections) && |connection.versions| == 1
    modifies host
    ensures host.Valid() && SingleVersions(host.connections)
    ensures (host.State(), id) == AddConnection(old(host.State()), connection)
  {
    hide ConnectionId;
    id := host.GenerateConnectionIdentifier();
    var stored := host.SetConnection(id, connection);
    assert stored.Ok?;
  }

  method OpenInit(host: IBCHost, msg: MsgConnectionOpenInit) returns (id: Bytes)
    requires host.Valid() && SingleVersions(host.connections)
    modifies host
    ensures host.Valid() && SingleVersions(host.connections)
    ensures (host.State(), id) == ConnectionOpenInit(old(host.State()), msg)
  {
    hide AddConnection;
    id := Add(host, ConnectionEnd(msg.clientId, GetVersions(), CONN_INIT, msg.delayPeriod, msg.counterparty));
  }

  method OpenTry(host: IBCHost, msg: MsgConnectionOpenTry) returns (r: Result<Bytes>)
    requires host.Valid() && SingleVersions(host.connections)
    modifies host
    ensures match ConnectionOpenTry(old(host.State()), msg)
            case Ok((s, id)) => r == Ok(id) && host.Valid() && SingleVersions(host.connections) && host.State() == s
            case Revert => r.Revert?
  {
    hide AddConnection, VerifyMembership, SingleVersions;
    if |msg.counterpartyVersions| == 0 {
      return Revert;
    }
    var connection := ConnectionEnd(msg.clientId, GetVersions(), CONN_TRYOPEN, msg.delayPeriod, msg.counterparty);
    var expected :=
      ConnectionEnd(msg.counterparty.clientId, msg.counterpartyVersions, CONN_INIT, msg.delayPeriod,
                    Counterparty(msg.clientId, [], COMMITMENT_PREFIX));
    var proved := Verify(host, connection.clientId, msg.proofHeight, connection.counterparty.prefix, msg.proofInit,
                         ConnectionPath(msg.counterparty.connectionId), ConnectionDigest(expected));
    if !proved {
      return Revert;
    }
    proved := Verify(host, connection.clientId, msg.proofHeight, connection.counterparty.prefix, msg.proofClient,
                     ClientPath(connection.counterparty.clientId), ClientDigest(msg.clientState));
    if !proved {
      return Revert;
    }
    var id := Add(host, connection);
    return Ok(id);
  }

  method OpenAck(host: IBCHost, msg: MsgConnectionOpenAck) returns (r: Result<()>)
    requires host.Valid() && SingleVersions(host.connections)
    modifies host
    ensures match ConnectionOpenAck(old(host.State()), msg)
            case Ok(s) => r.Ok? && host.Valid() && SingleVersions(host.connections) && host.State() == s
            case Revert => r.Revert?
  {
    hide VerifyMembership;
    var connection, found := host.GetConnection(msg.connectionId);
    if !found || (connection.state != CONN_INIT && connection.state != CONN_TRYOPEN) {
      return Revert;
    }
    if connection.state == CONN_TRYOPEN && (|connection.versions| != 1 || connection.versions[0] != msg.version) {
      return Revert;
    }
    var expected :=
      ConnectionEnd(connection.counterparty.clientId, [msg.version], CONN_TRYOPEN, connection.delayPeriod,
                    Counterparty(connection.clientId, msg.connectionId, COMMITMENT_PREFIX));
    var proved := Verify(host, connection.clientId, msg.proofHeight, connection.counterparty.prefix, msg.proofTry,
                         ConnectionPath(msg.counterpartyConnectionId), ConnectionDigest(expected));
    if !proved {
      return Revert;
    }
    proved := Verify(host, connection.clientId, msg.proofHeight, connection.counterparty.prefix, msg.proofClient,
                     ClientPath(connection.counterparty.clientId), ClientDigest(msg.clientState));
    if !proved {
      return Revert;
    }
    connection := connection.(state := CONN_OPEN, versions := expected.versions,
                              counterparty := connection.counterparty.(connectionId := msg.counterpartyConnectionId));
    r := host.SetConnection(msg.connectionId, connection);
  }

  method OpenConfirm(host: IBCHost, msg: MsgConnectionOpenConfirm) returns (r: Result<()>)
    requires host.Valid() && SingleVersions(host.connections)
    modifies host
    ensures match ConnectionOpenConfirm(old(host.State()), msg)
            case Ok(s) => r.Ok? && host.Valid() && SingleVersions(host.connections) && host.State() == s
            case Revert => r.Revert?
  {
    hide VerifyMembership;
    var connection, found := host.GetConnection(msg.connectionId);
    if !found || connection.state != CONN_TRYOPEN {
      return Revert;
    }
    var expected :=
      ConnectionEnd(connection.counterparty.clientId, connection.versions, CONN_OPEN, connection.delayPeriod,
                    Counterparty(connection.clientId, msg.connectionId, COMMITMENT_PREFIX));
    var proved := Verify(host, connection.clientId, msg.proofHeight, connection.counterparty.prefix, msg.proofAck,
                         ConnectionPath(connection.counterparty.connectionId), ConnectionDigest(expected));
    if !proved {
      return Revert;
    }
    r := host.SetConnection(msg.connectionId, connection.(state := CONN_OPEN));
  }
}
