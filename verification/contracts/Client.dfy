/** Creating and updating light clients, and asking them for verification. */
module ClientContract {
  import opened Prelude
  import opened IBCIdentifier
  import opened IBCTypes
  import opened HostSpec
  import opened HostContract
  import ClientSpec

  /** `getClient`, as far as whether there is one. */
  method HasClient(host: IBCHost, clientId: Bytes) returns (found: bool)
    ensures found == HasClientImpl(host.State(), clientId)
  {
    var clientType := if clientId in host.clientTypes then host.clientTypes[clientId] else [];
    return clientType in host.clientRegistry;
  }

  /** On a revert the caller undoes what was done so far. */
  method CreateClient(host: IBCHost, clientType: Bytes, height: uint64, client: ClientState, consensus: ConsensusState)
    returns (r: Result<Bytes>)
    requires host.Valid()
    modifies host
    ensures match ClientSpec.CreateClient(old(host.State()), clientType, height, client, consensus)
            case Ok((s, id)) => r == Ok(id) && host.Valid() && host.State() == s
            case Revert => r.Revert?
  {
    hide ClientId;
    if clientType !in host.clientRegistry {
      return Revert;
    }
    var clientId := host.GenerateClientIdentifier(clientType);
    var typed := host.SetClientType(clientId, clientType);
    if typed.Revert? {
      return Revert;
    }
    host.SetClientState(clientId, client);
    host.SetConsensusState(clientId, height, consensus);
    return Ok(clientId);
  }

  /** `consensus` is what the light client makes of a header for `height`, if it accepts one. */
  method UpdateClient(host: IBCHost, clientId: Bytes, height: uint64, consensus: ConsensusState) returns (r: Result<()>)
    requires host.Valid()
    modifies host
    ensures match ClientSpec.UpdateClient(old(host.State()), clientId, height, consensus)
            case Ok(s) => r.Ok? && host.Valid() && host.State() == s
            case Revert => r.Revert?
  {
    if clientId !in host.clientStates {
      return Revert;
    }
    var found := HasClient(host, clientId);
    if !found {
      return Revert;
    }
    if !host.lightClient.accepts(clientId, height) {
      return Revert;
    }
    var client := host.clientStates[clientId];
    if height > client.latestHeight {
      client := client.(latestHeight := height);
    }
    host.SetClientState(clientId, client);
    host.SetConsensusState(clientId, height, consensus);
    return Ok(());
  }

  /** The checks of a `verify...` call, a missing client included. */
  method Verify(host: IBCHost, clientId: Bytes, height: uint64, prefix: Bytes, proof: Bytes, path: Path, digest: Digest)
    returns (ok: bool)
    ensures ok == VerifyMembership(host.State(), clientId, height, prefix, proof, path, digest)
  {
    hide CommittedAt;
    var found := HasClient(host, clientId);
    if !found || clientId !in host.clientStates {
      return false;
    }
    var client := host.clientStates[clientId];
    if client.latestHeight < height || |prefix| == 0 || |proof| == 0 {
      return false;
    }
    var key := ConsensusKey(clientId, height);
    if key !in host.consensusStates {
      return false;
    }
    return CommittedAt(host.consensusStates[key].root, path) == Some(digest) && host.lightClient.proves(digest);
  }
}
