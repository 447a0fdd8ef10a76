/** Creating and updating light clients, as functions of the host's state. */
module ClientSpec {
  import opened Prelude
  import opened IBCIdentifier
  import opened IBCTypes
  import opened HostSpec

  function RegisterClient(s: HostState, clientType: Bytes): Result<HostState> {
    if clientType in s.clientImpls then Revert else Ok(s.(clientImpls := s.clientImpls + {clientType}))
  }

  function SetClientType(s: HostState, clientId: Bytes, clientType: Bytes): Result<HostState> {
    var _ :- Require(clientId in s.clientTypes ==> s.clientTypes[clientId] == []);
    var _ :- Require(clientType != []);
    Ok(s.(clientTypes := s.clientTypes[clientId := clientType]))
  }

  function CreateClient(s: HostState, clientType: Bytes, height: uint64, client: ClientState, consensus: ConsensusState):
    Result<(HostState, Bytes)>
  {
    var _ :- Require(clientType in s.clientImpls);
    var clientId := ClientId(clientType, s.nextClientSequence);
    var s1 :- SetClientType(s.(nextClientSequence := Inc64(s.nextClientSequence)), clientId, clientType);
    Ok((SetConsensusState(SetClientState(s1, clientId, client), clientId, height, consensus), clientId))
  }

  /** The client's state after a header for `height` was accepted. */
  function Advance(c: ClientState, height: uint64): ClientState {
    if height > c.latestHeight then c.(latestHeight := height) else c
  }

  /** `consensus` is what the light client makes of a header for `height`, if it accepts one. */
  function UpdateClient(s: HostState, clientId: Bytes, height: uint64, consensus: ConsensusState): Result<HostState> {
    var _ :- Require(clientId in s.store.clientStates);
    var _ :- Require(HasClientImpl(s, clientId));
    var _ :- Require(s.lightClient.accepts(clientId, height));
    Ok(SetConsensusState(SetClientState(s, clientId, Advance(s.store.clientStates[clientId], height)), clientId, height, consensus))
  }
}
