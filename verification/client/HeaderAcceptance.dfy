/** Which headers a light client accepts, among those that Besu encodes and that carry an honest account proof. */
module HeaderAcceptance {
  import opened Prelude
  import opened BigEndianBytes
  import opened RLPCodec
  import opened Trie
  import opened TrieProofs
  import opened Nibbles
  import opened Seals
  import opened IBFT2Client
  import opened PeerBlocks

  /** A block as Besu encodes it: its header's list, what the client reads of it, and its world state. */
  datatype Block = Block(fields: seq<RLPTree>, height: uint64, time: uint64, validators: seq<Address>, world: Node)

  /** The header commits to the world state. */
  ghost predicate IsBlockHeader(block: Block, header: Bytes, keccak: HashFunction) {
    && header == Encode(List(block.fields)) && |header| < TWO_64
    && EncodesHeader(block.fields, block.height, keccak(NodeBytes(block.world, keccak)), block.time, block.validators)
    && Keyed(block.world, 0, keccak)
  }

  /** The proof is the list of nodes down to the account, whose record has this storage root. */
  ghost predicate ProvesAccount(block: Block, account: Bytes, proof: Bytes, storage: Hash, keccak: HashFunction) {
    var path := Unpack(keccak(account), 0);
    && Present(block.world, path) && IsAccount(Lookup(block.world, path), storage)
    && proof == Encode(List(NodeList(PathTo(block.world, path), keccak))) && |proof| < TWO_64
  }

  lemma ProofRead(block: Block, header: Bytes, account: Bytes, proof: Bytes, storage: Hash, crypto: Crypto)
    requires IsBlockHeader(block, header, crypto.keccak) && ProvesAccount(block, account, proof, storage, crypto.keccak)
    ensures StorageRoot(account, crypto.keccak(NodeBytes(block.world, crypto.keccak)), proof, crypto) == Ok(storage)
  {
    hide Encode, EncodesHeader, NodeBytes, ListIn, Unpack, Keyed, Verify, Holds, ToUint, BigEndian, Lookup, NodeList, IsAccount;
    hide PathTo, Present;
    WholeHolds(proof);
    VerifyComplete(proof, 0, block.world, crypto.keccak(account), crypto.keccak);
    AccountRead(Lookup(block.world, Unpack(crypto.keccak(account), 0)), storage);
  }

  // ----- Seals -----

  /** The positions of these validators that some seal recovers to. */
  ghost function Endorsers(vals: seq<Bytes>, seals: seq<Bytes>, recover: Recovery): set<nat> {
    set j | 0 <= j < |vals| && exists i :: 0 <= i < |seals| && seals[i] != [] && recover(seals[i]) == vals[j]
  }

  /** The positions whose own seal recovers to the validator there. */
  ghost function OwnSealed(vals: seq<Bytes>, seals: seq<Bytes>, recover: Recovery): set<nat> {
    set i | 0 <= i < |vals| && i < |seals| && seals[i] != [] && recover(seals[i]) == vals[i]
  }

  /** What is stored of the validators: those with a seal slot. */
  function WithSlots(validators: seq<Bytes>, seals: seq<Bytes>): seq<Bytes> {
    seq(|validators|, i requires 0 <= i < |validators| => if i < |seals| then validators[i] else [])
  }

  lemma EndorsersAre(vals: seq<Bytes>, seals: seq<Bytes>, recover: Recovery)
    ensures Endorsed(vals, seals, recover) == Endorsers(vals, seals, recover)
  {
    forall j: nat
      ensures EndorsedBy(vals, j, seals, recover) <==> j in Endorsers(vals, seals, recover)
    {
      if j in Endorsers(vals, seals, recover) {
        var i :| 0 <= i < |seals| && seals[i] != [] && recover(seals[i]) == vals[j];
        assert SignedBy(seals, i, vals[j], recover);
      }
    }
  }

  lemma SignersAre(validators: seq<Bytes>, seals: seq<Bytes>, recover: Recovery)
    ensures Signers(WithSlots(validators, seals), seals, recover) == OwnSealed(validators, seals, recover)
  {
  }

  lemma CommittedExactly(parsed: Parsed, validators: seq<Address>, seals: seq<Bytes>, recover: Recovery)
    requires Lists(parsed, validators)
    ensures CommittedSeals(parsed.extra, parsed.validators, seals, recover)
         == if |seals| <= |validators|
            then Ok((WithSlots(validators, seals),
                     |validators| * 2 / 3 < |OwnSealed(validators, seals, recover)| < 256))
            else Revert
  {
    hide ToBytes, Signers, OwnSealed;
    if |seals| <= |validators| {
      CommittedAre(parsed.extra, parsed.validators, seals, WithSlots(validators, seals));
      SignersAre(validators, seals, recover);
      QuorumCount(WithSlots(validators, seals), seals, recover);
    }
  }

  // ----- Acceptance -----

  /**
   The header is above a stored state whose validators are all addresses; the seals recover to
   at least a third of these and to more than two thirds of the header's own, at most 255 of them,
   the former counted modulo 256.
   */
  ghost predicate Acceptable(client: Client, states: map<uint64, Consensus>, header: Header, block: Block, crypto: Crypto) {
    && |client.storeAddress| == 20
    && header.trustedHeight in states && block.height > header.trustedHeight
    && |header.seals| <= |block.validators|
    && var recover := crypto.recover(crypto.keccak(header.besuHeader));
    && var trusted := states[header.trustedHeight].validators;
    && (forall j | 0 <= j < |trusted| :: |trusted[j]| == 20)
    && |Endorsers(trusted, header.seals, recover)| % 256 >= |trusted| / 3
    && |block.validators| * 2 / 3 < |OwnSealed(block.validators, header.seals, recover)| < 256
  }

  lemma VerifiedExactly(client: Client, states: map<uint64, Consensus>, header: Header, block: Block, parsed: Parsed,
                        crypto: Crypto)
    requires header.trustedHeight in states && Lists(parsed, block.validators)
    requires block.height > header.trustedHeight && |client.storeAddress| == 20
    ensures VerifyHeader(states[header.trustedHeight], header, parsed, crypto)
         == if Acceptable(client, states, header, block, crypto) then Ok(WithSlots(block.validators, header.seals)) else Revert
  {
    hide ToBytes, Endorsers, OwnSealed, Endorsed, SealsFit, CommittedSeals, WithSlots, Lists;
    var recover := crypto.recover(crypto.keccak(header.besuHeader));
    EndorsersAre(states[header.trustedHeight].validators, header.seals, recover);
    CommittedExactly(parsed, block.validators, header.seals, recover);
    if AllEmpty(header.seals) {
      NoneSealed(block.validators, header.seals, recover);
    }
  }

  lemma NoneSealed(vals: seq<Bytes>, seals: seq<Bytes>, recover: Recovery)
    requires AllEmpty(seals)
    ensures |OwnSealed(vals, seals, recover)| == 0
  {
    assert OwnSealed(vals, seals, recover) == {};
  }

  /**
   For every stored trusted state and every latest height: a header that Besu encodes, with its
   honest account proof, is accepted exactly if it is acceptable. Its time, its storage root and
   its validators with a seal slot are stored at its height, and the latest height becomes the
   larger of the two.
   */
  lemma AcceptedExactly(client: Client, states: map<uint64, Consensus>, header: Header, block: Block, storage: Hash,
                        crypto: Crypto)
    requires IsBlockHeader(block, header.besuHeader, crypto.keccak)
    requires ProvesAccount(block, client.storeAddress, header.accountProof, storage, crypto.keccak)
    ensures CheckHeader(client, states, header, crypto)
         == if Acceptable(client, states, header, block, crypto)
            then Ok((Client(client.storeAddress, if client.latestHeight < block.height then block.height else client.latestHeight),
                     Consensus(block.time, storage, WithSlots(block.validators, header.seals)),
                     block.height))
            else Revert
  {
    hide EncodesHeader, Encode, ParseBesuHeader, ToBytes, VerifyHeader, StorageRoot, NodeBytes, Keyed, ProvesAccount;
    hide Endorsers, OwnSealed, WithSlots;
    ParseRoundTrip(block.fields, block.height, crypto.keccak(NodeBytes(block.world, crypto.keccak)), block.time, block.validators);
    var parsed := ParseBesuHeader(header.besuHeader).value;
    ProofRead(block, header.besuHeader, client.storeAddress, header.accountProof, storage, crypto);
    if && |client.storeAddress| == 20 && header.trustedHeight in states && block.height > header.trustedHeight {
      VerifiedExactly(client, states, header, block, parsed, crypto);
    }
  }
}
