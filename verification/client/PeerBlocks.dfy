/**
 When what a light client stores is the peer's: if it was created from a block of the peer,
 no header it is shown carries an honest validator's seal without being a block's, and too few
 validators of each block are faulty, then every state it ever stores is that of a block of
 the peer.
 */
module PeerBlocks {
  import opened Prelude
  import opened BigEndianBytes
  import opened RLPCodec
  import opened Trie
  import opened TrieProofs
  import opened Nibbles
  import opened Seals
  import opened IBFT2Client
  import opened LightClientRuns

  // ----- The peer -----

  /**
   The chain a client follows: which headers, without seals, are those of its blocks; which
   validators are honest; and, for each header, the world state that the block commits to and
   the storage root the store's account has in it.
   */
  datatype Peer = Peer(
    isBlock: Bytes -> bool,
    honest: Bytes -> bool,
    world: Bytes -> Node,
    storage: Bytes -> Hash)

  /** An account's record: nonce, balance, storage root and code hash. */
  ghost predicate IsAccount(record: Bytes, storage: Hash) {
    |record| < TWO_64 && exists nonce, balance, code :: record == Encode(AccountRecord(nonce, balance, storage, code))
  }

  function AccountRecord(nonce: Bytes, balance: Bytes, storage: Hash, code: Bytes): RLPTree {
    List([Str(nonce), Str(balance), Str(storage), Str(code)])
  }

  /** The header commits to a world state that holds the account, if at all, with its storage root. */
  ghost predicate Commits(peer: Peer, account: Bytes, header: Bytes, crypto: Crypto) {
    && |account| == 20
    && ParseBesuHeader(header).Ok?
    && ParseBesuHeader(header).value.stateRoot == crypto.keccak(NodeBytes(peer.world(header), crypto.keccak))
    && Keyed(peer.world(header), 0, crypto.keccak)
    && var record := Lookup(peer.world(header), Unpack(crypto.keccak(account), 0));
       record == [] || IsAccount(record, peer.storage(header))
  }

  ghost predicate BlocksCommit(peer: Peer, account: Bytes, crypto: Crypto) {
    forall header | peer.isBlock(header) :: Commits(peer, account, header, crypto)
  }

  /**
   No seal that the header carries is an honest validator's, unless the header is a block's:
   honest validators seal nothing else, and nobody forges their seals. Strings that nobody
   presents may well recover to an honest validator.
   */
  ghost predicate HonestSeals(peer: Peer, header: Header, crypto: Crypto) {
    forall i | 0 <= i < |header.seals| && SealedByHonest(peer, header, i, crypto) :: peer.isBlock(header.besuHeader)
  }

  predicate SealedByHonest(peer: Peer, header: Header, i: nat, crypto: Crypto) {
    && i < |header.seals| && header.seals[i] != []
    && peer.honest(crypto.recover(crypto.keccak(header.besuHeader))(header.seals[i]))
  }

  // ----- Validators -----

  /** Whichever third of the validators endorses something, one of them is honest. */
  ghost predicate Guarded(vals: seq<Bytes>, honest: Bytes -> bool) {
    forall s: set<nat> :: Positioned(s, |vals|) && |s| >= |vals| / 3 ==> HasHonest(vals, s, honest)
  }

  ghost predicate Positioned(s: set<nat>, n: nat) {
    forall j | j in s :: j < n
  }

  ghost predicate HasHonest(vals: seq<Bytes>, s: set<nat>, honest: Bytes -> bool) {
    exists j :: j in s && j < |vals| && honest(vals[j])
  }

  ghost function Faulty(vals: seq<Bytes>, honest: Bytes -> bool): (s: set<nat>)
    ensures forall j :: j in s <==> 0 <= j < |vals| && !honest(vals[j])
  {
    set j | 0 <= j < |vals| && !honest(vals[j])
  }

  /** Validators are guarded exactly if fewer than floor(n/3) of them are faulty. */
  lemma GuardedExactly(vals: seq<Bytes>, honest: Bytes -> bool)
    ensures Guarded(vals, honest) <==> |Faulty(vals, honest)| < |vals| / 3
  {
    var faulty := Faulty(vals, honest);
    if |faulty| >= |vals| / 3 {
      assert Positioned(faulty, |vals|) && !HasHonest(vals, faulty, honest);
    } else {
      forall s: set<nat> | Positioned(s, |vals|) && |s| >= |vals| / 3
        ensures HasHonest(vals, s, honest)
      {
        if s <= faulty {
          SubsetAtMost(s, faulty);
        }
      }
    }
  }

  /** The header lists exactly these validators. */
  ghost predicate Lists(parsed: Parsed, vals: seq<Bytes>) {
    && |vals| == |parsed.validators|
    && forall i | 0 <= i < |vals| :: ToBytes(parsed.extra, parsed.validators[i]) == Ok(vals[i])
  }

  ghost predicate BlocksGuarded(peer: Peer) {
    forall header, vals | peer.isBlock(header) && ParseBesuHeader(header).Ok? && Lists(ParseBesuHeader(header).value, vals) ::
      Guarded(vals, peer.honest)
  }

  // ----- States of blocks -----

  /** The validators of the header, some of them possibly left out. */
  ghost predicate ListsPart(parsed: Parsed, vals: seq<Bytes>) {
    && |vals| == |parsed.validators|
    && forall i | 0 <= i < |vals| :: vals[i] == [] || ToBytes(parsed.extra, parsed.validators[i]) == Ok(vals[i])
  }

  /** The state is what the header says of its height. */
  ghost predicate StateOf(peer: Peer, header: Bytes, height: uint64, state: Consensus) {
    && ParseBesuHeader(header).Ok?
    && var parsed := ParseBesuHeader(header).value;
    && parsed.height == height && parsed.time == state.timestamp
    && state.root == peer.storage(header)
    && ListsPart(parsed, state.validators)
  }

  ghost predicate Genuine(peer: Peer, height: uint64, state: Consensus) {
    exists header :: peer.isBlock(header) && StateOf(peer, header, height, state)
  }

  /** Validators that are all there are those of the header. */
  lemma AllListed(parsed: Parsed, vals: seq<Bytes>)
    requires ListsPart(parsed, vals) && AllAddresses(vals)
    ensures Lists(parsed, vals)
  {
    hide ToBytes;
  }

  lemma GenuineGuarded(peer: Peer, height: uint64, state: Consensus)
    requires Genuine(peer, height, state) && BlocksGuarded(peer) && AllAddresses(state.validators)
    ensures Guarded(state.validators, peer.honest)
  {
    hide ParseBesuHeader, Guarded, ListsPart, Lists, AllAddresses;
    var header :| peer.isBlock(header) && StateOf(peer, header, height, state);
    AllListed(ParseBesuHeader(header).value, state.validators);
  }

  // ----- Checking a header against a state of a block -----

  /** A header that passes both checks against guarded validators is a block's. */
  lemma EndorsedIsBlock(peer: Peer, trusted: Consensus, header: Header, parsed: Parsed, crypto: Crypto)
    requires HonestSeals(peer, header, crypto) && Guarded(trusted.validators, peer.honest)
    requires VerifyHeader(trusted, header, parsed, crypto).Ok?
    ensures peer.isBlock(header.besuHeader)
  {
    hide SealsFit, AllEmpty, AllAddresses;
    var recover := crypto.recover(crypto.keccak(header.besuHeader));
    var endorsed := Endorsed(trusted.validators, header.seals, recover);
    TrustingCount(trusted.validators, header.seals, recover);
    assert Positioned(endorsed, |trusted.validators|);
    var j :| j in endorsed && j < |trusted.validators| && peer.honest(trusted.validators[j]);
    var i: nat :| SignedBy(header.seals, i, trusted.validators[j], recover);
    assert SealedByHonest(peer, header, i, crypto);
  }

  lemma StoredValidators(trusted: Consensus, header: Header, parsed: Parsed, crypto: Crypto)
    requires VerifyHeader(trusted, header, parsed, crypto).Ok?
    ensures ListsPart(parsed, VerifyHeader(trusted, header, parsed, crypto).value)
  {
    hide ToBytes, SealsFit, AllEmpty, AllAddresses, EndorsedBy, SignedBy;
  }

  // ----- The storage root -----

  lemma AccountRead(record: Bytes, storage: Hash)
    requires IsAccount(record, storage)
    ensures ListIn(record).Ok? && |ListIn(record).value| > 2
    ensures BigEndian(ToUint(record, ListIn(record).value[2]), 32) == storage
  {
    hide Encode, ToUint, Holds, ListIn, ItemsOf, ToBytes, IsList, BigEndian, FromBigEndian;
    var nonce, balance, code :| record == Encode(AccountRecord(nonce, balance, storage, code));
    var ts := [Str(nonce), Str(balance), Str(storage), Str(code)];
    ListInRead(record, ts);
    var items := ListIn(record).value;
    ItemAt(record, items, ts, 2);
    UintRead(record, items[2].memPtr, storage);
    BigEndianRoundTrip(storage);
  }

  lemma NoListInNothing()
    ensures ListIn([]) == Revert
  {
  }

  /** An accepted account proof gives the storage root of the account in the block. */
  lemma StorageRootSound(peer: Peer, account: Bytes, header: Bytes, proof: Bytes, crypto: Crypto)
    requires Commits(peer, account, header, crypto)
    requires ListIn(proof).Ok? ==> NoCollision(peer.world(header), Presented(proof, ListIn(proof).value), crypto.keccak)
    requires StorageRoot(account, ParseBesuHeader(header).value.stateRoot, proof, crypto).Ok?
    ensures StorageRoot(account, ParseBesuHeader(header).value.stateRoot, proof, crypto).value == peer.storage(header)
  {
    hide Keyed, NoCollision, NodeBytes, Unpack, ToList, VerifyFrom, ToBytes, ParseBesuHeader, ToUint, BigEndian, IsAccount;
    var path := crypto.keccak(account);
    var record := Verify(proof, |proof|, 0, ParseBesuHeader(header).value.stateRoot, path, crypto.keccak).value;
    if record == [] {
      NoListInNothing();
    }
    VerifySound(proof, |proof|, 0, peer.world(header), path, crypto.keccak, record);
    AccountRead(record, peer.storage(header));
  }

  // ----- Runs -----

  /** No string of the header's account proof collides with the world state of its block. */
  ghost predicate Distinguished(peer: Peer, header: Header, crypto: Crypto) {
    peer.isBlock(header.besuHeader) && ListIn(header.accountProof).Ok? ==>
      NoCollision(peer.world(header.besuHeader), Presented(header.accountProof, ListIn(header.accountProof).value), crypto.keccak)
  }

  ghost predicate AllGenuine(peer: Peer, s: Stored) {
    forall height | height in s.states :: Genuine(peer, height, s.states[height])
  }

  /** What is assumed of the peer. */
  ghost predicate Sound(peer: Peer, account: Bytes, crypto: Crypto) {
    BlocksCommit(peer, account, crypto) && BlocksGuarded(peer)
  }

  lemma AcceptedGenuine(peer: Peer, client: Client, states: map<uint64, Consensus>, header: Header, crypto: Crypto)
    requires Sound(peer, client.storeAddress, crypto)
    requires Distinguished(peer, header, crypto) && HonestSeals(peer, header, crypto)
    requires header.trustedHeight in states ==> Genuine(peer, header.trustedHeight, states[header.trustedHeight])
    requires CheckHeader(client, states, header, crypto).Ok?
    ensures var (next, consensus, height) := CheckHeader(client, states, header, crypto).value;
            Genuine(peer, height, consensus) && next.storeAddress == client.storeAddress
  {
    hide ParseBesuHeader, VerifyHeader, StorageRoot, HonestSeals, BlocksGuarded, Genuine, ListsPart, NoCollision, Commits;
    hide Presented, ListIn, Guarded;
    var trusted := states[header.trustedHeight];
    var parsed := ParseBesuHeader(header.besuHeader).value;
    TrustedListsAddresses(trusted, header, parsed, crypto);
    GenuineGuarded(peer, header.trustedHeight, trusted);
    EndorsedIsBlock(peer, trusted, header, parsed, crypto);
    StoredValidators(trusted, header, parsed, crypto);
    assert Commits(peer, client.storeAddress, header.besuHeader, crypto);
    StorageRootSound(peer, client.storeAddress, header.besuHeader, header.accountProof, crypto);
    var (_, consensus, height) := CheckHeader(client, states, header, crypto).value;
    assert StateOf(peer, header.besuHeader, height, consensus);
    GenuineFrom(peer, header.besuHeader, height, consensus);
  }

  lemma GenuineFrom(peer: Peer, header: Bytes, height: uint64, state: Consensus)
    requires peer.isBlock(header) && StateOf(peer, header, height, state)
    ensures Genuine(peer, height, state)
  {
    hide StateOf;
  }

  /**
   In every run of a client that was created from a block of the peer, every stored state is
   that of a block of the peer: its height, its time, the storage root of the store's account
   in it, and validators it lists.
   */
  lemma {:induction false} RunGenuine(peer: Peer, client: Client, consensus: Consensus, headers: seq<Header>, crypto: Crypto)
    requires Sound(peer, client.storeAddress, crypto)
    requires Genuine(peer, client.latestHeight, consensus)
    requires forall header | header in headers :: Distinguished(peer, header, crypto) && HonestSeals(peer, header, crypto)
    ensures AllGenuine(peer, Run(Create(client, consensus), headers, crypto))
    ensures Run(Create(client, consensus), headers, crypto).client.storeAddress == client.storeAddress
  {
    hide Sound, Genuine, Distinguished, HonestSeals, CheckHeader;
    if headers != [] {
      var before, header := headers[..|headers| - 1], headers[|headers| - 1];
      RunGenuine(peer, client, consensus, before, crypto);
      var s := Run(Create(client, consensus), before, crypto);
      if CheckHeader(s.client, s.states, header, crypto).Ok? {
        UpdateShape(s, header, crypto);
        AcceptedGenuine(peer, s.client, s.states, header, crypto);
      }
    }
  }
}
