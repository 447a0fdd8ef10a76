/**
 That the hypotheses about the peer can be met while headers are accepted: three blocks of any
 3 to 255 validators, all honest, and one account. Recovery is as free as real recovery: for
 every digest and every address some string recovers to it.
 */
module PeerInstance {
  import opened Prelude
  import opened BigEndianBytes
  import opened RLPCodec
  import opened Trie
  import opened TrieProofs
  import opened Nibbles
  import opened Seals
  import opened IBFT2Client
  import opened LightClientRuns
  import opened PeerBlocks
  import opened HeaderAcceptance

  datatype Setting = Setting(keccak: HashFunction, account: Address, storage: Hash, vals: seq<Address>)

  // ----- Lengths -----

  lemma StringLength(s: Bytes)
    requires |s| < TWO_64
    ensures |Encode(Str(s))| <= |s| + 9
    ensures |s| == 32 ==> |Encode(Str(s))| == 33
  {
    Pow256At32();
    DigitsAtMost(|s|, 8);
  }

  lemma ListLength(ts: seq<RLPTree>)
    requires |EncodeAll(ts)| < TWO_64
    ensures |EncodeAll(ts)| < |Encode(List(ts))| <= |EncodeAll(ts)| + 9
  {
    Pow256At32();
    DigitsAtMost(|EncodeAll(ts)|, 8);
  }

  lemma {:induction false} AllLength(ts: seq<RLPTree>, k: nat)
    requires forall t | t in ts :: |Encode(t)| <= k
    ensures |EncodeAll(ts)| <= |ts| * k
  {
    hide Encode;
    if ts != [] {
      AllLength(ts[1..], k);
      assert |ts| * k == k + |ts[1..]| * k;
    }
  }

  // ----- The world state -----

  function Record(s: Setting): RLPTree {
    AccountRecord([], [], s.storage, [])
  }

  function World(s: Setting): Node {
    Leaf(Unpack(s.keccak(s.account), 0), Encode(Record(s)))
  }

  lemma RecordLength(s: Setting)
    ensures 32 < |Encode(Record(s))| <= 200
  {
    hide Encode, EncodeAll;
    var ts := [Str([]), Str([]), Str(s.storage), Str([])];
    StringLength([]);
    StringLength(s.storage);
    AllLength(ts, 41);
    ListLength(ts);
    HasStorage(s);
  }

  lemma HasStorage(s: Setting)
    ensures |EncodeAll([Str([]), Str([]), Str(s.storage), Str([])])| >= |Encode(Str(s.storage))|
  {
    hide Encode;
    var last := [Str(s.storage), Str([])];
    assert [Str([]), Str([]), Str(s.storage), Str([])][1..] == [Str([])] + last;
    assert ([Str([])] + last)[1..] == last;
    assert EncodeAll(last) == Encode(Str(s.storage)) + EncodeAll(last[1..]);
    assert EncodeAll([Str([])] + last) == Encode(Str([])) + EncodeAll(last);
  }

  lemma PrefixedLength(key: Bytes)
    requires |key| == 64 && IsNibbles(key)
    ensures |Prefixed(key, true)| <= 64
  {
  }

  /** The node that holds the account is a trie, and holds it. */
  lemma WorldKeyed(s: Setting)
    ensures Keyed(World(s), 0, s.keccak) && |NodeBytes(World(s), s.keccak)| <= 600
    ensures Present(World(s), Unpack(s.keccak(s.account), 0))
    ensures Lookup(World(s), Unpack(s.keccak(s.account), 0)) == Encode(Record(s))
  {
    hide Encode, EncodeAll, Unpack, Prefixed;
    var path := Unpack(s.keccak(s.account), 0);
    var ts := [Str(Prefixed(path, true)), Str(Encode(Record(s)))];
    PrefixedLength(path);
    RecordLength(s);
    StringLength(Prefixed(path, true));
    StringLength(Encode(Record(s)));
    AllLength(ts, 250);
    ListLength(ts);
  }

  // ----- Headers -----

  const NOTHING: RLPTree := Str([])

  function Extra(s: Setting): Bytes {
    ExtraData(NOTHING, s.vals, NOTHING, NOTHING)
  }

  /** The header of the block at a height; the time is the height. */
  function Fields(s: Setting, height: uint64): seq<RLPTree> {
    [NOTHING, NOTHING, NOTHING, Str(s.keccak(NodeBytes(World(s), s.keccak))), NOTHING, NOTHING, NOTHING, NOTHING,
     Str(Digits(height)), NOTHING, NOTHING, Str(Digits(height)), Str(Extra(s)), NOTHING, NOTHING]
  }

  function BlockHeader(s: Setting, height: uint64): Bytes {
    Encode(List(Fields(s, height)))
  }

  lemma ExtraLength(s: Setting)
    requires |s.vals| <= 255
    ensures |Extra(s)| <= 40000
  {
    hide Encode, EncodeAll;
    var items := AddressItems(s.vals);
    forall t | t in items
      ensures |Encode(t)| <= 29
    {
      var i :| 0 <= i < |items| && items[i] == t;
      StringLength(s.vals[i]);
    }
    AllLength(items, 29);
    ListLength(items);
    StringLength([]);
    AllLength([NOTHING, List(items), NOTHING, NOTHING], 8000);
    ListLength([NOTHING, List(items), NOTHING, NOTHING]);
  }

  lemma HeaderLength(s: Setting, height: uint64)
    requires |s.vals| <= 255
    ensures |BlockHeader(s, height)| < TWO_64
  {
    hide Encode, EncodeAll, Digits, Extra, NodeBytes, World, Pow256;
    Pow256At32();
    DigitsAtMost(height, 8);
    ExtraLength(s);
    var fields := Fields(s, height);
    forall t | t in fields
      ensures |Encode(t)| <= 50000
    {
      StringLength(t.payload);
    }
    AllLength(fields, 50000);
    ListLength(fields);
  }

  lemma HeaderParsed(s: Setting, height: uint64)
    requires |s.vals| <= 255
    ensures ParseBesuHeader(BlockHeader(s, height)).Ok?
    ensures var parsed := ParseBesuHeader(BlockHeader(s, height)).value;
            && parsed.height == height == parsed.time
            && parsed.stateRoot == s.keccak(NodeBytes(World(s), s.keccak))
            && Lists(parsed, s.vals)
  {
    hide Encode, EncodeAll, Digits, NodeBytes, ParseBesuHeader, ToBytes, ExtraData;
    HeaderLength(s, height);
    var root := s.keccak(NodeBytes(World(s), s.keccak));
    assert Fields(s, height)[12] == Str(ExtraData(NOTHING, s.vals, NOTHING, NOTHING));
    ParseRoundTrip(Fields(s, height), height, root, height, s.vals);
  }

  // ----- The peer -----

  /** A string of 20 bytes recovers to the address it spells, whatever was signed. */
  function Recover(digest: Hash): Recovery {
    seal => if |seal| == 20 then seal else ZERO_ADDRESS
  }

  function CryptoOf(s: Setting): Crypto {
    Crypto(s.keccak, Recover)
  }

  /** Blocks 1, 2 and 3 by the same validators, over the same world state. */
  function PeerOf(s: Setting): Peer {
    Peer(header => header == BlockHeader(s, 1) || header == BlockHeader(s, 2) || header == BlockHeader(s, 3),
         address => address in s.vals, _ => World(s), _ => s.storage)
  }

  lemma PeerSound(s: Setting)
    requires 3 <= |s.vals| <= 255
    ensures Sound(PeerOf(s), s.account, CryptoOf(s))
  {
    hide Encode, EncodeAll, ParseBesuHeader, Keyed, Unpack, NodeBytes, BlockHeader, World, ToBytes, Guarded, Lookup;
    var peer, crypto := PeerOf(s), CryptoOf(s);
    forall header | peer.isBlock(header)
      ensures Commits(peer, s.account, header, crypto)
    {
      HeaderParsed(s, if header == BlockHeader(s, 1) then 1 else if header == BlockHeader(s, 2) then 2 else 3);
      WorldKeyed(s);
      RecordLength(s);
      RecordIsAccount(s);
    }
    forall header, vals | peer.isBlock(header) && ParseBesuHeader(header).Ok? && Lists(ParseBesuHeader(header).value, vals)
      ensures Guarded(vals, peer.honest)
    {
      HeaderParsed(s, if header == BlockHeader(s, 1) then 1 else if header == BlockHeader(s, 2) then 2 else 3);
      SameList(ParseBesuHeader(header).value, vals, s.vals);
      NoneFaulty(s);
      GuardedExactly(s.vals, peer.honest);
    }
  }

  lemma RecordIsAccount(s: Setting)
    ensures IsAccount(Encode(Record(s)), s.storage)
  {
    hide Encode;
    RecordLength(s);
    assert Encode(Record(s)) == Encode(AccountRecord([], [], s.storage, []));
  }

  lemma SameList(parsed: Parsed, vals: seq<Bytes>, vals': seq<Bytes>)
    requires Lists(parsed, vals) && Lists(parsed, vals')
    ensures vals == vals'
  {
    hide ToBytes;
  }

  lemma NoneFaulty(s: Setting)
    ensures |Faulty(s.vals, PeerOf(s).honest)| == 0
  {
    assert Faulty(s.vals, PeerOf(s).honest) == {};
  }

  // ----- The client and the headers it accepts -----

  function ClientOf(s: Setting): Client {
    Client(s.account, 1)
  }

  /** The state of the block at a height. */
  function StateAt(s: Setting, height: uint64): Consensus {
    Consensus(height, s.storage, s.vals)
  }

  function AccountProof(s: Setting): Bytes {
    Encode(List(NodeList([World(s)], s.keccak)))
  }

  /** A block's header, sealed by all validators, to be checked against block 1. */
  function SealedHeader(s: Setting, height: uint64): IBFT2Client.Header {
    IBFT2Client.Header(BlockHeader(s, height), s.vals, 1, AccountProof(s))
  }

  lemma CreatedGenuine(s: Setting)
    requires 3 <= |s.vals| <= 255
    ensures Genuine(PeerOf(s), 1, StateAt(s, 1))
  {
    hide ParseBesuHeader, BlockHeader, World, ToBytes;
    HeaderParsed(s, 1);
    GenuineFrom(PeerOf(s), BlockHeader(s, 1), 1, StateAt(s, 1));
  }

  lemma ProofLength(s: Setting)
    ensures |AccountProof(s)| < TWO_64
  {
    hide Encode, EncodeAll, World;
    var ts := NodeList([World(s)], s.keccak);
    WorldKeyed(s);
    AllLength(ts, 600);
    ListLength(ts);
  }

  /** The proof presents the one node there is, so nothing can collide. */
  lemma ProofDistinguished(s: Setting, height: uint64)
    ensures Distinguished(PeerOf(s), SealedHeader(s, height), CryptoOf(s))
  {
    hide Encode, EncodeAll, NodeBytes, ListIn, ToList, BlockHeader, ToRLPBytes, Unpack, ItemsOf;
    var proof := AccountProof(s);
    ProofLength(s);
    ListInRead(proof, NodeList([World(s)], s.keccak));
    ListPresents(proof, ListIn(proof).value, [World(s)], s.keccak);
    RecordLength(s);
  }

  function BlockAt(s: Setting, height: uint64): Block {
    Block(Fields(s, height), height, height, s.vals, World(s))
  }

  lemma HonestlyEncoded(s: Setting, height: uint64)
    requires |s.vals| <= 255
    ensures IsBlockHeader(BlockAt(s, height), BlockHeader(s, height), s.keccak)
    ensures ProvesAccount(BlockAt(s, height), s.account, AccountProof(s), s.storage, s.keccak)
  {
    hide Encode, EncodeAll, NodeBytes, Unpack, Keyed, Lookup, NodeList, Digits, ExtraData;
    HeaderLength(s, height);
    assert Fields(s, height)[12] == Str(ExtraData(NOTHING, s.vals, NOTHING, NOTHING));
    WorldKeyed(s);
    ProofLength(s);
    RecordIsAccount(s);
  }

  lemma AllSigned(s: Setting, height: uint64)
    ensures var recover := Recover(s.keccak(BlockHeader(s, height)));
            && |OwnSealed(s.vals, s.vals, recover)| == |s.vals|
            && |Endorsers(s.vals, s.vals, recover)| == |s.vals|
  {
    hide BlockHeader;
    var recover := Recover(s.keccak(BlockHeader(s, height)));
    AllPositions(OwnSealed(s.vals, s.vals, recover), |s.vals|);
    AllPositions(Endorsers(s.vals, s.vals, recover), |s.vals|);
  }

  /** Whatever the latest height is, a sealed block above block 1 is accepted against it. */
  lemma SealedAccepted(s: Setting, client: Client, states: map<uint64, Consensus>, height: uint64)
    requires 3 <= |s.vals| <= 255 && height > 1
    requires client.storeAddress == s.account && 1 in states && states[1] == StateAt(s, 1)
    ensures CheckHeader(client, states, SealedHeader(s, height), CryptoOf(s))
         == Ok((Client(s.account, if client.latestHeight < height then height else client.latestHeight),
                StateAt(s, height), height))
  {
    hide BlockHeader, World, AccountProof, IsBlockHeader, ProvesAccount, Endorsers, OwnSealed, CheckHeader;
    HonestlyEncoded(s, height);
    AllSigned(s, height);
    AcceptedExactly(client, states, SealedHeader(s, height), BlockAt(s, height), s.storage, CryptoOf(s));
    assert WithSlots(s.vals, s.vals) == s.vals;
  }

  /** Every address has a string that recovers to it, whatever the digest. */
  ghost predicate Recoverable(recover: Hash -> Recovery) {
    forall digest: Hash, address: Address :: recover(digest)(address) == address
  }

  /**
   The client, created at block 1, accepts block 3 and then, below its latest height, block 2, both
   sealed by honest validators; it stores both states, and its latest height stays 3.
   */
  ghost predicate Follows(s: Setting) {
    var peer, crypto, client := PeerOf(s), CryptoOf(s), ClientOf(s);
    var headers := [SealedHeader(s, 3), SealedHeader(s, 2)];
    var end := Run(Create(client, StateAt(s, 1)), headers, crypto);
    && Recoverable(crypto.recover)
    && Sound(peer, client.storeAddress, crypto)
    && Genuine(peer, client.latestHeight, StateAt(s, 1))
    && (forall header | header in headers ::
          && Distinguished(peer, header, crypto) && HonestSeals(peer, header, crypto)
          && SealedByHonest(peer, header, 0, crypto))
    && end.states == map[1 := StateAt(s, 1), 2 := StateAt(s, 2), 3 := StateAt(s, 3)]
    && end.client == Client(s.account, 3)
  }

  /** Every such setting meets the hypotheses of `PeerBlocks.RunGenuine` in a run that accepts both headers. */
  lemma FollowsPeer(s: Setting)
    requires 3 <= |s.vals| <= 255
    ensures Follows(s)
  {
    hide ParseBesuHeader, BlockHeader, World, Sound, Genuine, Distinguished, AccountProof, CheckHeader;
    PeerSound(s);
    CreatedGenuine(s);
    ProofDistinguished(s, 2);
    ProofDistinguished(s, 3);
    var crypto, later, below := CryptoOf(s), SealedHeader(s, 3), SealedHeader(s, 2);
    var start := Create(ClientOf(s), StateAt(s, 1));
    SealedAccepted(s, start.client, start.states, 3);
    var next := Update(start, later, crypto);
    SealedAccepted(s, next.client, next.states, 2);
    TwoUpdates(start, later, below, crypto);
  }

  lemma TwoUpdates(start: Stored, first: IBFT2Client.Header, second: IBFT2Client.Header, crypto: Crypto)
    ensures Run(start, [first, second], crypto) == Update(Update(start, first, crypto), second, crypto)
  {
    hide Update;
    assert [first, second][..1] == [first] && [first][..0] == [];
    assert Run(start, [], crypto) == start;
    assert Run(start, [first], crypto) == Update(start, first, crypto);
  }
}
