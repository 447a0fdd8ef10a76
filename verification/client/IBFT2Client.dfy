/**
 The IBFT 2.0 light client: parsing Besu headers, checking them against a trusted state, and
 verifying membership in a counterparty's storage. The digest and signature recovery are
 parameters.
 */
module IBFT2Client {
  import opened Prelude
  import opened BigEndianBytes
  import opened RLPCodec
  import opened Trie
  import opened TrieProofs
  import opened Nibbles
  import opened Seals

  /** `keccak256`, and `ECRecovery.recover` for a block hash. */
  datatype Crypto = Crypto(keccak: HashFunction, recover: Hash -> Recovery)

  datatype Client = Client(storeAddress: Bytes, latestHeight: uint64)

  datatype Consensus = Consensus(timestamp: uint64, root: Bytes, validators: seq<Bytes>)

  datatype Header = Header(besuHeader: Bytes, seals: seq<Bytes>, trustedHeight: uint64, accountProof: Bytes)

  /** The validators are items in the memory that holds the header's extra data. */
  datatype Parsed = Parsed(height: uint64, stateRoot: Hash, time: uint64, extra: Bytes, validators: seq<RLPItem>)

  /** A list read from bytes of its own. */
  function ListIn(mem: Bytes): Result<seq<RLPItem>> {
    ToList(mem, ToRLPItem(|mem|, 0))
  }

  function Bytes32In(mem: Bytes, item: RLPItem): Result<Hash> {
    var b :- ToBytes(mem, item);
    if |b| == 32 then Ok(b) else Revert
  }

  /** `parseBesuHeader`, reverting where it indexes out of range. */
  function ParseBesuHeader(header: Bytes): Result<Parsed> {
    var items :- ListIn(header);
    var _ :- Require(|items| == 15);
    var stateRoot :- Bytes32In(header, items[3]);
    var extra :- ToBytes(header, items[12]);
    var parts :- ListIn(extra);
    var _ :- Require(|parts| == 4);
    var validators :- ToList(extra, parts[1]);
    Ok(Parsed(ToUint(header, items[8]) % TWO_64, stateRoot, ToUint(header, items[11]) % TWO_64, extra, validators))
  }

  // ----- Checking a header -----

  /** What `verifyCommitSealsTrusting` gives with a third as the trust level. */
  ghost function TrustedSeals(trusted: seq<Bytes>, seals: seq<Bytes>, recover: Recovery): Result<bool> {
    if AllEmpty(seals) || AllAddresses(trusted)
    then Ok(|Endorsed(trusted, seals, recover)| % 256 >= Portion(|trusted|, 1, 3))
    else Revert
  }

  /** What `verifyCommitSeals` gives. */
  ghost function CommittedSeals(mem: Bytes, items: seq<RLPItem>, seals: seq<Bytes>, recover: Recovery):
    Result<(seq<Bytes>, bool)>
  {
    if SealsFit(mem, items, seals) then
      var validators := seq(|items|, i requires 0 <= i < |items| =>
                              if i < |seals| && ToBytes(mem, items[i]).Ok? then ToBytes(mem, items[i]).value else []);
      Ok((validators, |Signers(validators, seals, recover)| % 256 > |items| * 2 / 3))
    else Revert
  }

  /** `verify`. */
  ghost function VerifyHeader(trusted: Consensus, header: Header, parsed: Parsed, crypto: Crypto): Result<seq<Bytes>> {
    var recover := crypto.recover(crypto.keccak(header.besuHeader));
    var trustedOk :- TrustedSeals(trusted.validators, header.seals, recover);
    var _ :- Require(trustedOk);
    var (validators, ok) :- CommittedSeals(parsed.extra, parsed.validators, header.seals, recover);
    var _ :- Require(ok);
    Ok(validators)
  }

  /** `verifyStorageProof`: the storage root of the account, the third item of its record. */
  function StorageRoot(account: Bytes, stateRoot: Hash, proof: Bytes, crypto: Crypto): Result<Bytes> {
    var accountRLP :- Verify(proof, |proof|, 0, stateRoot, crypto.keccak(account), crypto.keccak);
    var items :- ListIn(accountRLP);
    var _ :- Require(|items| > 2);
    Ok(BigEndian(ToUint(accountRLP, items[2]), 32))
  }

  /** `checkHeaderAndUpdateState`: the new client state, and the consensus state at the header's height. */
  ghost function CheckHeader(client: Client, states: map<uint64, Consensus>, header: Header, crypto: Crypto):
    Result<(Client, Consensus, uint64)>
  {
    var _ :- Require(header.trustedHeight in states);
    var trusted := states[header.trustedHeight];
    var parsed :- ParseBesuHeader(header.besuHeader);
    var _ :- Require(parsed.height > header.trustedHeight);
    var validators :- VerifyHeader(trusted, header, parsed, crypto);
    var _ :- Require(|client.storeAddress| == 20);
    var root :- StorageRoot(client.storeAddress, parsed.stateRoot, header.accountProof, crypto);
    Ok((if parsed.height > client.latestHeight then client.(latestHeight := parsed.height) else client,
        Consensus(parsed.time, root, validators),
        parsed.height))
  }

  method VerifyHeaderLoops(trusted: Consensus, header: Header, parsed: Parsed, crypto: Crypto) returns (r: Result<seq<Bytes>>)
    ensures r == VerifyHeader(trusted, header, parsed, crypto)
  {
    hide ToBytes, SealsFit, AllEmpty, AllAddresses, Portion;
    var recover := crypto.recover(crypto.keccak(header.besuHeader));
    var trustedOk := VerifyCommitSealsTrusting(trusted.validators, header.seals, recover, 1, 3);
    if trustedOk.Revert? || !trustedOk.value {
      return Revert;
    }
    var committed := VerifyCommitSeals(parsed.extra, parsed.validators, header.seals, recover);
    if committed.Revert? {
      return Revert;
    }
    var (validators, ok) := committed.value;
    CommittedAre(parsed.extra, parsed.validators, header.seals, validators);
    return if ok then Ok(validators) else Revert;
  }

  lemma CommittedAre(mem: Bytes, items: seq<RLPItem>, seals: seq<Bytes>, validators: seq<Bytes>)
    requires SealsFit(mem, items, seals) && |validators| == |items|
    requires forall i | 0 <= i < |items| :: Ok(validators[i]) == Listed(mem, items, seals)[i]
    ensures validators == seq(|items|, i requires 0 <= i < |items| =>
                                if i < |seals| && ToBytes(mem, items[i]).Ok? then ToBytes(mem, items[i]).value else [])
  {
    hide ToBytes;
  }

  /** `checkHeaderAndUpdateState` with its loops. */
  method CheckHeaderAndUpdateState(client: Client, states: map<uint64, Consensus>, header: Header, crypto: Crypto)
    returns (r: Result<(Client, Consensus, uint64)>)
    ensures r == CheckHeader(client, states, header, crypto)
  {
    hide VerifyHeader, ParseBesuHeader, StorageRoot;
    if header.trustedHeight !in states {
      return Revert;
    }
    var consensus := states[header.trustedHeight];
    var parsed := ParseBesuHeader(header.besuHeader);
    if parsed.Revert? || parsed.value.height <= header.trustedHeight {
      return Revert;
    }
    var validators := VerifyHeaderLoops(consensus, header, parsed.value, crypto);
    if validators.Revert? || |client.storeAddress| != 20 {
      return Revert;
    }
    var root := StorageRoot(client.storeAddress, parsed.value.stateRoot, header.accountProof, crypto);
    if root.Revert? {
      return Revert;
    }
    consensus := consensus.(timestamp := parsed.value.time, root := root.value, validators := validators.value);
    var updated := client;
    if parsed.value.height > client.latestHeight {
      updated := updated.(latestHeight := parsed.value.height);
    }
    return Ok((updated, consensus, parsed.value.height));
  }

  // ----- Trusting what was stored -----

  /** A header with a seal slot for each validator, each validator being an address. */
  ghost predicate FullyListed(header: Header, parsed: Parsed) {
    && |header.seals| == |parsed.validators|
    && forall i | 0 <= i < |parsed.validators| :: IsAddressItem(parsed.extra, parsed.validators[i])
  }

  predicate IsAddressItem(mem: Bytes, item: RLPItem) {
    ToBytes(mem, item).Ok? && |ToBytes(mem, item).value| == 20
  }

  /** The stored validators of an accepted header are all addresses exactly if it was fully listed. */
  lemma StoredAddresses(trusted: Consensus, header: Header, parsed: Parsed, crypto: Crypto)
    requires VerifyHeader(trusted, header, parsed, crypto).Ok?
    ensures AllAddresses(VerifyHeader(trusted, header, parsed, crypto).value) <==> FullyListed(header, parsed)
  {
    hide ToBytes, AllEmpty, EndorsedBy, SignedBy;
    var vals := VerifyHeader(trusted, header, parsed, crypto).value;
    forall i | 0 <= i < |vals|
      ensures |vals[i]| == 20 <==> i < |header.seals| && IsAddressItem(parsed.extra, parsed.validators[i])
    {
    }
    if |header.seals| < |vals| {
      assert |vals[|header.seals|]| != 20;
    }
  }

  lemma NoSigners(vals: seq<Bytes>, seals: seq<Bytes>, recover: Recovery)
    requires AllEmpty(seals)
    ensures |Signers(vals, seals, recover)| == 0
  {
    assert Signers(vals, seals, recover) == {};
  }

  /** A header without any seal is never accepted, so what was trusted lists addresses only. */
  lemma TrustedListsAddresses(trusted: Consensus, header: Header, parsed: Parsed, crypto: Crypto)
    requires VerifyHeader(trusted, header, parsed, crypto).Ok?
    ensures AllAddresses(trusted.validators)
  {
    hide ToBytes, SealsFit, EndorsedBy, AllEmpty, AllAddresses, SignedBy;
    var recover := crypto.recover(crypto.keccak(header.besuHeader));
    if AllEmpty(header.seals) {
      NoSigners(VerifyHeader(trusted, header, parsed, crypto).value, header.seals, recover);
    }
  }

  /**
   The state an accepted header leaves can be trusted later exactly if the header was fully
   listed: otherwise the check of any later seal against it reverts, and no header is ever
   accepted against it.
   */
  lemma TrustedLater(trusted: Consensus, header: Header, parsed: Parsed, crypto: Crypto, state: Consensus, later: Header,
                     laterParsed: Parsed)
    requires VerifyHeader(trusted, header, parsed, crypto) == Ok(state.validators)
    ensures var recover := crypto.recover(crypto.keccak(later.besuHeader));
            !AllEmpty(later.seals) ==>
              (TrustedSeals(state.validators, later.seals, recover).Ok? <==> FullyListed(header, parsed))
    ensures VerifyHeader(state, later, laterParsed, crypto).Ok? ==> FullyListed(header, parsed)
  {
    hide FullyListed, AllAddresses, AllEmpty, VerifyHeader;
    StoredAddresses(trusted, header, parsed, crypto);
    if VerifyHeader(state, later, laterParsed, crypto).Ok? {
      TrustedListsAddresses(state, later, laterParsed, crypto);
    }
  }

  // ----- Headers as Besu encodes them -----

  /** The list a header is encoded as, for the fields the client reads. */
  ghost predicate EncodesHeader(fields: seq<RLPTree>, height: uint64, stateRoot: Hash, time: uint64, validators: seq<Address>) {
    && |fields| == 15
    && fields[3] == Str(stateRoot)
    && fields[8] == Str(Digits(height))
    && fields[11] == Str(Digits(time))
    && exists vanity, vote, round :: fields[12] == Str(ExtraData(vanity, validators, vote, round))
  }

  function AddressItems(validators: seq<Address>): (items: seq<RLPTree>)
    ensures |items| == |validators|
    ensures forall i | 0 <= i < |items| :: items[i] == Str(validators[i])
  {
    seq(|validators|, i requires 0 <= i < |validators| => Str(validators[i]))
  }

  function ExtraData(vanity: RLPTree, validators: seq<Address>, vote: RLPTree, round: RLPTree): Bytes {
    Encode(List([vanity, List(AddressItems(validators)), vote, round]))
  }

  lemma WholeHolds(s: Bytes)
    ensures Holds(s, 0, s)
  {
  }

  lemma ListInRead(s: Bytes, ts: seq<RLPTree>)
    requires s == Encode(List(ts)) && |s| < TWO_64
    ensures ListIn(s).Ok? && ItemsOf(s, ListIn(s).value, ts)
  {
    hide ToList, ItemsOf, Encode, Holds;
    WholeHolds(s);
    ListRead(s, 0, ts);
  }

  lemma UintItem(mem: Bytes, item: RLPItem, x: uint64)
    requires item == RLPItem(|Encode(Str(Digits(x)))|, item.memPtr) && Holds(mem, item.memPtr, Encode(Str(Digits(x))))
    ensures ToUint(mem, item) == x
  {
    hide Encode, ToUint, Holds, Digits;
    Pow256At32();
    DigitsAtMost(x, 8);
    UintRead(mem, item.memPtr, Digits(x));
    DigitsRoundTrip(x);
  }

  lemma ExtraRead(extra: Bytes, vanity: RLPTree, validators: seq<Address>, vote: RLPTree, round: RLPTree)
    requires extra == ExtraData(vanity, validators, vote, round) && |extra| < TWO_64
    ensures ListIn(extra).Ok? && |ListIn(extra).value| == 4
    ensures ToList(extra, ListIn(extra).value[1]).Ok?
    ensures var items := ToList(extra, ListIn(extra).value[1]).value;
            |items| == |validators| && forall i | 0 <= i < |items| :: ToBytes(extra, items[i]) == Ok(validators[i])
  {
    hide Encode, ToList, ListIn, ItemsOf, ToBytes, IsList, Holds;
    var ts := [vanity, List(AddressItems(validators)), vote, round];
    ListInRead(extra, ts);
    ItemAt(extra, ListIn(extra).value, ts, 1);
    ListRead(extra, ListIn(extra).value[1].memPtr, AddressItems(validators));
    var items := ToList(extra, ListIn(extra).value[1]).value;
    if validators != [] {
      ItemAt(extra, items, AddressItems(validators), 0);
    } else {
      NoItemsOf(extra, items);
    }
    forall i | 0 <= i < |validators|
      ensures ToBytes(extra, items[i]) == Ok(validators[i])
    {
      ItemAt(extra, items, AddressItems(validators), i);
    }
  }

  lemma NoItemsOf(mem: Bytes, items: seq<RLPItem>)
    requires ItemsOf(mem, items, [])
    ensures items == []
  {
  }

  /** Parsing what Besu encodes gives back the fields and the validators. */
  lemma ParseRoundTrip(fields: seq<RLPTree>, height: uint64, stateRoot: Hash, time: uint64, validators: seq<Address>)
    requires EncodesHeader(fields, height, stateRoot, time, validators)
    requires |Encode(List(fields))| < TWO_64
    ensures var parsed := ParseBesuHeader(Encode(List(fields)));
            && parsed.Ok?
            && parsed.value.height == height && parsed.value.stateRoot == stateRoot && parsed.value.time == time
            && |parsed.value.validators| == |validators|
            && forall i | 0 <= i < |validators| ::
                 ToBytes(parsed.value.extra, parsed.value.validators[i]) == Ok(validators[i])
  {
    hide Encode, ToList, ListIn, ItemsOf, ToBytes, IsList, Holds, ToUint, Digits, ExtraData, Payload;
    var s := Encode(List(fields));
    var vanity, vote, round :| fields[12] == Str(ExtraData(vanity, validators, vote, round));
    var extra := ExtraData(vanity, validators, vote, round);
    ListInRead(s, fields);
    var items := ListIn(s).value;
    ItemAt(s, items, fields, 3);
    PayloadOfString(stateRoot);
    ItemAt(s, items, fields, 8);
    UintItem(s, items[8], height);
    ItemAt(s, items, fields, 11);
    UintItem(s, items[11], time);
    ItemAt(s, items, fields, 12);
    PayloadOfString(extra);
    EncodeNoShorter(extra);
    ExtraRead(extra, vanity, validators, vote, round);
  }

  /**
   Of all lists whose extra data is a list, those with fifteen fields, a state root of 32 bytes,
   four parts of the extra data and a list of validators are parsed, and no others.
   */
  lemma ParsedExactly(fields: seq<RLPTree>, parts: seq<RLPTree>)
    requires |Encode(List(fields))| < TWO_64
    requires |fields| > 12 ==> fields[12] == Str(Encode(List(parts)))
    ensures ParseBesuHeader(Encode(List(fields))).Ok?
       <==> |fields| == 15 && |Payload(fields[3])| == 32 && |parts| == 4 && parts[1].List?
  {
    hide Encode, ListIn, ItemsOf, ToBytes, IsList, Holds, ToUint, Payload;
    var s := Encode(List(fields));
    ListInRead(s, fields);
    var items := ListIn(s).value;
    if fields == [] {
      NoItemsOf(s, items);
    } else {
      ItemAt(s, items, fields, 0);
    }
    if |fields| == 15 {
      var extra := Encode(List(parts));
      ItemAt(s, items, fields, 3);
      ItemAt(s, items, fields, 12);
      PayloadOfString(extra);
      EncodeNoShorter(extra);
      ListInRead(extra, parts);
      if parts == [] {
        NoItemsOf(extra, ListIn(extra).value);
      } else {
        ItemAt(extra, ListIn(extra).value, parts, if |parts| == 4 then 1 else 0);
      }
    }
  }

  lemma PayloadOfString(s: Bytes)
    ensures Payload(Str(s)) == s
  {
  }

  lemma EncodeNoShorter(s: Bytes)
    ensures |Encode(Str(s))| >= |s|
  {
  }

  // ----- Membership -----

  /** `verifyMembership`: compares the digest read from the storage proof with the expected one. */
  function VerifyMembership(proof: Bytes, root: Hash, slot: Hash, expected: Hash, crypto: Crypto): Result<bool> {
    var data :- Verify(proof, |proof|, 0, root, crypto.keccak(slot), crypto.keccak);
    var stored :- Bytes32In(data, ToRLPItem(|data|, 0));
    Ok(expected == stored)
  }

  function Stripped(s: Bytes): Bytes {
    if s != [] && s[0] == 0 then Stripped(s[1..]) else s
  }

  /** What a storage trie holds for a word: the encoding of its bytes without leading zeros. */
  function StorageValue(word: Hash): Bytes {
    Encode(Str(Stripped(word)))
  }

  lemma {:induction false} StrippedShorter(s: Bytes)
    ensures |Stripped(s)| <= |s|
    ensures s != [] && s[0] == 0 ==> |Stripped(s)| < |s|
  {
    if s != [] && s[0] == 0 {
      StrippedShorter(s[1..]);
    }
  }

  /** The digest read from a storage value: a word that starts with a zero byte is refused. */
  lemma StorageValueRead(word: Hash)
    ensures Bytes32In(StorageValue(word), ToRLPItem(|StorageValue(word)|, 0))
         == if word[0] != 0 then Ok(word) else Revert
  {
    EncodeShort(Stripped(word)) by { StrippedShorter(word); }
    hide Encode, ToBytes, Holds, Payload;
    var data := StorageValue(word);
    WholeHolds(data);
    BytesRead(data, 0, Str(Stripped(word)));
    PayloadOfString(Stripped(word));
    StrippedShorter(word);
  }

  /**
   Membership is sound: against the root of a trie of storage words, `true` means that the
   trie holds the expected digest at the slot.
   */
  lemma MembershipSound(proof: Bytes, storage: Node, slot: Hash, expected: Hash, word: Hash, crypto: Crypto)
    requires Keyed(storage, 0, crypto.keccak)
    requires ListIn(proof).Ok? ==> NoCollision(storage, Presented(proof, ListIn(proof).value), crypto.keccak)
    requires Lookup(storage, Unpack(crypto.keccak(slot), 0)) in {[], StorageValue(word)}
    requires VerifyMembership(proof, crypto.keccak(NodeBytes(storage, crypto.keccak)), slot, expected, crypto) == Ok(true)
    ensures Lookup(storage, Unpack(crypto.keccak(slot), 0)) == StorageValue(word) && word == expected
  {
    hide Keyed, NoCollision, NodeBytes, Unpack, StorageValue, ToList, VerifyFrom, ToBytes, Encode;
    var root := crypto.keccak(NodeBytes(storage, crypto.keccak));
    var data := Verify(proof, |proof|, 0, root, crypto.keccak(slot), crypto.keccak).value;
    if data == [] {
      NothingRead();
    }
    VerifySound(proof, |proof|, 0, storage, crypto.keccak(slot), crypto.keccak, data);
    StorageValueRead(word);
  }

  lemma NothingRead()
    ensures Bytes32In([], ToRLPItem(0, 0)) == Revert
  {
  }

  /**
   Membership is complete exactly for digests that do not start with a zero byte: on the
   honest proof of a stored word the check tells whether it is the expected one, unless the
   word starts with a zero byte; then it reverts, as it does where nothing is stored.
   */
  lemma MembershipComplete(storage: Node, slot: Hash, expected: Hash, word: Hash, crypto: Crypto)
    requires Keyed(storage, 0, crypto.keccak)
    requires Lookup(storage, Unpack(crypto.keccak(slot), 0)) in {[], StorageValue(word)}
    requires |Encode(List(NodeList(PathTo(storage, Unpack(crypto.keccak(slot), 0)), crypto.keccak)))| < TWO_64
    ensures var proof := Encode(List(NodeList(PathTo(storage, Unpack(crypto.keccak(slot), 0)), crypto.keccak)));
            VerifyMembership(proof, crypto.keccak(NodeBytes(storage, crypto.keccak)), slot, expected, crypto)
            == if Lookup(storage, Unpack(crypto.keccak(slot), 0)) == StorageValue(word) && word[0] != 0
               then Ok(expected == word) else Revert
  {
    hide Keyed, NodeBytes, Unpack, StorageValue, ToList, Verify, ToBytes, Encode, Holds, NodeList, Bytes32In, Lookup, PathTo;
    hide Strays, Present;
    var proof := Encode(List(NodeList(PathTo(storage, Unpack(crypto.keccak(slot), 0)), crypto.keccak)));
    WholeHolds(proof);
    VerifyComplete(proof, 0, storage, crypto.keccak(slot), crypto.keccak);
    StorageValueRead(word);
    NothingRead();
    ValueNotEmpty(word);
  }

  lemma ValueNotEmpty(word: Hash)
    ensures StorageValue(word) != []
  {
  }
}
