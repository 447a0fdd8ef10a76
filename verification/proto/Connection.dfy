/** `MerklePrefix`, `Version`, `Counterparty` and `ConnectionEnd`: their bytes, and what their parsers make of bytes. */
module ConnectionMessages {
  import opened Prelude
  import opened Wire
  import IBCTypes
  import ChannelMessages

  type Version = IBCTypes.Version

  // ----- MerklePrefix -----

  datatype MerklePrefix = MerklePrefix(keyPrefix: Bytes)

  const NO_PREFIX: MerklePrefix := MerklePrefix([])

  function PrefixFields(m: MerklePrefix): seq<Field> {
    BytesField(1, m.keyPrefix) + []
  }

  function EncodePrefix(m: MerklePrefix): Bytes {
    EncodeFields(PrefixFields(m))
  }

  function ApplyPrefix(m: MerklePrefix, f: Field): Result<MerklePrefix> {
    match f
    case Delimited(1, b) => Ok(m.(keyPrefix := b))
    case _ => Revert
  }

  function PrefixSchema(): Schema<MerklePrefix> {
    Schema(map[1 := 2], ApplyPrefix)
  }

  function MergePrefix(b: Bytes, m: MerklePrefix): Result<MerklePrefix> {
    Merge(PrefixSchema(), b, 0, m)
  }

  function OverlayPrefix(into: MerklePrefix, m: MerklePrefix): MerklePrefix {
    MerklePrefix(Or(m.keyPrefix, into.keyPrefix))
  }

  lemma PrefixMerging(m: MerklePrefix, into: MerklePrefix)
    requires |EncodePrefix(m)| < TWO_63
    ensures MergePrefix(EncodePrefix(m), into) == Ok(OverlayPrefix(into, m))
  {
    hide Merge, EncodeFields, Fold, BytesField;
    FoldBytesField(PrefixSchema(), 1, m.keyPrefix, [], into);
    FoldNone(PrefixSchema(), into);
    FoldNone(PrefixSchema(), m);
    assert forall f | f in PrefixFields(m) :: Fits(PrefixSchema(), f);
    MergeFields(PrefixSchema(), EncodePrefix(m), 0, into, PrefixFields(m));
  }

  // ----- Version -----

  const NO_VERSION: Version := IBCTypes.Version([], [])

  function VersionFields(v: Version): seq<Field> {
    BytesField(1, v.identifier) + (RepeatedField(2, v.features) + [])
  }

  function EncodeVersion(v: Version): Bytes {
    EncodeFields(VersionFields(v))
  }

  function ApplyVersion(v: Version, f: Field): Result<Version> {
    match f
    case Delimited(1, b) => Ok(v.(identifier := b))
    case Delimited(2, b) => Ok(v.(features := v.features + [b]))
    case _ => Revert
  }

  function VersionSchema(): Schema<Version> {
    Schema(map[1 := 2, 2 := 2], ApplyVersion)
  }

  function MergeVersion(b: Bytes, v: Version): Result<Version> {
    Merge(VersionSchema(), b, 0, v)
  }

  lemma {:induction false} FoldFeatures(features: seq<Bytes>, v: Version)
    ensures Fold(VersionSchema(), RepeatedField(2, features) + [], v) == Ok(v.(features := v.features + features))
    decreases |features|
  {
    hide Fold;
    if features == [] {
      assert RepeatedField(2, features) + [] == [] && v.features + features == v.features;
      FoldNone(VersionSchema(), v);
    } else {
      FoldRepeatedField(VersionSchema(), 2, features, [], v);
      var next := v.(features := v.features + [features[0]]);
      FoldFeatures(features[1..], next);
      assert next.features + features[1..] == v.features + features;
    }
  }

  lemma VersionRoundTrip(v: Version)
    requires |EncodeVersion(v)| < TWO_63
    ensures MergeVersion(EncodeVersion(v), NO_VERSION) == Ok(v)
  {
    hide Merge, EncodeFields, Fold, BytesField, RepeatedField;
    var s := VersionSchema();
    FoldBytesField(s, 1, v.identifier, RepeatedField(2, v.features) + [], NO_VERSION);
    FoldFeatures(v.features, v.(features := []));
    assert [] + v.features == v.features;
    assert forall f | f in VersionFields(v) :: Fits(s, f);
    MergeFields(s, EncodeVersion(v), 0, NO_VERSION, VersionFields(v));
  }

  // ----- Counterparty -----

  /** The prefix is a pointer, and may be nil. */
  datatype CounterpartyMessage = CounterpartyMessage(clientId: Bytes, connectionId: Bytes, prefix: Option<MerklePrefix>)

  const NO_COUNTERPARTY: CounterpartyMessage := CounterpartyMessage([], [], None)

  function PrefixField(prefix: Option<MerklePrefix>): (fs: seq<Field>)
    ensures forall f | f in fs :: f.Delimited? && f.num == 3
  {
    if prefix.None? then [] else [Delimited(3, EncodePrefix(prefix.value))]
  }

  function CounterpartyFields(c: CounterpartyMessage): seq<Field> {
    BytesField(1, c.clientId) + (BytesField(2, c.connectionId) + (PrefixField(c.prefix) + []))
  }

  function EncodeCounterparty(c: CounterpartyMessage): Bytes {
    EncodeFields(CounterpartyFields(c))
  }

  function ApplyCounterparty(c: CounterpartyMessage, f: Field): Result<CounterpartyMessage> {
    match f
    case Delimited(1, b) => Ok(c.(clientId := b))
    case Delimited(2, b) => Ok(c.(connectionId := b))
    case Delimited(3, b) =>
      var prefix :- MergePrefix(b, if c.prefix.Some? then c.prefix.value else NO_PREFIX);
      Ok(c.(prefix := Some(prefix)))
    case _ => Revert
  }

  function CounterpartySchema(): Schema<CounterpartyMessage> {
    Schema(map[1 := 2, 2 := 2, 3 := 2], ApplyCounterparty)
  }

  function MergeCounterparty(b: Bytes, c: CounterpartyMessage): Result<CounterpartyMessage> {
    Merge(CounterpartySchema(), b, 0, c)
  }

  /** A pointer is filled in where it was nil, and merged where it was not. */
  function OverlayPrefixes(into: Option<MerklePrefix>, read: Option<MerklePrefix>): Option<MerklePrefix> {
    if read.None? then into else Some(OverlayPrefix(if into.Some? then into.value else NO_PREFIX, read.value))
  }

  function OverlayCounterparty(into: CounterpartyMessage, c: CounterpartyMessage): CounterpartyMessage {
    CounterpartyMessage(Or(c.clientId, into.clientId), Or(c.connectionId, into.connectionId),
                        OverlayPrefixes(into.prefix, c.prefix))
  }

  lemma FoldPrefixField(prefix: Option<MerklePrefix>, into: CounterpartyMessage)
    requires prefix.Some? ==> |EncodePrefix(prefix.value)| < TWO_63
    ensures Fold(CounterpartySchema(), PrefixField(prefix) + [], into)
         == Ok(into.(prefix := OverlayPrefixes(into.prefix, prefix)))
  {
    hide Fold, EncodePrefix, MergePrefix, OverlayPrefix;
    FoldNone(CounterpartySchema(), into.(prefix := OverlayPrefixes(into.prefix, prefix)));
    if prefix.None? {
      assert PrefixField(prefix) + [] == [];
    } else {
      PrefixMerging(prefix.value, if into.prefix.Some? then into.prefix.value else NO_PREFIX);
      FoldDelimited(CounterpartySchema(), 3, EncodePrefix(prefix.value), [], into);
    }
  }

  lemma CounterpartyMerging(c: CounterpartyMessage, into: CounterpartyMessage)
    requires |EncodeCounterparty(c)| < TWO_63
    ensures MergeCounterparty(EncodeCounterparty(c), into) == Ok(OverlayCounterparty(into, c))
  {
    hide Merge, EncodeFields, Fold, BytesField, EncodePrefix, MergePrefix, OverlayPrefixes;
    var s := CounterpartySchema();
    if c.prefix.Some? {
      assert Delimited(3, EncodePrefix(c.prefix.value)) in CounterpartyFields(c);
      ChannelMessages.PayloadWithin(CounterpartyFields(c), EncodePrefix(c.prefix.value));
    }
    var from3 := PrefixField(c.prefix) + [];
    var n := into.(clientId := Or(c.clientId, into.clientId));
    FoldBytesField(s, 1, c.clientId, BytesField(2, c.connectionId) + from3, into);
    FoldBytesField(s, 2, c.connectionId, from3, n);
    FoldPrefixField(c.prefix, n.(connectionId := Or(c.connectionId, into.connectionId)));
    assert forall f | f in CounterpartyFields(c) :: Fits(s, f);
    MergeFields(s, EncodeCounterparty(c), 0, into, CounterpartyFields(c));
  }

  lemma CounterpartyRoundTrip(c: CounterpartyMessage)
    requires |EncodeCounterparty(c)| < TWO_63
    ensures MergeCounterparty(EncodeCounterparty(c), NO_COUNTERPARTY) == Ok(c)
  {
    hide MergeCounterparty, EncodeCounterparty;
    CounterpartyMerging(c, NO_COUNTERPARTY);
  }

  // ----- ConnectionEnd -----

  /** The counterparty is a pointer, and may be nil; the versions are not. */
  datatype ConnectionMessage = ConnectionMessage(
    clientId: Bytes,
    versions: seq<Version>,
    state: int32,
    counterparty: Option<CounterpartyMessage>,
    delayPeriod: uint64)

  const NO_CONNECTION: ConnectionMessage := ConnectionMessage([], [], 0, None, 0)

  function VersionBytes(versions: seq<Version>): (bs: seq<Bytes>)
    ensures |bs| == |versions|
    ensures forall k | 0 <= k < |bs| :: bs[k] == EncodeVersion(versions[k])
  {
    seq(|versions|, k requires 0 <= k < |versions| => EncodeVersion(versions[k]))
  }

  function CounterpartyField(c: Option<CounterpartyMessage>): (fs: seq<Field>)
    ensures forall f | f in fs :: f.Delimited? && f.num == 4
  {
    if c.None? then [] else [Delimited(4, EncodeCounterparty(c.value))]
  }

  function ConnectionFields(m: ConnectionMessage): seq<Field> {
    BytesField(1, m.clientId)
    + (RepeatedField(2, VersionBytes(m.versions))
    + (VarintField(3, SignExtend(m.state))
    + (CounterpartyField(m.counterparty)
    + (VarintField(5, m.delayPeriod)
    + []))))
  }

  function EncodeConnection(m: ConnectionMessage): Bytes {
    EncodeFields(ConnectionFields(m))
  }

  function ApplyConnection(m: ConnectionMessage, f: Field): Result<ConnectionMessage> {
    match f
    case Delimited(1, b) => Ok(m.(clientId := b))
    case Delimited(2, b) =>
      var v :- MergeVersion(b, NO_VERSION);
      Ok(m.(versions := m.versions + [v]))
    case Varint(3, v) => Ok(m.(state := LowBits(v)))
    case Delimited(4, b) =>
      var c :- MergeCounterparty(b, if m.counterparty.Some? then m.counterparty.value else NO_COUNTERPARTY);
      Ok(m.(counterparty := Some(c)))
    case Varint(5, v) => Ok(m.(delayPeriod := v))
    case _ => Revert
  }

  function ConnectionSchema(): Schema<ConnectionMessage> {
    Schema(map[1 := 2, 2 := 2, 3 := 0, 4 := 2, 5 := 0], ApplyConnection)
  }

  function DecodeConnection(b: Bytes): Result<ConnectionMessage> {
    Merge(ConnectionSchema(), b, 0, NO_CONNECTION)
  }

  lemma {:induction false} FoldVersions(versions: seq<Version>, rest: seq<Field>, m: ConnectionMessage)
    requires forall v | v in versions :: |EncodeVersion(v)| < TWO_63
    ensures Fold(ConnectionSchema(), RepeatedField(2, VersionBytes(versions)) + rest, m)
         == Fold(ConnectionSchema(), rest, m.(versions := m.versions + versions))
    decreases |versions|
  {
    hide Fold, EncodeVersion, MergeVersion, MergeCounterparty;
    var bs := VersionBytes(versions);
    if versions == [] {
      assert RepeatedField(2, bs) + rest == rest && m.versions + versions == m.versions;
    } else {
      VersionRoundTrip(versions[0]);
      FoldRepeatedField(ConnectionSchema(), 2, bs, rest, m);
      assert bs[1..] == VersionBytes(versions[1..]);
      var next := m.(versions := m.versions + [versions[0]]);
      FoldVersions(versions[1..], rest, next);
      assert next.versions + versions[1..] == m.versions + versions;
    }
  }

  function OverlayCounterparties(into: Option<CounterpartyMessage>, read: Option<CounterpartyMessage>):
    Option<CounterpartyMessage>
  {
    if read.None? then into
    else Some(OverlayCounterparty(if into.Some? then into.value else NO_COUNTERPARTY, read.value))
  }

  /** What `into` becomes when the bytes of `m` are parsed into it. */
  function OverlayConnection(into: ConnectionMessage, m: ConnectionMessage): ConnectionMessage {
    ConnectionMessage(Or(m.clientId, into.clientId), into.versions + m.versions, OrNumber(m.state, into.state),
                      OverlayCounterparties(into.counterparty, m.counterparty), OrNumber(m.delayPeriod, into.delayPeriod))
  }

  lemma FoldCounterpartyField(c: Option<CounterpartyMessage>, rest: seq<Field>, into: ConnectionMessage)
    requires c.Some? ==> |EncodeCounterparty(c.value)| < TWO_63
    ensures Fold(ConnectionSchema(), CounterpartyField(c) + rest, into)
         == Fold(ConnectionSchema(), rest, into.(counterparty := OverlayCounterparties(into.counterparty, c)))
  {
    hide Fold, EncodeCounterparty, MergeCounterparty, MergeVersion, OverlayCounterparty;
    if c.None? {
      assert CounterpartyField(c) + rest == rest;
    } else {
      CounterpartyMerging(c.value, if into.counterparty.Some? then into.counterparty.value else NO_COUNTERPARTY);
      FoldDelimited(ConnectionSchema(), 4, EncodeCounterparty(c.value), rest, into);
    }
  }

  /** Every embedded message is shorter than the whole. */
  lemma ConnectionParts(m: ConnectionMessage)
    ensures forall v | v in m.versions :: |EncodeVersion(v)| <= |EncodeConnection(m)|
    ensures m.counterparty.Some? ==> |EncodeCounterparty(m.counterparty.value)| <= |EncodeConnection(m)|
  {
    hide EncodeFields, EncodeVersion, EncodeCounterparty, BytesField, VarintField, SignExtend;
    forall v | v in m.versions
      ensures |EncodeVersion(v)| <= |EncodeConnection(m)|
    {
      var k :| 0 <= k < |m.versions| && m.versions[k] == v;
      RepeatedHas(2, VersionBytes(m.versions), k);
      assert Delimited(2, EncodeVersion(v)) in ConnectionFields(m);
      ChannelMessages.PayloadWithin(ConnectionFields(m), EncodeVersion(v));
    }
    if m.counterparty.Some? {
      assert Delimited(4, EncodeCounterparty(m.counterparty.value)) in ConnectionFields(m);
      ChannelMessages.PayloadWithin(ConnectionFields(m), EncodeCounterparty(m.counterparty.value));
    }
  }

  lemma {:induction false} RepeatedHas(num: nat, ss: seq<Bytes>, k: nat)
    requires k < |ss|
    ensures Delimited(num, ss[k]) in RepeatedField(num, ss)
  {
    if k > 0 {
      RepeatedHas(num, ss[1..], k - 1);
    }
  }

  lemma FoldConnection(m: ConnectionMessage, into: ConnectionMessage)
    requires forall v | v in m.versions :: |EncodeVersion(v)| < TWO_63
    requires m.counterparty.Some? ==> |EncodeCounterparty(m.counterparty.value)| < TWO_63
    ensures Fold(ConnectionSchema(), ConnectionFields(m), into) == Ok(OverlayConnection(into, m))
  {
    hide Fold, BytesField, VarintField, RepeatedField, EncodeVersion, EncodeCounterparty, MergeVersion;
    hide MergeCounterparty, LowBits, SignExtend, CounterpartyField, OverlayCounterparties;
    var s := ConnectionSchema();
    var from5 := VarintField(5, m.delayPeriod) + [];
    var from4 := CounterpartyField(m.counterparty) + from5;
    var from3 := VarintField(3, SignExtend(m.state)) + from4;
    LowBitsOfSignExtend(m.state);
    var n := into;
    FoldBytesField(s, 1, m.clientId, RepeatedField(2, VersionBytes(m.versions)) + from3, n);
    n := n.(clientId := Or(m.clientId, into.clientId));
    FoldVersions(m.versions, from3, n);
    n := n.(versions := into.versions + m.versions);
    FoldVarintField(s, 3, SignExtend(m.state), from4, n);
    n := n.(state := OrNumber(m.state, into.state));
    FoldCounterpartyField(m.counterparty, from5, n);
    n := n.(counterparty := OverlayCounterparties(into.counterparty, m.counterparty));
    FoldVarintField(s, 5, m.delayPeriod, [], n);
    FoldNone(s, n);
    FoldNone(s, n.(delayPeriod := m.delayPeriod));
  }

  /**
   Parsing the bytes of a connection end into another one overwrites the fields that are set, adds
   the versions, and merges the counterparty.
   */
  lemma ConnectionMerging(m: ConnectionMessage, into: ConnectionMessage)
    requires |EncodeConnection(m)| < TWO_63
    ensures Merge(ConnectionSchema(), EncodeConnection(m), 0, into) == Ok(OverlayConnection(into, m))
  {
    hide EncodeConnection, OverlayConnection, ConnectionSchema, ConnectionFields, Merge;
    ConnectionParts(m);
    FoldConnection(m, into);
    ConnectionMerges(m, into);
  }

  lemma ConnectionMerges(m: ConnectionMessage, into: ConnectionMessage)
    requires |EncodeConnection(m)| < TWO_63
    requires Fold(ConnectionSchema(), ConnectionFields(m), into).Ok?
    ensures Merge(ConnectionSchema(), EncodeConnection(m), 0, into) == Fold(ConnectionSchema(), ConnectionFields(m), into)
  {
    hide Merge, EncodeFields, Fold, BytesField, VarintField, RepeatedField, ApplyConnection, VersionBytes, CounterpartyField;
    assert forall f | f in ConnectionFields(m) :: Fits(ConnectionSchema(), f);
    MergeFields(ConnectionSchema(), EncodeConnection(m), 0, into, ConnectionFields(m));
  }

  /** Parsing the bytes of a connection end into a fresh one gives it back, nil pointers and all. */
  lemma ConnectionRoundTrip(m: ConnectionMessage)
    requires |EncodeConnection(m)| < TWO_63
    ensures DecodeConnection(EncodeConnection(m)) == Ok(m)
  {
    hide Merge, EncodeConnection;
    ConnectionMerging(m, NO_CONNECTION);
    assert [] + m.versions == m.versions;
  }

  // ----- The host's records -----

  function StateNumber(s: IBCTypes.ConnectionState): int32 {
    match s
    case CONN_UNINITIALIZED => 0
    case CONN_INIT => 1
    case CONN_TRYOPEN => 2
    case CONN_OPEN => 3
  }

  /** A connection end of the host as a message. */
  function ToMessage(c: IBCTypes.ConnectionEnd): ConnectionMessage {
    ConnectionMessage(
      c.clientId, c.versions, StateNumber(c.state),
      Some(CounterpartyMessage(c.counterparty.clientId, c.counterparty.connectionId, Some(MerklePrefix(c.counterparty.prefix)))),
      c.delayPeriod)
  }

  /** Different connection ends have different bytes, so a digest of the bytes is one of the end. */
  lemma ConnectionEncodingInjective(c: IBCTypes.ConnectionEnd, d: IBCTypes.ConnectionEnd)
    requires |EncodeConnection(ToMessage(c))| < TWO_63
    requires EncodeConnection(ToMessage(c)) == EncodeConnection(ToMessage(d))
    ensures c == d
  {
    hide EncodeConnection, DecodeConnection;
    ConnectionRoundTrip(ToMessage(c));
    ConnectionRoundTrip(ToMessage(d));
  }
}
