/** `FungibleTokenPacketData`: what its bytes are and what its parser makes of bytes. */
module AppMessages {
  import opened Prelude
  import opened Wire

  datatype FungibleTokenPacketData =
    FungibleTokenPacketData(denom: Bytes, amount: uint64, sender: Bytes, receiver: Bytes)

  const EMPTY: FungibleTokenPacketData := FungibleTokenPacketData([], 0, [], [])

  function Fields(m: FungibleTokenPacketData): seq<Field> {
    BytesField(1, m.denom)
    + (VarintField(2, m.amount)
    + (BytesField(3, m.sender)
    + (BytesField(4, m.receiver)
    + [])))
  }

  function Encode(m: FungibleTokenPacketData): Bytes {
    EncodeFields(Fields(m))
  }

  function Apply(m: FungibleTokenPacketData, f: Field): Result<FungibleTokenPacketData> {
    match f
    case Delimited(1, payload) => Ok(m.(denom := payload))
    case Varint(2, value) => Ok(m.(amount := value))
    case Delimited(3, payload) => Ok(m.(sender := payload))
    case Delimited(4, payload) => Ok(m.(receiver := payload))
    case _ => Revert
  }

  function DataSchema(): Schema<FungibleTokenPacketData> {
    Schema(map[1 := 2, 2 := 0, 3 := 2, 4 := 2], Apply)
  }

  function Decode(b: Bytes): Result<FungibleTokenPacketData> {
    Merge(DataSchema(), b, 0, EMPTY)
  }

  /** What `into` becomes when the bytes of `m` are parsed into it. */
  function Overlay(into: FungibleTokenPacketData, m: FungibleTokenPacketData): FungibleTokenPacketData {
    FungibleTokenPacketData(Or(m.denom, into.denom), OrNumber(m.amount, into.amount), Or(m.sender, into.sender),
                            Or(m.receiver, into.receiver))
  }

  /** Parsing the bytes of a message into another one overwrites the fields that are set. */
  lemma Merging(m: FungibleTokenPacketData, into: FungibleTokenPacketData)
    requires |Encode(m)| < TWO_63
    ensures Merge(DataSchema(), Encode(m), 0, into) == Ok(Overlay(into, m))
  {
    hide Merge, EncodeFields, Fold, BytesField, VarintField;
    var s := DataSchema();
    var from4 := BytesField(4, m.receiver) + [];
    var from3 := BytesField(3, m.sender) + from4;
    var from2 := VarintField(2, m.amount) + from3;
    var n := into;
    FoldBytesField(s, 1, m.denom, from2, n);
    n := n.(denom := Or(m.denom, into.denom));
    FoldVarintField(s, 2, m.amount, from3, n);
    n := n.(amount := OrNumber(m.amount, into.amount));
    FoldBytesField(s, 3, m.sender, from4, n);
    n := n.(sender := Or(m.sender, into.sender));
    FoldBytesField(s, 4, m.receiver, [], n);
    FoldNone(s, n);
    FoldNone(s, n.(receiver := m.receiver));
    assert forall f | f in Fields(m) :: Fits(s, f);
    MergeFields(s, Encode(m), 0, into, Fields(m));
  }

  /** Parsing the bytes of a message into a fresh message gives the message back. */
  lemma RoundTrip(m: FungibleTokenPacketData)
    requires |Encode(m)| < TWO_63
    ensures Decode(Encode(m)) == Ok(m)
  {
    hide Merge, Encode;
    Merging(m, EMPTY);
  }

  lemma EncodeSize(m: FungibleTokenPacketData)
    requires |m.denom| < TWO_64 && |m.sender| < TWO_64 && |m.receiver| < TWO_64
    ensures |Encode(m)| <= |m.denom| + |m.sender| + |m.receiver| + 44
  {
    hide EncodeFields, BytesField, VarintField;
    var from4 := BytesField(4, m.receiver) + [];
    var from3 := BytesField(3, m.sender) + from4;
    var from2 := VarintField(2, m.amount) + from3;
    EncodeFieldsConcat(BytesField(1, m.denom), from2);
    EncodeFieldsConcat(VarintField(2, m.amount), from3);
    EncodeFieldsConcat(BytesField(3, m.sender), from4);
    assert from4 == BytesField(4, m.receiver);
    BytesFieldSize(1, m.denom);
    VarintFieldSize(2, m.amount);
    BytesFieldSize(3, m.sender);
    BytesFieldSize(4, m.receiver);
  }

  lemma EncodeInjective(m: FungibleTokenPacketData, n: FungibleTokenPacketData)
    requires |Encode(m)| < TWO_63
    requires Encode(m) == Encode(n)
    ensures m == n
  {
    RoundTrip(m);
    RoundTrip(n);
  }
}
