/**
 What a parser does with fields that its schema does not know: it steps over them, groups and all,
 so that a message of a later version parses to what the known fields say.
 */
module UnknownFields {
  import opened Prelude
  import opened Wire

  /** A field of any wire type; a group holds fields of its own. */
  datatype Extra =
    | Number(num: nat, value: uint64)
    | Fixed64(num: nat, bytes: Bytes)
    | Text(num: nat, payload: Bytes)
    | Group(num: nat, inside: seq<Extra>)
    | Fixed32(num: nat, bytes: Bytes)

  predicate WellFormed(x: Extra) {
    && 0 < x.num < TWO_31
    && match x
       case Fixed64(_, bytes) => |bytes| == 8
       case Fixed32(_, bytes) => |bytes| == 4
       case Group(_, inside) => forall y | y in inside :: WellFormed(y)
       case _ => true
  }

  /** The wire types of the protobuf encoding; 4 ends a group. */
  function TypeOf(x: Extra): nat {
    match x
    case Number(_, _) => 0
    case Fixed64(_, _) => 1
    case Text(_, _) => 2
    case Group(_, _) => 3
    case Fixed32(_, _) => 5
  }

  function OnWire(x: Extra): Bytes
    decreases x, 1
  {
    EncodeVarint(8 * x.num + TypeOf(x)) + Content(x)
  }

  function Content(x: Extra): Bytes
    decreases x, 0
  {
    match x
    case Number(_, value) => EncodeVarint(value)
    case Text(_, payload) => EncodeVarint(|payload|) + payload
    case Group(num, inside) => AllOnWire(inside) + EncodeVarint(8 * num + 4)
    case _ => x.bytes
  }

  function AllOnWire(xs: seq<Extra>): Bytes
    decreases xs
  {
    if xs == [] then [] else OnWire(xs[0]) + AllOnWire(xs[1..])
  }

  // ----- Skipping -----

  lemma {:induction false} SkipVarintAt(b: Bytes, i: nat, shift: nat, v: nat)
    requires StandsAt(b, i, EncodeVarint(v)) && shift + 7 * (|EncodeVarint(v)| - 1) < 64
    ensures SkipVarint(b, i, shift) == Ok(i + |EncodeVarint(v)|)
    decreases v
  {
    VarintHead(b, i, v);
    VarintLonger(v);
    if v >= 128 {
      SkipVarintAt(b, i + 1, shift + 7, v / 128);
    }
  }

  /** The tag of a field, and its content after it. */
  lemma TagRead(b: Bytes, i: nat, num: nat, wireType: nat, rest: Bytes)
    requires 0 < num < TWO_31 && wireType < 8
    requires StandsAt(b, i, EncodeVarint(8 * num + wireType) + rest)
    ensures var wire, j := 8 * num + wireType, i + |EncodeVarint(8 * num + wireType)|;
            && ReadVarint(b, i) == Ok((wire, j)) && wire % 8 == wireType && FieldNum(wire) == num
            && StandsAt(b, j, rest)
  {
    hide EncodeVarint, ReadVarint;
    StandsAtSplit(b, i, EncodeVarint(8 * num + wireType), rest);
    VarintRoundTrip(b, i, 8 * num + wireType);
  }

  /** A field that is no group is one round of the skipper. */
  lemma SkipsPlain(b: Bytes, i: nat, depth: nat, x: Extra)
    requires |b| < TWO_63 && WellFormed(x) && !x.Group? && StandsAt(b, i, OnWire(x))
    ensures SkipOne(b, i, depth) == Ok((i + |OnWire(x)|, depth))
  {
    hide EncodeVarint, ReadVarint, SkipVarint, FieldNum;
    TagRead(b, i, x.num, TypeOf(x), Content(x));
    var j := i + |EncodeVarint(8 * x.num + TypeOf(x))|;
    match x
    case Number(_, value) =>
      VarintAtMost10(value);
      SkipVarintAt(b, j, 0, value);
    case Text(_, payload) =>
      StandsAtSplit(b, j, EncodeVarint(|payload|), payload);
      VarintRoundTrip(b, j, |payload|);
    case _ =>
  }

  /** Inside a group, fields are stepped over one by one. */
  lemma {:induction false} SkipsAll(b: Bytes, i: nat, depth: nat, xs: seq<Extra>)
    requires |b| < TWO_63 && depth > 0 && (forall x | x in xs :: WellFormed(x)) && StandsAt(b, i, AllOnWire(xs))
    ensures Skip(b, i, depth) == Skip(b, i + |AllOnWire(xs)|, depth)
    decreases xs, 0
  {
    hide Skip, OnWire;
    if xs != [] {
      StandsAtSplit(b, i, OnWire(xs[0]), AllOnWire(xs[1..]));
      SkipsOver(b, i, depth, xs[0]);
      SkipsAll(b, i + |OnWire(xs[0])|, depth, xs[1..]);
    }
  }

  /** One round of the skipper. */
  lemma SkipRound(b: Bytes, i: nat, depth: nat)
    requires i < |b| && SkipOne(b, i, depth).Ok?
    ensures var (j, d) := SkipOne(b, i, depth).value;
            Skip(b, i, depth) == if d == 0 then Ok(j) else Skip(b, j, d)
  {
    hide SkipOne;
  }

  /** Opening a group takes the skipper one level down. */
  lemma GroupOpens(b: Bytes, i: nat, depth: nat, num: nat, rest: Bytes)
    requires 0 < num < TWO_31 && StandsAt(b, i, EncodeVarint(8 * num + 3) + rest)
    ensures Skip(b, i, depth) == Skip(b, i + |EncodeVarint(8 * num + 3)|, depth + 1)
  {
    hide EncodeVarint, ReadVarint, Skip, SkipVarint, FieldNum;
    TagRead(b, i, num, 3, rest);
    SkipRound(b, i, depth);
  }

  /** Its end takes the skipper up again, and ends it at the top. */
  lemma GroupEnds(b: Bytes, i: nat, depth: nat, num: nat)
    requires 0 < num < TWO_31 && StandsAt(b, i, EncodeVarint(8 * num + 4))
    ensures var j := i + |EncodeVarint(8 * num + 4)|;
            Skip(b, i, depth + 1) == if depth == 0 then Ok(j) else Skip(b, j, depth)
  {
    hide EncodeVarint, ReadVarint, Skip, SkipVarint, FieldNum;
    assert EncodeVarint(8 * num + 4) + [] == EncodeVarint(8 * num + 4);
    TagRead(b, i, num, 4, []);
    SkipRound(b, i, depth + 1);
  }

  /** After a field the skipper is done, or goes on in the group around it. */
  lemma {:induction false} SkipsOver(b: Bytes, i: nat, depth: nat, x: Extra)
    requires |b| < TWO_63 && WellFormed(x) && StandsAt(b, i, OnWire(x))
    ensures i < |b|
    ensures Skip(b, i, depth) == if depth == 0 then Ok(i + |OnWire(x)|) else Skip(b, i + |OnWire(x)|, depth)
    decreases x, 1
  {
    hide EncodeVarint, ReadVarint, Skip, SkipOne;
    TagRead(b, i, x.num, TypeOf(x), Content(x));
    if x.Group? {
      var j := i + |EncodeVarint(8 * x.num + 3)|;
      StandsAtSplit(b, j, AllOnWire(x.inside), EncodeVarint(8 * x.num + 4));
      GroupOpens(b, i, depth, x.num, Content(x));
      SkipsAll(b, j, depth + 1, x.inside);
      GroupEnds(b, j + |AllOnWire(x.inside)|, depth, x.num);
    } else {
      SkipsPlain(b, i, depth, x);
      SkipRound(b, i, depth);
    }
  }

  // ----- Parsing -----

  /** A field with an unknown number changes nothing; one with a known number of another wire type fails the parse. */
  lemma MergeOneUnknown<M>(s: Schema<M>, b: Bytes, i: nat, m: M, x: Extra)
    requires |b| < TWO_63 && WellFormed(x) && StandsAt(b, i, OnWire(x))
    ensures i < |b|
    ensures x.num !in s.wireTypes ==> MergeOne(s, b, i, m) == Ok((m, i + |OnWire(x)|))
    ensures x.num in s.wireTypes && s.wireTypes[x.num] != TypeOf(x) ==> MergeOne(s, b, i, m) == Revert
  {
    hide EncodeVarint, ReadVarint, Skip, FieldNum;
    TagRead(b, i, x.num, TypeOf(x), Content(x));
    assert b[i..][..|OnWire(x)|] == b[i..i + |OnWire(x)|];
    SkipsOver(b[i..], 0, 0, x);
  }

  datatype Item = Known(field: Field) | Unknown(extra: Extra)

  function EncodeItem(item: Item): Bytes {
    match item
    case Known(field) => EncodeField(field)
    case Unknown(extra) => OnWire(extra)
  }

  function EncodeItems(items: seq<Item>): Bytes {
    if items == [] then [] else EncodeItem(items[0]) + EncodeItems(items[1..])
  }

  /** The known fields, in order. */
  function KnownOf(items: seq<Item>): seq<Field> {
    if items == [] then []
    else (if items[0].Known? then [items[0].field] else []) + KnownOf(items[1..])
  }

  ghost predicate ItemFits<M>(s: Schema<M>, item: Item) {
    match item
    case Known(field) => Fits(s, field)
    case Unknown(extra) => WellFormed(extra) && extra.num !in s.wireTypes
  }

  ghost predicate Mixed<M>(s: Schema<M>, items: seq<Item>) {
    forall item | item in items :: ItemFits(s, item)
  }

  /** Parsing known and unknown fields in any order assigns the known ones in order. */
  lemma {:induction false} UnknownIgnored<M>(s: Schema<M>, b: Bytes, i: nat, m: M, items: seq<Item>)
    requires |b| < TWO_63 && Mixed(s, items)
    requires i <= |b| && b[i..] == EncodeItems(items)
    requires Fold(s, KnownOf(items), m).Ok?
    ensures Merge(s, b, i, m) == Fold(s, KnownOf(items), m)
    decreases |items|
  {
    hide EncodeItem, MergeOne, ItemFits;
    if items != [] {
      var head := EncodeItem(items[0]);
      assert |b[i..]| == |b| - i;
      assert b[i..][..|head|] == head && b[i..i + |head|] == b[i..][..|head|];
      assert b[i + |head|..] == b[i..][|head|..] == EncodeItems(items[1..]);
      MergeItem(s, b, i, m, items[0]);
      if items[0].Known? {
        assert KnownOf(items)[1..] == KnownOf(items[1..]);
        UnknownIgnored(s, b, i + |head|, s.apply(m, items[0].field).value, items[1..]);
      } else {
        assert KnownOf(items) == KnownOf(items[1..]);
        UnknownIgnored(s, b, i + |head|, m, items[1..]);
      }
    }
  }

  lemma MergeItem<M>(s: Schema<M>, b: Bytes, i: nat, m: M, item: Item)
    requires |b| < TWO_63 && ItemFits(s, item) && StandsAt(b, i, EncodeItem(item))
    requires item.Known? ==> s.apply(m, item.field).Ok?
    ensures i < |b|
    ensures MergeOne(s, b, i, m)
         == Ok((if item.Known? then s.apply(m, item.field).value else m, i + |EncodeItem(item)|))
  {
    hide OnWire, EncodeField, MergeOne;
    match item
    case Known(field) => MergeOneField(s, b, i, m, field);
    case Unknown(extra) => MergeOneUnknown(s, b, i, m, extra);
  }

  // ----- What is refused -----

  /** A varint ends with the first byte below 128. */
  ghost predicate EndsAt(b: Bytes, i: nat, k: nat) {
    i + k < |b| && b[i + k] < 128 && forall j | i <= j < i + k :: b[j] >= 128
  }

  /** The parser reads a varint exactly if it ends within ten bytes, and goes on right after it. */
  lemma {:induction false} VarintReadExactly(b: Bytes, i: nat, shift: nat, acc: nat)
    ensures ReadVarint(b, i, shift, acc).Ok? <==> exists k: nat :: shift + 7 * k < 64 && EndsAt(b, i, k)
    ensures forall k: nat | shift + 7 * k < 64 && EndsAt(b, i, k) :: ReadVarint(b, i, shift, acc).value.1 == i + k + 1
    decreases |b| - i
  {
    hide ShiftLeft;
    if shift < 64 && i < |b| && b[i] >= 128 {
      var next := acc + ShiftLeft(b[i] as int % 128, shift) % TWO_64;
      VarintReadExactly(b, i + 1, shift + 7, next);
      forall k: nat | EndsAt(b, i, k)
        ensures k > 0 && EndsAt(b, i + 1, k - 1)
      {
      }
      if k: nat :| shift + 7 + 7 * k < 64 && EndsAt(b, i + 1, k) {
        assert EndsAt(b, i, k + 1) && shift + 7 * (k + 1) < 64;
      }
    } else if i < |b| && b[i] < 128 {
      assert EndsAt(b, i, 0) && shift + 7 * 0 == shift;
    }
  }

  /** A string, byte or message field that runs past the end fails the parse, known or not. */
  lemma TruncatedRefused<M>(s: Schema<M>, b: Bytes, i: nat, m: M, num: nat, len: uint64)
    requires |b| < TWO_63 && 0 < num < TWO_31
    requires StandsAt(b, i, EncodeVarint(8 * num + 2) + EncodeVarint(len))
    requires i + |EncodeVarint(8 * num + 2)| + |EncodeVarint(len)| + len > |b|
    ensures i < |b| && MergeOne(s, b, i, m) == Revert
  {
    hide EncodeVarint, ReadVarint, FieldNum;
    TagRead(b, i, num, 2, EncodeVarint(len));
    var j := i + |EncodeVarint(8 * num + 2)|;
    VarintRoundTrip(b, j, len);
    if num !in s.wireTypes {
      var rest := b[i..];
      assert rest[..|EncodeVarint(8 * num + 2) + EncodeVarint(len)|] == EncodeVarint(8 * num + 2) + EncodeVarint(len);
      TagRead(rest, 0, num, 2, EncodeVarint(len));
      VarintRoundTrip(rest, j - i, len);
    }
  }

  /** So do a tag without a number, the end of a group that was not opened, and the wire types 6 and 7. */
  lemma BadTagRefused<M>(s: Schema<M>, b: Bytes, i: nat, m: M, num: nat, wireType: nat)
    requires num < TWO_31 && wireType < 8 && StandsAt(b, i, EncodeVarint(8 * num + wireType))
    requires num == 0 || wireType == 4 || (wireType in {6, 7} && num !in s.wireTypes)
    ensures i < |b| && MergeOne(s, b, i, m) == Revert
  {
    hide EncodeVarint, ReadVarint;
    VarintRoundTrip(b, i, 8 * num + wireType);
    if num > 0 && wireType != 4 {
      assert b[i..][..|EncodeVarint(8 * num + wireType)|] == EncodeVarint(8 * num + wireType);
      VarintRoundTrip(b[i..], 0, 8 * num + wireType);
    }
  }
}
