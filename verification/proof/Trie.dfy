/** Merkle Patricia tries (Yellow Paper, Appendix D): nodes, their encodings, and what they map. */
module Trie {
  import opened Prelude
  import opened RLPCodec
  import opened Nibbles

  /** A digest as 32 bytes; the hash function itself is a parameter. */
  type Hash = s: Bytes | |s| == 32 witness seq(32, _ => 0 as byte)

  type HashFunction = Bytes -> Hash

  datatype Node =
    | Empty
    | Leaf(key: Bytes, value: Bytes)
    | Extension(key: Bytes, child: Node)
    | Branch(children: seq<Node>, value: Bytes)

  /** The item that stands for a node; keys are half-bytes. */
  function ToRLP(n: Node, H: HashFunction): RLPTree
    decreases n, 0
  {
    match n
    case Empty => Str([])
    case Leaf(key, value) => List([Str(Prefixed(key, true)), Str(value)])
    case Extension(key, child) => List([Str(Prefixed(key, false)), Ref(child, H)])
    case Branch(children, value) => List(Refs(children, H) + [Str(value)])
  }

  function Prefixed(key: Bytes, leaf: bool): Bytes {
    if IsNibbles(key) then HexPrefix(key, leaf) else []
  }

  /** How a node is named in its parent: by its digest, or in place if it is shorter than one. */
  function Ref(n: Node, H: HashFunction): RLPTree
    decreases n, 1
  {
    var t := ToRLP(n, H);
    if n.Empty? then Str([])
    else if |RLPCodec.Encode(t)| < 32 then t
    else Str(H(RLPCodec.Encode(t)))
  }

  function Refs(children: seq<Node>, H: HashFunction): (refs: seq<RLPTree>)
    ensures |refs| == |children|
    ensures forall k | 0 <= k < |refs| :: refs[k] == Ref(children[k], H)
    decreases children, 0
  {
    if children == [] then [] else [Ref(children[0], H)] + Refs(children[1..], H)
  }

  /** The bytes a node is hashed as. */
  function NodeBytes(n: Node, H: HashFunction): Bytes {
    RLPCodec.Encode(ToRLP(n, H))
  }

  /**
   A subtrie at `depth` of a trie whose keys all have 64 half-bytes. An extension leads to a
   branch, and a branch holds no value.
   */
  ghost predicate Keyed(n: Node, depth: nat, H: HashFunction) {
    && |NodeBytes(n, H)| < TWO_64
    && match n
       case Empty => depth <= 64
       case Leaf(key, _) => IsNibbles(key) && depth + |key| == 64
       case Extension(key, child) => IsNibbles(key) && child.Branch? && Keyed(child, depth + |key|, H)
       case Branch(children, value) =>
         && depth < 64 && |children| == 16 && value == []
         && forall k | 0 <= k < 16 :: Keyed(children[k], depth + 1, H)
  }

  /** The value at a key, or nothing. */
  function Lookup(n: Node, key: Bytes): Bytes {
    match n
    case Empty => []
    case Leaf(k, value) => if key == k then value else []
    case Extension(k, child) => if k <= key then Lookup(child, key[|k|..]) else []
    case Branch(children, value) =>
      if key == [] then value
      else if key[0] as nat < |children| then Lookup(children[key[0]], key[1..])
      else []
  }

  /** Whether a leaf holds the key. */
  predicate Present(n: Node, key: Bytes) {
    match n
    case Empty => false
    case Leaf(k, _) => key == k
    case Extension(k, child) => k <= key && Present(child, key[|k|..])
    case Branch(children, _) => key != [] && key[0] as nat < |children| && Present(children[key[0]], key[1..])
  }

  /** Whether the way to a key ends inside a leaf's or an extension's own key, and not at an empty slot. */
  predicate Strays(n: Node, key: Bytes) {
    match n
    case Empty => false
    case Leaf(k, _) => key != k
    case Extension(k, child) => !(k <= key) || Strays(child, key[|k|..])
    case Branch(children, _) => key != [] && key[0] as nat < |children| && Strays(children[key[0]], key[1..])
  }

  /** The nodes from a root down towards a key, as far as they go. */
  function PathTo(n: Node, key: Bytes): seq<Node> {
    match n
    case Empty => []
    case Leaf(_, _) => [n]
    case Extension(k, child) => [n] + if k <= key then PathTo(child, key[|k|..]) else []
    case Branch(children, _) =>
      [n] + if key != [] && key[0] as nat < |children| then PathTo(children[key[0]], key[1..]) else []
  }

  /** Of the keys that do not stray, those without a leaf have nothing. */
  lemma {:induction false} StraysOrHeld(n: Node, depth: nat, key: Bytes, H: HashFunction)
    requires Keyed(n, depth, H) && IsNibbles(key) && depth + |key| == 64
    ensures Present(n, key) ==> !Strays(n, key)
    ensures !Present(n, key) ==> Lookup(n, key) == []
  {
    hide NodeBytes;
    match n
    case Extension(k, child) =>
      if k <= key {
        StraysOrHeld(child, depth + |k|, key[|k|..], H);
      }
    case Branch(children, _) =>
      if key != [] {
        assert key[0] in key && key[0] < 16;
        StraysOrHeld(children[key[0]], depth + 1, key[1..], H);
      }
    case _ =>
  }

  /**
   No string of `strings` shares its digest with another string that is a node of the trie,
   and none has a leaf's payload as its digest.
   */
  ghost predicate NoCollision(n: Node, strings: seq<Bytes>, H: HashFunction) {
    && (forall k | 0 <= k < |strings| :: H(strings[k]) == H(NodeBytes(n, H)) ==> strings[k] == NodeBytes(n, H))
    && match n
       case Empty => true
       case Leaf(_, value) => forall k | 0 <= k < |strings| :: H(strings[k]) != value
       case Extension(_, child) => NoCollision(child, strings, H)
       case Branch(children, _) => forall k | 0 <= k < |children| :: NoCollision(children[k], strings, H)
  }

  /** The part of `NoCollision` about nodes. */
  ghost predicate NodesDistinguished(n: Node, strings: seq<Bytes>, H: HashFunction) {
    && (forall k | 0 <= k < |strings| :: H(strings[k]) == H(NodeBytes(n, H)) ==> strings[k] == NodeBytes(n, H))
    && match n
       case Extension(_, child) => NodesDistinguished(child, strings, H)
       case Branch(children, _) => forall k | 0 <= k < |children| :: NodesDistinguished(children[k], strings, H)
       case _ => true
  }

  ghost predicate NoPayloadOf32(n: Node) {
    match n
    case Empty => true
    case Leaf(_, value) => |value| != 32
    case Extension(_, child) => NoPayloadOf32(child)
    case Branch(children, _) => forall k | 0 <= k < |children| :: NoPayloadOf32(children[k])
  }

  /** Where no leaf payload is 32 bytes long, none can be a digest. */
  lemma {:induction false} PayloadsAreNoDigests(n: Node, strings: seq<Bytes>, H: HashFunction)
    requires NodesDistinguished(n, strings, H) && NoPayloadOf32(n)
    ensures NoCollision(n, strings, H)
  {
    hide NodeBytes;
    match n
    case Extension(_, child) => PayloadsAreNoDigests(child, strings, H);
    case Branch(children, _) =>
      forall k | 0 <= k < |children|
        ensures NoCollision(children[k], strings, H)
      {
        PayloadsAreNoDigests(children[k], strings, H);
      }
    case _ =>
  }
}
