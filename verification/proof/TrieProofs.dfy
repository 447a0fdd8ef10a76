/** The storage-proof checker: what it accepts is in the trie, and what is in the trie it accepts. */
module TrieProofs {
  import opened Prelude
  import opened RLPCodec
  import opened RLPReader
  import opened Nibbles
  import opened Trie

  // ----- The checker -----

  function ToRLPItem(len: nat, memPtr: nat): RLPItem {
    if len == 0 then RLPItem(0, 0) else RLPItem(len, memPtr)
  }

  /** `getNextHash`, or the digest of a child written in place. */
  function ChildHash(mem: Bytes, item: RLPItem, H: HashFunction): Result<Hash> {
    if IsList(mem, item.memPtr) then Ok(H(ToRLPBytes(mem, item)))
    else
      var bytes :- ToBytes(mem, item);
      var _ :- Require(|bytes| == 32);
      Ok(bytes)
  }

  /** The checks from the `i`-th item of the proof on. */
  function VerifyFrom(mem: Bytes, proof: seq<RLPItem>, i: nat, pathOffset: nat, nextHash: Hash, path32: Bytes,
                      H: HashFunction): Result<Bytes>
    requires |path32| == 32
    decreases |proof| - i
  {
    if i >= |proof| then Revert
    else
      var _ :- Require(nextHash == H(ToRLPBytes(mem, proof[i])));
      var node :- ToList(mem, proof[i]);
      var last := i == |proof| - 1;
      if |node| == 2 then
        var compact :- ToBytes(mem, node[0]);
        var nodePath :- CompactDecode(compact);
        var offset := pathOffset + Shared(Unpack(path32, 0), pathOffset, nodePath);
        if last then
          var _ :- Require(offset == 64);
          ToBytes(mem, node[1])
        else
          var next :- ChildHash(mem, node[1], H);
          VerifyFrom(mem, proof, i + 1, offset, next, path32, H)
      else
        var _ :- Require(|node| == 17);
        if last && pathOffset + 1 == 64 then ToBytes(mem, node[16])
        else
          var nibble :- ExtractNibble(path32, pathOffset);
          if last then
            var child :- ToBytes(mem, node[nibble]);
            var _ :- Require(child == []);
            Ok([])
          else
            var next :- ChildHash(mem, node[nibble], H);
            VerifyFrom(mem, proof, i + 1, pathOffset + 1, next, path32, H)
  }

  /** `verify`; the digest of the empty trie is that of the empty string's encoding. */
  function Verify(mem: Bytes, len: nat, memPtr: nat, rootHash: Hash, path32: Bytes, H: HashFunction): Result<Bytes>
    requires |path32| == 32
  {
    var proof :- ToList(mem, ToRLPItem(len, memPtr));
    if proof == [] then if rootHash == H([0x80]) then Ok([]) else Revert
    else VerifyFrom(mem, proof, 0, 0, rootHash, path32, H)
  }

  /**
   The loop of `verify`. Memory is as it was when verification began, so an item that runs
   past the proof reads what lay there then: items that reach into memory allocated during
   verification are not covered.
   */
  method VerifyLoop(mem: array<byte>, len: nat, memPtr: nat, rootHash: Hash, path32: Bytes, H: HashFunction)
    returns (r: Result<Bytes>)
    requires |path32| == 32
    ensures r == Verify(mem[..], len, memPtr, rootHash, path32, H)
  {
    hide ToList, ToBytes, ToRLPBytes, Shared, ExtractNibble, CompactDecode, IsList;
    var unpacked := DecodeNibblesLoop(path32, 0);
    var path := unpacked.value;
    var listed := ListItems(mem, ToRLPItem(len, memPtr));
    if listed.Revert? {
      return Revert;
    }
    var proof := listed.value;
    if |proof| == 0 {
      return if rootHash == H([0x80]) then Ok([]) else Revert;
    }
    var pathOffset, nextHash := 0, rootHash;
    var i := 0;
    while i < |proof|
      invariant 0 <= i <= |proof|
      invariant VerifyFrom(mem[..], proof, i, pathOffset, nextHash, path32, H) == Verify(mem[..], len, memPtr, rootHash, path32, H)
    {
      if nextHash != H(ToRLPBytes(mem[..], proof[i])) {
        return Revert;
      }
      var list := ListItems(mem, proof[i]);
      if list.Revert? {
        return Revert;
      }
      var node := list.value;
      var child: RLPItem;
      if |node| == 2 {
        var compact := ToBytes(mem[..], node[0]);
        if compact.Revert? {
          return Revert;
        }
        var nodePath := CompactDecode(compact.value);
        if nodePath.Revert? {
          return Revert;
        }
        var shared := SharedPrefixLength(pathOffset, path, nodePath.value);
        pathOffset := pathOffset + shared;
        if i == |proof| - 1 {
          return if pathOffset == |path| then ToBytes(mem[..], node[1]) else Revert;
        }
        child := node[1];
      } else {
        if |node| != 17 {
          return Revert;
        }
        if i == |proof| - 1 && pathOffset + 1 == |path| {
          return ToBytes(mem[..], node[16]);
        }
        var nibble := ExtractNibble(path32, pathOffset);
        if nibble.Revert? {
          return Revert;
        }
        NibbleInRange(path32, pathOffset);
        child := node[nibble.value];
        if i == |proof| - 1 {
          var bytes := ToBytes(mem[..], child);
          return if bytes.Ok? && bytes.value == [] then Ok([]) else Revert;
        }
        pathOffset := pathOffset + 1;
      }
      var next := ChildHash(mem[..], child, H);
      if next.Revert? {
        return Revert;
      }
      nextHash := next.value;
      i := i + 1;
    }
    return Revert;
  }

  lemma NibbleInRange(path: Bytes, position: nat)
    requires ExtractNibble(path, position).Ok?
    ensures ExtractNibble(path, position).value < 16
  {
  }

  // ----- Reading the nodes of a trie -----

  /** A string that is a node parses as that node's items. */
  lemma NodeRead(mem: Bytes, item: RLPItem, n: Node, H: HashFunction)
    requires !n.Empty? && |NodeBytes(n, H)| < TWO_64
    requires ToRLPBytes(mem, item) == NodeBytes(n, H)
    ensures ToList(mem, item).Ok? && ItemsOf(mem, ToList(mem, item).value, ToRLP(n, H).items)
  {
    hide Encode, ToList, ItemsOf, Refs, Ref, Prefixed;
    var t := ToRLP(n, H);
    assert item == RLPItem(|Encode(t)|, item.memPtr);
    ListRead(mem, item.memPtr, t.items);
  }

  lemma EmptyIsNoList(mem: Bytes, item: RLPItem, H: HashFunction)
    requires ToRLPBytes(mem, item) == NodeBytes(Empty, H)
    ensures ToList(mem, item) == Revert
  {
    EncodeShort([]);
    hide Encode, ToList;
    assert item == RLPItem(|Encode(Str([]))|, item.memPtr);
    StringIsNoList(mem, item.memPtr, []);
  }

  lemma ItemAt(mem: Bytes, items: seq<RLPItem>, ts: seq<RLPTree>, k: nat)
    requires ItemsOf(mem, items, ts) && k < |ts|
    ensures |items| == |ts|
    ensures items[k] == RLPItem(|Encode(ts[k])|, items[k].memPtr)
    ensures |Encode(ts[k])| < TWO_64 && Holds(mem, items[k].memPtr, Encode(ts[k]))
    ensures ToBytes(mem, items[k]) == Ok(Payload(ts[k]))
    ensures IsList(mem, items[k].memPtr) == ts[k].List?
  {
    hide Encode, Holds, ToBytes, IsList, ItemLength, PayloadOffset;
    BytesRead(mem, items[k].memPtr, ts[k]);
    ItemRead(mem, items[k].memPtr, ts[k]);
  }

  lemma LeafRead(mem: Bytes, item: RLPItem, key: Bytes, value: Bytes, H: HashFunction)
    requires IsNibbles(key) && |NodeBytes(Leaf(key, value), H)| < TWO_64
    requires ToRLPBytes(mem, item) == NodeBytes(Leaf(key, value), H)
    ensures ToList(mem, item).Ok? && |ToList(mem, item).value| == 2
    ensures var node := ToList(mem, item).value;
            && ToBytes(mem, node[0]).Ok? && CompactDecode(ToBytes(mem, node[0]).value) == Ok(key)
            && ToBytes(mem, node[1]) == Ok(value)
            && ChildHash(mem, node[1], H) == (if |value| == 32 then Ok(value) else Revert)
  {
    hide ToList, ToBytes, IsList, ItemsOf, NodeBytes, Encode, Holds, CompactDecode, HexPrefix;
    NodeRead(mem, item, Leaf(key, value), H);
    var ts := ToRLP(Leaf(key, value), H).items;
    assert ts == [Str(HexPrefix(key, true)), Str(value)];
    ItemAt(mem, ToList(mem, item).value, ts, 0);
    ItemAt(mem, ToList(mem, item).value, ts, 1);
    HexPrefixRoundTrip(key, true);
  }

  /** A reference to a child leads to the digest of the child, or nowhere if there is none. */
  lemma ChildRead(mem: Bytes, item: RLPItem, child: Node, H: HashFunction)
    requires |Encode(Ref(child, H))| < TWO_64
    requires item == RLPItem(|Encode(Ref(child, H))|, item.memPtr)
    requires Holds(mem, item.memPtr, Encode(Ref(child, H)))
    requires ToBytes(mem, item) == Ok(Payload(Ref(child, H)))
    requires IsList(mem, item.memPtr) == Ref(child, H).List?
    ensures ChildHash(mem, item, H) == if child.Empty? then Revert else Ok(H(NodeBytes(child, H)))
    ensures ToBytes(mem, item) == Ok([]) <==> child.Empty?
  {
    hide Encode, ToBytes, IsList;
    if !child.Empty? {
      ItemsNotEmpty(ToRLP(child, H).items);
    }
  }

  lemma ItemsNotEmpty(ts: seq<RLPTree>)
    ensures ts != [] ==> EncodeAll(ts) != []
  {
    hide Encode;
  }

  lemma ExtensionRead(mem: Bytes, item: RLPItem, key: Bytes, child: Node, H: HashFunction)
    requires IsNibbles(key) && |NodeBytes(Extension(key, child), H)| < TWO_64 && !child.Empty?
    requires ToRLPBytes(mem, item) == NodeBytes(Extension(key, child), H)
    ensures ToList(mem, item).Ok? && |ToList(mem, item).value| == 2
    ensures var node := ToList(mem, item).value;
            && ToBytes(mem, node[0]).Ok? && CompactDecode(ToBytes(mem, node[0]).value) == Ok(key)
            && ChildHash(mem, node[1], H) == Ok(H(NodeBytes(child, H)))
  {
    hide ToList, ToBytes, IsList, ItemsOf, NodeBytes, Encode, Holds, CompactDecode, HexPrefix, Ref, ChildHash;
    NodeRead(mem, item, Extension(key, child), H);
    var ts := ToRLP(Extension(key, child), H).items;
    assert ts == [Str(HexPrefix(key, false)), Ref(child, H)];
    ItemAt(mem, ToList(mem, item).value, ts, 0);
    ItemAt(mem, ToList(mem, item).value, ts, 1);
    ChildRead(mem, ToList(mem, item).value[1], child, H);
    HexPrefixRoundTrip(key, false);
  }

  lemma BranchRead(mem: Bytes, item: RLPItem, children: seq<Node>, value: Bytes, H: HashFunction)
    requires |children| == 16 && |NodeBytes(Branch(children, value), H)| < TWO_64
    requires ToRLPBytes(mem, item) == NodeBytes(Branch(children, value), H)
    ensures ToList(mem, item).Ok? && |ToList(mem, item).value| == 17
    ensures var node := ToList(mem, item).value;
            && ToBytes(mem, node[16]) == Ok(value)
            && forall k | 0 <= k < 16 ::
                 && ChildHash(mem, node[k], H) == (if children[k].Empty? then Revert else Ok(H(NodeBytes(children[k], H))))
                 && (ToBytes(mem, node[k]) == Ok([]) <==> children[k].Empty?)
  {
    hide ToList, ToBytes, IsList, ItemsOf, NodeBytes, Encode, Holds, Ref, ChildHash;
    NodeRead(mem, item, Branch(children, value), H);
    var ts := ToRLP(Branch(children, value), H).items;
    assert ts == Refs(children, H) + [Str(value)];
    var node := ToList(mem, item).value;
    ItemAt(mem, node, ts, 16);
    forall k | 0 <= k < 16
      ensures ChildHash(mem, node[k], H) == (if children[k].Empty? then Revert else Ok(H(NodeBytes(children[k], H))))
      ensures ToBytes(mem, node[k]) == Ok([]) <==> children[k].Empty?
    {
      assert ts[k] == Ref(children[k], H);
      ItemAt(mem, node, ts, k);
      ChildRead(mem, node[k], children[k], H);
    }
  }

  // ----- One round of the checker -----

  lemma LeafRound(mem: Bytes, proof: seq<RLPItem>, i: nat, pathOffset: nat, path32: Bytes, H: HashFunction,
                  key: Bytes, value: Bytes)
    requires |path32| == 32 && i < |proof|
    requires IsNibbles(key) && |NodeBytes(Leaf(key, value), H)| < TWO_64
    requires ToRLPBytes(mem, proof[i]) == NodeBytes(Leaf(key, value), H)
    ensures var offset := pathOffset + Shared(Unpack(path32, 0), pathOffset, key);
            var r := VerifyFrom(mem, proof, i, pathOffset, H(NodeBytes(Leaf(key, value), H)), path32, H);
            if i == |proof| - 1 then r == (if offset == 64 then Ok(value) else Revert)
            else if |value| == 32 then r == VerifyFrom(mem, proof, i + 1, offset, value, path32, H)
            else r == Revert
  {
    hide ToList, ToBytes, ToRLPBytes, ChildHash, CompactDecode, ExtractNibble, NodeBytes, Shared, Unpack, IsNibbles;
    LeafRead(mem, proof[i], key, value, H);
  }

  lemma ExtensionRound(mem: Bytes, proof: seq<RLPItem>, i: nat, pathOffset: nat, path32: Bytes, H: HashFunction,
                       key: Bytes, child: Node)
    requires |path32| == 32 && i < |proof|
    requires IsNibbles(key) && !child.Empty? && |NodeBytes(Extension(key, child), H)| < TWO_64
    requires ToRLPBytes(mem, proof[i]) == NodeBytes(Extension(key, child), H)
    ensures var offset := pathOffset + Shared(Unpack(path32, 0), pathOffset, key);
            var r := VerifyFrom(mem, proof, i, pathOffset, H(NodeBytes(Extension(key, child), H)), path32, H);
            if i == |proof| - 1 then offset != 64 ==> r == Revert
            else r == VerifyFrom(mem, proof, i + 1, offset, H(NodeBytes(child, H)), path32, H)
  {
    hide ToList, ToBytes, ToRLPBytes, ChildHash, CompactDecode, ExtractNibble, NodeBytes, Shared, Unpack, IsNibbles;
    ExtensionRead(mem, proof[i], key, child, H);
  }

  lemma BranchRound(mem: Bytes, proof: seq<RLPItem>, i: nat, pathOffset: nat, path32: Bytes, H: HashFunction,
                    children: seq<Node>)
    requires |path32| == 32 && i < |proof| && pathOffset < 64
    requires |children| == 16 && |NodeBytes(Branch(children, []), H)| < TWO_64
    requires ToRLPBytes(mem, proof[i]) == NodeBytes(Branch(children, []), H)
    ensures var child := children[Unpack(path32, 0)[pathOffset]];
            var r := VerifyFrom(mem, proof, i, pathOffset, H(NodeBytes(Branch(children, []), H)), path32, H);
            if i == |proof| - 1 then r == (if pathOffset == 63 || child.Empty? then Ok([]) else Revert)
            else if child.Empty? then r == Revert
            else r == VerifyFrom(mem, proof, i + 1, pathOffset + 1, H(NodeBytes(child, H)), path32, H)
  {
    hide ToList, ToBytes, ToRLPBytes, ChildHash, CompactDecode, ExtractNibble, NodeBytes, Shared, IsNibbles;
    BranchRead(mem, proof[i], children, [], H);
    ExtractIsUnpacked(path32, pathOffset);
  }

  // ----- Soundness -----

  /** The strings a proof presents as nodes. */
  function Presented(mem: Bytes, proof: seq<RLPItem>): (strings: seq<Bytes>)
    ensures |strings| == |proof|
    ensures forall k | 0 <= k < |proof| :: strings[k] == ToRLPBytes(mem, proof[k])
  {
    seq(|proof|, k requires 0 <= k < |proof| => ToRLPBytes(mem, proof[k]))
  }

  lemma SharedAtEnd(xs: Bytes, offset: nat, ys: Bytes)
    requires offset + |ys| <= |xs| && Shared(xs, offset, ys) == |ys|
    ensures ys <= xs[offset..] && xs[offset..][|ys|..] == xs[offset + |ys|..]
    ensures offset + |ys| == |xs| ==> ys == xs[offset..]
  {
  }

  lemma KeyedShape(n: Node, depth: nat, H: HashFunction)
    requires Keyed(n, depth, H)
    ensures |NodeBytes(n, H)| < TWO_64
    ensures n.Leaf? ==> IsNibbles(n.key) && depth + |n.key| == 64
    ensures n.Extension? ==>
              IsNibbles(n.key) && n.child.Branch? && depth + |n.key| < 64 && Keyed(n.child, depth + |n.key|, H)
    ensures n.Branch? ==>
              && depth < 64 && |n.children| == 16 && n.value == []
              && forall k | 0 <= k < 16 :: Keyed(n.children[k], depth + 1, H)
  {
    hide NodeBytes, IsNibbles;
  }

  lemma KeyedParts(n: Node, depth: nat, strings: seq<Bytes>, H: HashFunction)
    requires Keyed(n, depth, H) && NoCollision(n, strings, H)
    ensures |NodeBytes(n, H)| < TWO_64
    ensures forall k | 0 <= k < |strings| :: H(strings[k]) == H(NodeBytes(n, H)) ==> strings[k] == NodeBytes(n, H)
    ensures n.Leaf? ==>
              && IsNibbles(n.key) && depth + |n.key| == 64
              && forall k | 0 <= k < |strings| :: H(strings[k]) != n.value
    ensures n.Extension? ==>
              && IsNibbles(n.key) && n.child.Branch? && depth + |n.key| < 64
              && Keyed(n.child, depth + |n.key|, H) && NoCollision(n.child, strings, H)
    ensures n.Branch? ==>
              && depth < 64 && |n.children| == 16 && n.value == []
              && forall k | 0 <= k < 16 :: Keyed(n.children[k], depth + 1, H) && NoCollision(n.children[k], strings, H)
  {
    hide NodeBytes, IsNibbles;
  }

  /** What is accepted at a leaf is what it holds for the whole path. */
  lemma LeafFound(mem: Bytes, proof: seq<RLPItem>, i: nat, pathOffset: nat, key: Bytes, v: Bytes, depth: nat, path32: Bytes,
                  H: HashFunction, value: Bytes)
    requires |path32| == 32 && i < |proof| && ToRLPBytes(mem, proof[i]) == NodeBytes(Leaf(key, v), H)
    requires |NodeBytes(Leaf(key, v), H)| < TWO_64 && IsNibbles(key) && depth + |key| == 64 && pathOffset <= depth
    requires forall k | 0 <= k < |proof| :: H(Presented(mem, proof)[k]) != v
    requires VerifyFrom(mem, proof, i, pathOffset, H(NodeBytes(Leaf(key, v), H)), path32, H) == Ok(value)
    ensures pathOffset == depth && Lookup(Leaf(key, v), Unpack(path32, 0)[depth..]) == value
  {
    hide ToRLPBytes, NodeBytes, Shared, Unpack, IsNibbles, VerifyFrom;
    var path := Unpack(path32, 0);
    LeafRound(mem, proof, i, pathOffset, path32, H, key, v);
    LeafIsLast(mem, proof, i + 1, pathOffset + Shared(path, pathOffset, key), v, path32, H);
    SharedAtEnd(path, pathOffset, key);
  }

  /** What is accepted at an extension is accepted at its child. */
  lemma ExtensionPassed(mem: Bytes, proof: seq<RLPItem>, i: nat, pathOffset: nat, key: Bytes, child: Node, depth: nat,
                        path32: Bytes, H: HashFunction, value: Bytes)
    requires |path32| == 32 && i < |proof| && ToRLPBytes(mem, proof[i]) == NodeBytes(Extension(key, child), H)
    requires |NodeBytes(Extension(key, child), H)| < TWO_64 && IsNibbles(key) && child.Branch?
    requires depth + |key| < 64 && pathOffset <= depth
    requires VerifyFrom(mem, proof, i, pathOffset, H(NodeBytes(Extension(key, child), H)), path32, H) == Ok(value)
    ensures var offset := pathOffset + Shared(Unpack(path32, 0), pathOffset, key);
            && offset <= depth + |key| && i + 1 < |proof|
            && VerifyFrom(mem, proof, i + 1, offset, H(NodeBytes(child, H)), path32, H) == Ok(value)
  {
    hide ToRLPBytes, NodeBytes, Shared, Unpack, IsNibbles, VerifyFrom;
    ExtensionRound(mem, proof, i, pathOffset, path32, H, key, child);
  }

  /** If the offset keeps up with the depth, the extension's key was matched in full. */
  lemma ExtensionFound(path: Bytes, pathOffset: nat, key: Bytes, child: Node, depth: nat)
    requires pathOffset <= depth && depth + |key| <= |path|
    requires pathOffset + Shared(path, pathOffset, key) == depth + |key|
    ensures pathOffset == depth && Lookup(Extension(key, child), path[depth..]) == Lookup(child, path[depth + |key|..])
  {
    hide Shared;
    SharedAtEnd(path, pathOffset, key);
  }

  /**
   Whatever the checker accepts below a node it reached at most as deep as the path says is
   what the subtrie holds, and it had matched every half-byte on the way.
   */
  lemma {:induction false} SoundFrom(mem: Bytes, proof: seq<RLPItem>, i: nat, pathOffset: nat, n: Node, depth: nat,
                                     path32: Bytes, H: HashFunction, value: Bytes)
    requires |path32| == 32 && Keyed(n, depth, H) && pathOffset <= depth
    requires NoCollision(n, Presented(mem, proof), H)
    requires VerifyFrom(mem, proof, i, pathOffset, H(NodeBytes(n, H)), path32, H) == Ok(value) && value != []
    ensures pathOffset == depth <= 64 && Lookup(n, Unpack(path32, 0)[depth..]) == value
    decreases |proof| - i
  {
    hide ToRLPBytes, NodeBytes, Shared, Unpack, IsNibbles, VerifyFrom, Lookup, Keyed, NoCollision;
    var path := Unpack(path32, 0);
    KeyedParts(n, depth, Presented(mem, proof), H);
    HashChecked(mem, proof, i, pathOffset, H(NodeBytes(n, H)), path32, H);
    assert Presented(mem, proof)[i] == NodeBytes(n, H);
    match n
    case Empty =>
      EmptyRound(mem, proof, i, pathOffset, path32, H);
    case Leaf(key, v) =>
      LeafFound(mem, proof, i, pathOffset, key, v, depth, path32, H, value);
    case Extension(key, child) =>
      ExtensionPassed(mem, proof, i, pathOffset, key, child, depth, path32, H, value);
      SoundFrom(mem, proof, i + 1, pathOffset + Shared(path, pathOffset, key), child, depth + |key|, path32, H, value);
      ExtensionFound(path, pathOffset, key, child, depth);
    case Branch(children, v) =>
      BranchRound(mem, proof, i, pathOffset, path32, H, children);
      LookupOnce(n, path[depth..]);
      SoundFrom(mem, proof, i + 1, pathOffset + 1, children[path[pathOffset]], depth + 1, path32, H, value);
      assert path[depth..][1..] == path[depth + 1..];
  }

  /** Looking a key up, one node at a time. */
  lemma LookupOnce(n: Node, key: Bytes)
    ensures n.Leaf? && n.key == key ==> Lookup(n, key) == n.value
    ensures n.Extension? && n.key <= key ==> Lookup(n, key) == Lookup(n.child, key[|n.key|..])
    ensures n.Branch? && key != [] && key[0] as nat < |n.children| ==> Lookup(n, key) == Lookup(n.children[key[0]], key[1..])
  {
  }

  /** Nothing follows a leaf whose payload is no digest of what is presented. */
  lemma LeafIsLast(mem: Bytes, proof: seq<RLPItem>, i: nat, pathOffset: nat, payload: Bytes, path32: Bytes, H: HashFunction)
    requires |path32| == 32 && forall k | 0 <= k < |proof| :: H(Presented(mem, proof)[k]) != payload
    ensures |payload| == 32 ==> VerifyFrom(mem, proof, i, pathOffset, payload, path32, H) == Revert
  {
    hide ToList, ToBytes, ToRLPBytes, ChildHash, CompactDecode, ExtractNibble, Shared, Unpack;
    if i < |proof| {
      assert H(Presented(mem, proof)[i]) != payload;
    }
  }

  /** An accepted item has the digest asked for. */
  lemma HashChecked(mem: Bytes, proof: seq<RLPItem>, i: nat, pathOffset: nat, nextHash: Hash, path32: Bytes, H: HashFunction)
    requires |path32| == 32 && VerifyFrom(mem, proof, i, pathOffset, nextHash, path32, H).Ok?
    ensures i < |proof| && nextHash == H(ToRLPBytes(mem, proof[i]))
  {
    hide ToList, ToBytes, ToRLPBytes, ChildHash, CompactDecode, ExtractNibble, Shared, Unpack;
  }

  lemma EmptyRound(mem: Bytes, proof: seq<RLPItem>, i: nat, pathOffset: nat, path32: Bytes, H: HashFunction)
    requires |path32| == 32 && i < |proof| && ToRLPBytes(mem, proof[i]) == NodeBytes(Empty, H)
    ensures VerifyFrom(mem, proof, i, pathOffset, H(NodeBytes(Empty, H)), path32, H) == Revert
  {
    hide ToList, ToBytes, ToRLPBytes, ChildHash, CompactDecode, ExtractNibble, Shared, Unpack, NodeBytes;
    EmptyIsNoList(mem, proof[i], H);
  }

  /**
   Soundness: for any trie whose keys have 64 half-bytes, a non-empty value the checker
   returns is what the trie maps the path to, whatever the proof, although the checker never
   looks at the leaf flag nor at whether an extension matched in full. Digests may not
   collide, and no leaf payload may be the digest of a string presented; see
   `PayloadsAreNoDigests` for payloads that cannot be.
   */
  lemma VerifySound(mem: Bytes, len: nat, memPtr: nat, root: Node, path32: Bytes, H: HashFunction, value: Bytes)
    requires |path32| == 32 && Keyed(root, 0, H)
    requires Verify(mem, len, memPtr, H(NodeBytes(root, H)), path32, H) == Ok(value) && value != []
    requires NoCollision(root, Presented(mem, ToList(mem, ToRLPItem(len, memPtr)).value), H)
    ensures Lookup(root, Unpack(path32, 0)) == value
  {
    hide ToList, ToBytes, ToRLPBytes, VerifyFrom, Unpack, NodeBytes, Keyed, NoCollision;
    SoundFrom(mem, ToList(mem, ToRLPItem(len, memPtr)).value, 0, 0, root, 0, path32, H, value);
    assert Unpack(path32, 0)[0..] == Unpack(path32, 0);
  }

  // ----- Completeness -----

  /** The proof for a key: the nodes from the root to its leaf, as one list. */
  function NodeList(nodes: seq<Node>, H: HashFunction): (ts: seq<RLPTree>)
    ensures |ts| == |nodes|
    ensures forall k | 0 <= k < |nodes| :: ts[k] == ToRLP(nodes[k], H)
  {
    seq(|nodes|, k requires 0 <= k < |nodes| => ToRLP(nodes[k], H))
  }

  ghost predicate Presents(mem: Bytes, proof: seq<RLPItem>, nodes: seq<Node>, H: HashFunction) {
    && |proof| == |nodes|
    && forall k | 0 <= k < |proof| :: ToRLPBytes(mem, proof[k]) == NodeBytes(nodes[k], H)
  }

  lemma SharedWhole(xs: Bytes, offset: nat, ys: Bytes)
    requires offset <= |xs| && ys <= xs[offset..]
    ensures Shared(xs, offset, ys) == |ys|
  {
    forall k | 0 <= k < |ys|
      ensures xs[offset + k] == ys[k]
    {
      assert xs[offset..][k] == ys[k];
    }
    SharedIs(xs, offset, ys, |ys|);
  }

  /** Only the whole key is shared in full. */
  lemma SharedInPart(xs: Bytes, offset: nat, ys: Bytes)
    requires offset + |ys| <= |xs| && !(ys <= xs[offset..])
    ensures Shared(xs, offset, ys) < |ys|
  {
    if Shared(xs, offset, ys) == |ys| {
      SharedAtEnd(xs, offset, ys);
    }
  }

  /** On the honest rest of a proof the checker finds what the subtrie holds, unless the key strays. */
  lemma {:induction false} CompleteFrom(mem: Bytes, proof: seq<RLPItem>, i: nat, n: Node, depth: nat, path32: Bytes,
                                        H: HashFunction)
    requires |path32| == 32 && Keyed(n, depth, H) && depth <= 64 && !n.Empty?
    requires i <= |proof| && Presents(mem, proof[i..], PathTo(n, Unpack(path32, 0)[depth..]), H)
    ensures VerifyFrom(mem, proof, i, depth, H(NodeBytes(n, H)), path32, H)
         == var key := Unpack(path32, 0)[depth..];
            if Strays(n, key) then Revert else Ok(Lookup(n, key))
    decreases |proof| - i
  {
    hide ToRLPBytes, NodeBytes, Shared, Unpack, IsNibbles, VerifyFrom, Keyed;
    var path := Unpack(path32, 0);
    var key := path[depth..];
    KeyedShape(n, depth, H);
    PathStarts(n, key);
    assert proof[i..][0] == proof[i];
    assert proof[i..][1..] == proof[i + 1..];
    match n
    case Leaf(k, v) =>
      LeafRound(mem, proof, i, depth, path32, H, k, v);
      LeafKeyShared(path, depth, k);
    case Extension(k, child) =>
      ExtensionRound(mem, proof, i, depth, path32, H, k, child);
      ExtensionKeyShared(path, depth, k);
      if k <= key {
        assert key[|k|..] == path[depth + |k|..];
        PathStarts(child, key[|k|..]);
        PresentsRest(mem, proof[i..], n, PathTo(child, key[|k|..]), H);
        CompleteFrom(mem, proof, i + 1, child, depth + |k|, path32, H);
      }
    case Branch(children, v) =>
      NibblesBelow16(path32, depth);
      BranchRound(mem, proof, i, depth, path32, H, children);
      var child := children[key[0]];
      assert key[1..] == path[depth + 1..] && key[0] == path[depth];
      if !child.Empty? {
        PathStarts(child, key[1..]);
        PresentsRest(mem, proof[i..], n, PathTo(child, key[1..]), H);
        CompleteFrom(mem, proof, i + 1, child, depth + 1, path32, H);
      }
  }

  lemma NibblesBelow16(path32: Bytes, depth: nat)
    requires |path32| == 32 && depth < 64
    ensures Unpack(path32, 0)[depth] < 16
  {
  }

  lemma LeafKeyShared(path: Bytes, depth: nat, key: Bytes)
    requires depth + |key| == |path|
    ensures depth + Shared(path, depth, key) == |path| <==> key == path[depth..]
  {
    hide Shared;
    if key <= path[depth..] {
      assert key == path[depth..][..|key|] == path[depth..];
      SharedWhole(path, depth, key);
    } else {
      SharedInPart(path, depth, key);
    }
  }

  lemma ExtensionKeyShared(path: Bytes, depth: nat, key: Bytes)
    requires depth + |key| <= |path|
    ensures key <= path[depth..] ==> Shared(path, depth, key) == |key|
    ensures !(key <= path[depth..]) ==> depth + Shared(path, depth, key) < |path|
  {
    hide Shared;
    if key <= path[depth..] {
      SharedWhole(path, depth, key);
    } else {
      SharedInPart(path, depth, key);
    }
  }

  lemma PathStarts(n: Node, key: Bytes)
    requires !n.Empty?
    ensures PathTo(n, key) != [] && PathTo(n, key)[0] == n
  {
  }

  lemma PresentsRest(mem: Bytes, proof: seq<RLPItem>, n: Node, nodes: seq<Node>, H: HashFunction)
    requires Presents(mem, proof, [n] + nodes, H)
    ensures Presents(mem, proof[1..], nodes, H)
  {
    hide ToRLPBytes, NodeBytes;
    forall k | 0 <= k < |nodes|
      ensures ToRLPBytes(mem, proof[1..][k]) == NodeBytes(nodes[k], H)
    {
      assert proof[1..][k] == proof[k + 1] && ([n] + nodes)[k + 1] == nodes[k];
    }
  }

  lemma ListPresents(mem: Bytes, items: seq<RLPItem>, nodes: seq<Node>, H: HashFunction)
    requires ItemsOf(mem, items, NodeList(nodes, H))
    ensures Presents(mem, items, nodes, H)
  {
    hide Encode, ToRLP;
  }

  /**
   The honest proof for a key is the list of nodes from the root towards it. On it the checker
   gives what the trie holds, nothing for a key that ends at an empty slot, and reverts exactly for
   the keys that end inside a leaf's or an extension's own key: their absence it cannot show.
   */
  lemma VerifyComplete(mem: Bytes, memPtr: nat, root: Node, path32: Bytes, H: HashFunction)
    requires |path32| == 32 && Keyed(root, 0, H)
    requires var proof := Encode(List(NodeList(PathTo(root, Unpack(path32, 0)), H)));
             |proof| < TWO_64 && Holds(mem, memPtr, proof)
    ensures var proof := Encode(List(NodeList(PathTo(root, Unpack(path32, 0)), H)));
            Verify(mem, |proof|, memPtr, H(NodeBytes(root, H)), path32, H)
            == if Strays(root, Unpack(path32, 0)) then Revert else Ok(Lookup(root, Unpack(path32, 0)))
    ensures Present(root, Unpack(path32, 0)) ==> !Strays(root, Unpack(path32, 0))
    ensures !Present(root, Unpack(path32, 0)) ==> Lookup(root, Unpack(path32, 0)) == []
  {
    EmptyEncoded(H);
    hide ToList, ToBytes, ToRLPBytes, VerifyFrom, Unpack, NodeBytes, Keyed, Encode, Holds, NodeList, ItemsOf, IsNibbles;
    var path := Unpack(path32, 0);
    var nodes := PathTo(root, path);
    var ts := NodeList(nodes, H);
    var proof := Encode(List(ts));
    ListRead(mem, memPtr, ts);
    var items := ToList(mem, RLPItem(|proof|, memPtr)).value;
    ListPresents(mem, items, nodes, H);
    StraysOrHeld(root, 0, path, H);
    assert path[0..] == path && items[0..] == items;
    if root.Empty? {
      PresentsNone(mem, items, H);
    } else {
      PathStarts(root, path);
      CompleteFrom(mem, items, 0, root, 0, path32, H);
    }
  }

  lemma EmptyEncoded(H: HashFunction)
    ensures NodeBytes(Empty, H) == [0x80]
  {
  }

  lemma PresentsNone(mem: Bytes, items: seq<RLPItem>, H: HashFunction)
    requires Presents(mem, items, [], H)
    ensures items == []
  {
  }
}
