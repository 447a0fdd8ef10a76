/**
 What an empty answer of the proof checker means: it shows that the key is absent, unless a branch lies
 at the key's last half-byte. There the checker answers from the branch itself, which holds nothing,
 and never looks at the branch's child.
 */
module Absence {
  import opened Prelude
  import opened RLPCodec
  import opened Nibbles
  import opened Trie
  import opened TrieProofs

  /** Whether the way to the key ends with the choice of a branch's child. */
  predicate EndsInBranch(n: Node, key: Bytes) {
    match n
    case Extension(k, child) => k <= key && EndsInBranch(child, key[|k|..])
    case Branch(children, _) =>
      |key| == 1 || (key != [] && key[0] as nat < |children| && EndsInBranch(children[key[0]], key[1..]))
    case _ => false
  }

  // ----- What an empty answer shows -----

  /** An empty answer from a node that was reached along the whole way shows absence, but for that branch. */
  lemma {:induction false} EmptyFrom(mem: Bytes, proof: seq<RLPItem>, i: nat, n: Node, depth: nat, path32: Bytes, H: HashFunction)
    requires |path32| == 32 && Keyed(n, depth, H) && depth <= 64
    requires NoCollision(n, Presented(mem, proof), H)
    requires VerifyFrom(mem, proof, i, depth, H(NodeBytes(n, H)), path32, H) == Ok([])
    ensures var key := Unpack(path32, 0)[depth..];
            Lookup(n, key) == [] || EndsInBranch(n, key)
    decreases |proof| - i
  {
    hide ToRLPBytes, NodeBytes, Shared, Unpack, IsNibbles, VerifyFrom, Lookup, Keyed, NoCollision;
    var path := Unpack(path32, 0);
    KeyedParts(n, depth, Presented(mem, proof), H);
    HashChecked(mem, proof, i, depth, H(NodeBytes(n, H)), path32, H);
    assert Presented(mem, proof)[i] == NodeBytes(n, H);
    match n
    case Empty =>
      EmptyRound(mem, proof, i, depth, path32, H);
    case Leaf(key, v) =>
      LeafRound(mem, proof, i, depth, path32, H, key, v);
      LeafIsLast(mem, proof, i + 1, depth + Shared(path, depth, key), v, path32, H);
      LeafKeyShared(path, depth, key);
      LookupOnce(n, path[depth..]);
    case Extension(key, child) =>
      ExtensionRound(mem, proof, i, depth, path32, H, key, child);
      ExtensionKeyShared(path, depth, key);
      LookupOnce(n, path[depth..]);
      if key <= path[depth..] {
        assert path[depth..][|key|..] == path[depth + |key|..];
        EmptyFrom(mem, proof, i + 1, child, depth + |key|, path32, H);
      } else {
        NothingBeyond(n, path[depth..]);
      }
    case Branch(children, v) =>
      NibblesBelow16(path32, depth);
      BranchRound(mem, proof, i, depth, path32, H, children);
      LookupOnce(n, path[depth..]);
      var child := children[path[depth]];
      assert path[depth..][1..] == path[depth + 1..];
      if child.Empty? {
        NothingBeyond(child, path[depth + 1..]);
      } else if depth < 63 {
        EmptyFrom(mem, proof, i + 1, child, depth + 1, path32, H);
      }
  }

  lemma NothingBeyond(n: Node, key: Bytes)
    ensures n.Empty? || (n.Extension? && !(n.key <= key)) ==> Lookup(n, key) == []
  {
  }

  // ----- What it does not show -----

  /** The nodes from a root down to the branch at the key's last half-byte. */
  function PathToBranch(n: Node, key: Bytes): seq<Node>
    requires EndsInBranch(n, key)
  {
    match n
    case Extension(k, child) => [n] + PathToBranch(child, key[|k|..])
    case Branch(children, _) => [n] + if |key| == 1 then [] else PathToBranch(children[key[0]], key[1..])
  }

  lemma {:induction false} ForgedFrom(mem: Bytes, proof: seq<RLPItem>, i: nat, n: Node, depth: nat, path32: Bytes, H: HashFunction)
    requires |path32| == 32 && Keyed(n, depth, H) && depth <= 64
    requires EndsInBranch(n, Unpack(path32, 0)[depth..])
    requires i <= |proof| && Presents(mem, proof[i..], PathToBranch(n, Unpack(path32, 0)[depth..]), H)
    ensures VerifyFrom(mem, proof, i, depth, H(NodeBytes(n, H)), path32, H) == Ok([])
    decreases |proof| - i
  {
    hide ToRLPBytes, NodeBytes, Shared, Unpack, IsNibbles, VerifyFrom;
    var path := Unpack(path32, 0);
    var key := path[depth..];
    BranchPathStarts(n, key);
    assert proof[i..][0] == proof[i];
    assert proof[i..][1..] == proof[i + 1..];
    match n
    case Extension(k, child) =>
      ExtensionRound(mem, proof, i, depth, path32, H, k, child);
      ExtensionKeyShared(path, depth, k);
      assert key[|k|..] == path[depth + |k|..];
      BranchPathStarts(child, key[|k|..]);
      PresentsRest(mem, proof[i..], n, PathToBranch(child, key[|k|..]), H);
      ForgedFrom(mem, proof, i + 1, child, depth + |k|, path32, H);
    case Branch(children, v) =>
      BranchRound(mem, proof, i, depth, path32, H, children);
      if |key| > 1 {
        var child := children[key[0]];
        assert key[1..] == path[depth + 1..] && key[0] == path[depth];
        BranchPathStarts(child, key[1..]);
        PresentsRest(mem, proof[i..], n, PathToBranch(child, key[1..]), H);
        ForgedFrom(mem, proof, i + 1, child, depth + 1, path32, H);
      }
  }

  lemma BranchPathStarts(n: Node, key: Bytes)
    requires EndsInBranch(n, key)
    ensures PathToBranch(n, key) != [] && PathToBranch(n, key)[0] == n && !n.Empty?
  {
  }

  // ----- The exact condition -----

  /** No string of the proof, nor the empty string's encoding, collides with a node of the trie. */
  ghost predicate Distinguished(proof: Bytes, root: Node, H: HashFunction) {
    var items := ToList(proof, ToRLPItem(|proof|, 0));
    items.Ok? ==> NoCollision(root, Presented(proof, items.value) + [[0x80]], H)
  }

  /** A proof that the checker answers with nothing. */
  ghost predicate AnsweredEmpty(proof: Bytes, root: Node, path32: Bytes, H: HashFunction)
    requires |path32| == 32
  {
    && Distinguished(proof, root, H)
    && Verify(proof, |proof|, 0, H(NodeBytes(root, H)), path32, H) == Ok([])
  }

  lemma AnsweredShows(proof: Bytes, root: Node, path32: Bytes, H: HashFunction)
    requires |path32| == 32 && Keyed(root, 0, H) && AnsweredEmpty(proof, root, path32, H)
    ensures Lookup(root, Unpack(path32, 0)) == [] || EndsInBranch(root, Unpack(path32, 0))
  {
    hide ToList, ToBytes, ToRLPBytes, VerifyFrom, Unpack, NodeBytes, Keyed, NoCollision, Lookup;
    var items := ToList(proof, ToRLPItem(|proof|, 0)).value;
    var strings := Presented(proof, items);
    FewerCollide(root, strings, [[0x80]], H);
    assert Unpack(path32, 0)[0..] == Unpack(path32, 0);
    if items == [] {
      OnlyEmpty(root, strings + [[0x80]], |strings|, H);
      NothingBeyond(root, Unpack(path32, 0));
    } else {
      EmptyFrom(proof, items, 0, root, 0, path32, H);
    }
  }

  /** Only the empty trie has the digest of the empty string's encoding. */
  lemma OnlyEmpty(root: Node, strings: seq<Bytes>, k: nat, H: HashFunction)
    requires NoCollision(root, strings, H) && k < |strings| && strings[k] == [0x80] && H(NodeBytes(root, H)) == H([0x80])
    ensures root.Empty?
  {
    assert strings[k] == NodeBytes(root, H);
    NodesAreLonger(root, H);
  }

  lemma NodesAreLonger(n: Node, H: HashFunction)
    ensures !n.Empty? ==> |NodeBytes(n, H)| > 1
  {
    hide EncodeAll, Refs, Ref, Prefixed;
    if !n.Empty? {
      ItemsNotEmpty(ToRLP(n, H).items);
    }
  }

  lemma {:induction false} FewerCollide(n: Node, strings: seq<Bytes>, more: seq<Bytes>, H: HashFunction)
    requires NoCollision(n, strings + more, H)
    ensures NoCollision(n, strings, H)
  {
    hide NodeBytes;
    assert forall k | 0 <= k < |strings| :: (strings + more)[k] == strings[k];
    match n
    case Extension(_, child) => FewerCollide(child, strings, more, H);
    case Branch(children, _) =>
      forall k | 0 <= k < |children|
        ensures NoCollision(children[k], strings, H)
      {
        FewerCollide(children[k], strings, more, H);
      }
    case _ =>
  }

  /** The proof that stops at the branch. */
  function CutProof(root: Node, path32: Bytes, H: HashFunction): Bytes
    requires |path32| == 32 && EndsInBranch(root, Unpack(path32, 0))
  {
    Encode(List(NodeList(PathToBranch(root, Unpack(path32, 0)), H)))
  }

  /** It is answered with nothing, whatever the key holds. */
  lemma CutAnswered(root: Node, path32: Bytes, H: HashFunction)
    requires |path32| == 32 && Keyed(root, 0, H) && EndsInBranch(root, Unpack(path32, 0))
    requires |CutProof(root, path32, H)| < TWO_64
    ensures var proof := CutProof(root, path32, H);
            Verify(proof, |proof|, 0, H(NodeBytes(root, H)), path32, H) == Ok([])
  {
    hide ToList, ToBytes, ToRLPBytes, VerifyFrom, Unpack, NodeBytes, Keyed, Encode, Holds, NodeList, ItemsOf;
    var path := Unpack(path32, 0);
    var nodes := PathToBranch(root, path);
    var proof := CutProof(root, path32, H);
    WholeRegion(proof);
    ListRead(proof, 0, NodeList(nodes, H));
    var items := ToList(proof, RLPItem(|proof|, 0)).value;
    ListPresents(proof, items, nodes, H);
    BranchPathStarts(root, path);
    assert path[0..] == path && items[0..] == items;
    ForgedFrom(proof, items, 0, root, 0, path32, H);
  }

  /**
   For a key that holds something some proof is answered with nothing exactly if a branch lies at the
   key's last half-byte. (The digests of the cut proof may not collide either.)
   */
  lemma EmptyAnswerExactly(root: Node, path32: Bytes, H: HashFunction)
    requires |path32| == 32 && Keyed(root, 0, H) && Lookup(root, Unpack(path32, 0)) != []
    requires EndsInBranch(root, Unpack(path32, 0)) ==>
               |CutProof(root, path32, H)| < TWO_64 && Distinguished(CutProof(root, path32, H), root, H)
    ensures (exists proof :: AnsweredEmpty(proof, root, path32, H)) <==> EndsInBranch(root, Unpack(path32, 0))
  {
    hide Verify, Unpack, NodeBytes, Keyed, Distinguished, Lookup, CutProof, EndsInBranch;
    if proof :| AnsweredEmpty(proof, root, path32, H) {
      AnsweredShows(proof, root, path32, H);
    }
    if EndsInBranch(root, Unpack(path32, 0)) {
      CutAnswered(root, path32, H);
      assert AnsweredEmpty(CutProof(root, path32, H), root, path32, H);
    }
  }

  lemma WholeRegion(s: Bytes)
    ensures Holds(s, 0, s)
  {
  }
}
