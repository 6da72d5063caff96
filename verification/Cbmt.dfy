/** Complete binary Merkle tree proofs of layer-2 transactions, for any hash function with 32-byte
results: the verifier is complete, and an accepted wrong transaction means that the verifier hashed
something that collides with what the block producer hashed. */
module Cbmt {

  import opened Encoding

  type Hasher = Bytes -> Bytes

  ghost predicate Wide(h: Hasher) {
    forall x :: |h(x)| == 32
  }

  function Zero(): Bytes {
    seq(32, _ => 0)
  }

  // ---------- The tree ----------

  function LeafPreimage(h: Hasher, index: U32, tx: Bytes): Bytes {
    LittleEndian(index) + h(tx)
  }

  /** Node `i` of the array layout: inner nodes first, the leaves in order at the end. */
  function Node(h: Hasher, txs: seq<Bytes>, i: nat): Bytes
    requires |txs| <= U32_MAX + 1 && i + 1 < 2 * |txs|
    decreases 2 * |txs| - i
  {
    if IsLeaf(txs, i) then h(LeafPreimage(h, i + 1 - |txs|, txs[i + 1 - |txs|]))
    else h(Node(h, txs, 2 * i + 1) + Node(h, txs, 2 * i + 2))
  }

  predicate IsLeaf(txs: seq<Bytes>, i: nat) {
    i + 1 >= |txs|
  }

  function WitnessRoot(h: Hasher, txs: seq<Bytes>): Bytes
    requires |txs| <= U32_MAX + 1
  {
    if txs == [] then Zero() else Node(h, txs, 0)
  }

  // ---------- The verifier ----------

  function Parent(index: U32): U32 {
    (if index == 0 then U32_MAX else index - 1) / 2
  }

  function Merge(h: Hasher, index: U32, hash: Bytes, sibling: Bytes): Bytes {
    if index % 2 == 1 then h(hash + sibling) else h(sibling + hash)
  }

  function Climb(h: Hasher, index: U32, hash: Bytes, lemmas: seq<Bytes>): Bytes
    decreases |lemmas|
  {
    if lemmas == [] then hash
    else Climb(h, Parent(index), Merge(h, index, hash, lemmas[0]), lemmas[1..])
  }

  ghost predicate Accepted(h: Hasher, indices: seq<U32>, lemmas: seq<Bytes>, root: Bytes, txIndex: U32, tx: Bytes) {
    && |indices| == 1
    && (forall i: nat | i < |lemmas| :: |lemmas[i]| == 32)
    && Climb(h, indices[0], h(LeafPreimage(h, txIndex, tx)), lemmas) == root
  }

  method VerifyTxProof(h: Hasher, indices: seq<U32>, lemmas: seq<Bytes>, root: Bytes, txIndex: U32, tx: Bytes)
      returns (ok: bool)
    ensures ok <==> Accepted(h, indices, lemmas, root, txIndex, tx)
  {
    if |indices| != 1 {
      return false;
    }
    var leafIndex: U32, leafHash := indices[0], h(LittleEndian(txIndex) + h(tx));
    ghost var goal := Climb(h, leafIndex, leafHash, lemmas);
    assert lemmas[0..] == lemmas;
    for i := 0 to |lemmas|
      invariant Climb(h, leafIndex, leafHash, lemmas[i..]) == goal
      invariant forall j: nat | j < i :: |lemmas[j]| == 32
    {
      if |lemmas[i]| != 32 {
        return false;
      }
      assert lemmas[i..][0] == lemmas[i] && lemmas[i..][1..] == lemmas[i + 1..];
      leafHash := if leafIndex % 2 == 1 then h(leafHash + lemmas[i]) else h(lemmas[i] + leafHash);
      leafIndex := (if leafIndex == 0 then U32_MAX else leafIndex - 1) / 2;
    }
    return root == leafHash;
  }

  // ---------- Completeness ----------

  function Sibling(i: nat): nat
    requires i > 0
  {
    if i % 2 == 1 then i + 1 else i - 1
  }

  /** The siblings from node `i` up to the root. */
  function SiblingPath(h: Hasher, txs: seq<Bytes>, i: nat): (r: seq<Bytes>)
    requires |txs| <= U32_MAX + 1 && i + 1 < 2 * |txs|
  {
    if i == 0 then [] else [Node(h, txs, Sibling(i))] + SiblingPath(h, txs, (i - 1) / 2)
  }

  lemma {:induction false} PathClimbs(h: Hasher, txs: seq<Bytes>, i: U32)
    requires Wide(h) && |txs| <= U32_MAX + 1 && i + 1 < 2 * |txs|
    ensures var path := SiblingPath(h, txs, i);
      && Climb(h, i, Node(h, txs, i), path) == Node(h, txs, 0)
      && forall k: nat | k < |path| :: |path[k]| == 32
  {
    hide Node, Sibling;
    if i > 0 {
      var path := SiblingPath(h, txs, i);
      SiblingStep(h, txs, i);
      PathClimbs(h, txs, (i - 1) / 2);
      assert path[1..] == SiblingPath(h, txs, (i - 1) / 2);
    }
  }

  lemma SiblingStep(h: Hasher, txs: seq<Bytes>, i: U32)
    requires Wide(h) && |txs| <= U32_MAX + 1 && 0 < i && i + 1 < 2 * |txs|
    ensures Sibling(i) + 1 < 2 * |txs| && |Node(h, txs, Sibling(i))| == 32
    ensures Parent(i) == (i - 1) / 2
    ensures Node(h, txs, (i - 1) / 2) == Merge(h, i, Node(h, txs, i), Node(h, txs, Sibling(i)))
  {
    hide Node, Wide;
    var p := (i - 1) / 2;
    InnerNode(h, txs, p);
    InnerWide(h, txs, Sibling(i));
    assert i == if i % 2 == 1 then 2 * p + 1 else 2 * p + 2;
  }

  lemma InnerNode(h: Hasher, txs: seq<Bytes>, p: nat)
    requires |txs| <= U32_MAX + 1 && 2 * p + 2 < 2 * |txs|
    ensures 2 * p + 3 < 2 * |txs|
    ensures Node(h, txs, p) == h(Node(h, txs, 2 * p + 1) + Node(h, txs, 2 * p + 2))
  {
    assert !IsLeaf(txs, p);
  }

  lemma InnerWide(h: Hasher, txs: seq<Bytes>, i: nat)
    requires Wide(h) && |txs| <= U32_MAX + 1 && i + 1 < 2 * |txs|
    ensures |Node(h, txs, i)| == 32
  {
  }

  lemma LeafNode(h: Hasher, txs: seq<Bytes>, i: nat)
    requires |txs| <= U32_MAX + 1 && i < |txs|
    ensures Node(h, txs, |txs| - 1 + i) == h(LeafPreimage(h, i, txs[i]))
  {
    hide LeafPreimage;
    assert IsLeaf(txs, |txs| - 1 + i);
  }

  lemma RootNode(h: Hasher, txs: seq<Bytes>)
    requires 0 < |txs| <= U32_MAX + 1
    ensures WitnessRoot(h, txs) == Node(h, txs, 0)
  {
  }

  lemma Accept(h: Hasher, index: U32, path: seq<Bytes>, root: Bytes, txIndex: U32, tx: Bytes)
    requires forall k: nat | k < |path| :: |path[k]| == 32
    requires Climb(h, index, h(LeafPreimage(h, txIndex, tx)), path) == root
    ensures Accepted(h, [index], path, root, txIndex, tx)
  {
  }

  /** Complete: the sibling path of every transaction is accepted, in a tree of any size whose node
  numbers fit 32 bits. */
  lemma ProofComplete(h: Hasher, txs: seq<Bytes>, i: nat)
    requires Wide(h) && i < |txs| && 2 * |txs| <= U32_MAX + 2
    ensures var leaf := |txs| - 1 + i;
      Accepted(h, [leaf], SiblingPath(h, txs, leaf), WitnessRoot(h, txs), i, txs[i])
  {
    hide Climb, SiblingPath, Node, LeafPreimage, Wide, Accepted, WitnessRoot;
    var leaf: U32 := |txs| - 1 + i;
    var path := SiblingPath(h, txs, leaf);
    PathClimbs(h, txs, leaf);
    LeafNode(h, txs, i);
    RootNode(h, txs);
    Accept(h, leaf, path, WitnessRoot(h, txs), i, txs[i]);
  }

  // ---------- Soundness ----------

  ghost function NodeInput(h: Hasher, txs: seq<Bytes>, i: nat): Bytes
    requires |txs| <= U32_MAX + 1 && i + 1 < 2 * |txs|
  {
    if IsLeaf(txs, i) then LeafPreimage(h, i + 1 - |txs|, txs[i + 1 - |txs|])
    else Node(h, txs, 2 * i + 1) + Node(h, txs, 2 * i + 2)
  }

  /** Everything hashed to build the witness root. */
  ghost predicate Built(h: Hasher, txs: seq<Bytes>, x: Bytes)
    requires |txs| <= U32_MAX + 1
  {
    x in txs || exists i: nat | i + 1 < 2 * |txs| :: NodeInput(h, txs, i) == x
  }

  function MergeInput(index: U32, hash: Bytes, sibling: Bytes): Bytes {
    if index % 2 == 1 then hash + sibling else sibling + hash
  }

  /** Everything hashed on the way up. */
  function ClimbInputs(h: Hasher, index: U32, hash: Bytes, lemmas: seq<Bytes>): set<Bytes>
    decreases |lemmas|
  {
    if lemmas == [] then {}
    else {MergeInput(index, hash, lemmas[0])}
         + ClimbInputs(h, Parent(index), Merge(h, index, hash, lemmas[0]), lemmas[1..])
  }

  /** Everything the verifier hashes. */
  function Verified(h: Hasher, indices: seq<U32>, lemmas: seq<Bytes>, txIndex: U32, tx: Bytes): set<Bytes>
    requires |indices| == 1
  {
    var leaf := LeafPreimage(h, txIndex, tx);
    {tx, leaf} + ClimbInputs(h, indices[0], h(leaf), lemmas)
  }

  /** No verified input collides with a built one, and none hashes to zero. */
  ghost predicate Apart(h: Hasher, verified: set<Bytes>, txs: seq<Bytes>)
    requires |txs| <= U32_MAX + 1
  {
    && (forall a, b | a in verified && Built(h, txs, b) && h(a) == h(b) :: a == b)
    && (forall a | a in verified :: h(a) != Zero())
  }

  function AncestorIndex(index: U32, k: nat): U32
    decreases k
  {
    if k == 0 then index else AncestorIndex(Parent(index), k - 1)
  }

  /** The last merge of a climb. */
  lemma {:induction false} ClimbLast(h: Hasher, index: U32, hash: Bytes, lemmas: seq<Bytes>)
    requires lemmas != []
    ensures var n := |lemmas| - 1;
      var last := MergeInput(AncestorIndex(index, n), Climb(h, index, hash, lemmas[..n]), lemmas[n]);
      && Climb(h, index, hash, lemmas) == h(last)
      && ClimbInputs(h, index, hash, lemmas) == ClimbInputs(h, index, hash, lemmas[..n]) + {last}
    decreases |lemmas|
  {
    var n := |lemmas| - 1;
    if n > 0 {
      ClimbLast(h, Parent(index), Merge(h, index, hash, lemmas[0]), lemmas[1..]);
      assert lemmas[1..][..n - 1] == lemmas[..n][1..];
    }
  }

  lemma {:induction false} ClimbWide(h: Hasher, index: U32, hash: Bytes, lemmas: seq<Bytes>)
    requires Wide(h) && |hash| == 32
    ensures |Climb(h, index, hash, lemmas)| == 32
    decreases |lemmas|
  {
    if lemmas != [] {
      ClimbWide(h, Parent(index), Merge(h, index, hash, lemmas[0]), lemmas[1..]);
    }
  }

  lemma NodeWide(h: Hasher, txs: seq<Bytes>, i: nat)
    requires Wide(h) && |txs| <= U32_MAX + 1 && i + 1 < 2 * |txs|
    ensures |Node(h, txs, i)| == 32 && Node(h, txs, i) == h(NodeInput(h, txs, i))
    ensures |NodeInput(h, txs, i)| == if IsLeaf(txs, i) then 36 else 64
    ensures Built(h, txs, NodeInput(h, txs, i))
  {
  }

  /** A climb that ends in a tree node started in a tree node. */
  lemma {:induction false} Descend(h: Hasher, txs: seq<Bytes>, top: nat, index: U32, hash: Bytes, lemmas: seq<Bytes>)
      returns (i: nat)
    requires Wide(h) && |txs| <= U32_MAX + 1 && top + 1 < 2 * |txs| && |hash| == 32
    requires forall k: nat | k < |lemmas| :: |lemmas[k]| == 32
    requires Climb(h, index, hash, lemmas) == Node(h, txs, top)
    requires Apart(h, ClimbInputs(h, index, hash, lemmas), txs)
    ensures i + 1 < 2 * |txs| && hash == Node(h, txs, i)
    decreases |lemmas|
  {
    if lemmas == [] {
      return top;
    }
    var n := |lemmas| - 1;
    var inner, up := Climb(h, index, hash, lemmas[..n]), AncestorIndex(index, n);
    ClimbLast(h, index, hash, lemmas);
    ClimbWide(h, index, hash, lemmas[..n]);
    NodeWide(h, txs, top);
    assert MergeInput(up, inner, lemmas[n]) == NodeInput(h, txs, top);
    NodeWide(h, txs, 2 * top + 1);
    if up % 2 == 1 {
      SplitPair(inner, lemmas[n], Node(h, txs, 2 * top + 1), Node(h, txs, 2 * top + 2));
    } else {
      SplitPair(lemmas[n], inner, Node(h, txs, 2 * top + 1), Node(h, txs, 2 * top + 2));
    }
    i := Descend(h, txs, if up % 2 == 1 then 2 * top + 1 else 2 * top + 2, index, hash, lemmas[..n]);
  }

  /** A climb ends in a hash of something it hashed. */
  lemma {:induction false} ClimbEnds(h: Hasher, index: U32, leaf: Bytes, lemmas: seq<Bytes>) returns (a: Bytes)
    ensures h(a) == Climb(h, index, h(leaf), lemmas)
    ensures a in {leaf} + ClimbInputs(h, index, h(leaf), lemmas)
    decreases |lemmas|
  {
    a := leaf;
    if lemmas != [] {
      a := ClimbEnds(h, Parent(index), MergeInput(index, h(leaf), lemmas[0]), lemmas[1..]);
    }
  }

  lemma SameLeaf(h: Hasher, i: U32, x: Bytes, j: U32, y: Bytes)
    requires LeafPreimage(h, i, x) == LeafPreimage(h, j, y)
    ensures i == j && h(x) == h(y)
  {
    SplitPair(LittleEndian(i), h(x), LittleEndian(j), h(y));
    LittleEndianInjective(i, j);
  }

  lemma TxBuilt(h: Hasher, txs: seq<Bytes>, j: nat)
    requires |txs| <= U32_MAX + 1 && j < |txs|
    ensures Built(h, txs, txs[j])
  {
  }

  /** Sound: whatever leaf position and however many lemmas a proof has, an accepted transaction is the
  one at its index under the witness root. */
  lemma ProofSound(h: Hasher, txs: seq<Bytes>, indices: seq<U32>, lemmas: seq<Bytes>, txIndex: U32, tx: Bytes)
    requires Wide(h) && |txs| <= U32_MAX + 1
    requires Accepted(h, indices, lemmas, WitnessRoot(h, txs), txIndex, tx)
    requires Apart(h, Verified(h, indices, lemmas, txIndex, tx), txs)
    ensures txIndex < |txs| && txs[txIndex] == tx
  {
    hide Climb, ClimbInputs, Node, Built;
    var leaf := LeafPreimage(h, txIndex, tx);
    if txs == [] {
      var a := ClimbEnds(h, indices[0], leaf, lemmas);
      assert false;
    }
    RootNode(h, txs);
    var i := Descend(h, txs, 0, indices[0], h(leaf), lemmas);
    NodeWide(h, txs, i);
    assert |leaf| == 36 by {
      assert |h(tx)| == 32;
    }
    assert leaf == NodeInput(h, txs, i);
    var j := i + 1 - |txs|;
    SameLeaf(h, txIndex, tx, j, txs[j]);
    TxBuilt(h, txs, j);
  }
}
