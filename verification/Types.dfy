/** Values shared by the rollup chain models.

Hashes are ideal: `BlockHash` is a constructor, so two blocks with one hash are one block and no
block hash is zero.  A sparse Merkle tree is the map it holds, so its root is that map. */
module RollupTypes {

  import opened Wrappers

  /** Account tree root and account count. */
  datatype MerkleState = MerkleState(root: nat, count: nat)

  datatype H256 = ZeroHash | OtherHash(id: nat) | BlockHash(block: Block)

  /** A layer-2 block; `body` stands for everything the chain machine does not look at. */
  datatype Block = Block(number: nat, parent: H256, prev: MerkleState, post: MerkleState, body: nat) {
    function Hash(): H256 {
      BlockHash(this)
    }
  }

  /** Sparse Merkle tree of all submitted blocks: number to hash; absent means zero. */
  type BlockTree = map<nat, H256>

  datatype Status = Running | Halting

  datatype GlobalState = GlobalState(
    status: Status,
    tip: H256,
    blocks: BlockTree,
    count: nat,
    reverted: set<H256>,
    account: MerkleState,
    rest: nat)

  datatype TargetKind = TxExecution | TxSignature | Withdrawal

  datatype Target = Target(block: H256, index: nat, kind: TargetKind)

  /** What the generator says about a block whose previous state is the current one; `post` and
  `dirty` are the account state it leaves in the open store transaction. */
  datatype Verdict =
    | Accepted(post: MerkleState)
    | Challenged(index: nat, kind: TargetKind, dirty: MerkleState)
    | Rejected(dirty: MerkleState)

  type Judge = Block -> Verdict

  function Last<T>(s: seq<T>): T
    requires s != []
  {
    s[|s| - 1]
  }

  function Init<T>(s: seq<T>): seq<T>
    requires s != []
  {
    s[..|s| - 1]
  }

  /** The block tree that holds exactly a list of blocks numbered from zero. */
  function TreeOf(bs: seq<Block>): BlockTree {
    map i: nat | i < |bs| :: bs[i].Hash()
  }

  function HashSet(bs: seq<Block>): set<H256> {
    set b | b in bs :: b.Hash()
  }

  /** Numbered from zero without gaps, each block naming the one before it as its parent. */
  ghost predicate Linked(bs: seq<Block>) {
    && (forall i: nat | i < |bs| :: bs[i].number == i)
    && (forall i: nat, j: nat | i + 1 == j < |bs| :: bs[j].parent == bs[i].Hash())
  }

  lemma LinkedAppend(bs: seq<Block>, b: Block)
    requires Linked(bs) && bs != []
    requires b.number == |bs| && b.parent == Last(bs).Hash()
    ensures Linked(bs + [b])
  {
  }

  lemma LinkedPrefix(bs: seq<Block>, n: nat)
    requires Linked(bs) && n <= |bs|
    ensures Linked(bs[..n])
  {
  }

  /** The number of a block and its hash, as store pointers keep them. */
  datatype NumberHash = NumberHash(number: nat, hash: H256)

  function At(chain: seq<Block>, n: nat): NumberHash
    requires n < |chain|
  {
    NumberHash(n, chain[n].Hash())
  }

  /** Number and hash belong to a block of the chain. */
  predicate OnChain(chain: seq<Block>, nh: NumberHash) {
    nh.number < |chain| && nh == At(chain, nh.number)
  }

  /** Where a pointer stands after the chain was cut back to block `n`. */
  function Lowered(chain: seq<Block>, nh: NumberHash, n: nat): NumberHash
    requires n < |chain|
  {
    if nh.number > n then At(chain, n) else nh
  }

  /** The block, or one of its ancestors, draws a challenge. */
  ghost predicate Doomed(judge: Judge, b: Block)
    decreases b
  {
    judge(b).Challenged? || (b.parent.BlockHash? && Doomed(judge, b.parent.block))
  }
}
