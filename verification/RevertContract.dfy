/** The revert check of the rollup type script on L1.  Sparse Merkle proofs are lookups in the map the
root stands for. */
module RevertContract {
  import opened RollupTypes
  import opened AbstractChain
  import opened Wrappers

  const MAX_REVERTED_BLOCKS := 128

  ghost predicate Successive(bs: seq<Block>) {
    forall i: nat, j: nat | i + 1 == j < |bs| :: bs[j].number == bs[i].number + 1
  }

  /** What the continuity loop lets through: the second block must name the first as its parent, and
  every later block must name the parent of the block before it. */
  ghost predicate Continuous(bs: seq<Block>) {
    && Successive(bs)
    && (|bs| > 1 ==> bs[1].parent == bs[0].Hash())
    && (forall i: nat, j: nat | 0 < i && i + 1 == j < |bs| :: bs[j].parent == bs[i].parent)
  }

  method CheckContinuity(bs: seq<Block>) returns (ok: bool)
    requires bs != []
    ensures ok <==> Continuous(bs)
  {
    var prevHash, prevNumber := bs[0].Hash(), bs[0].number;
    for i := 1 to |bs|
      invariant prevHash == if i == 1 then bs[0].Hash() else bs[i - 1].parent
      invariant prevNumber == bs[i - 1].number
      invariant forall m: nat, n: nat | m + 1 == n < i :: bs[n].number == bs[m].number + 1
      invariant i > 1 ==> bs[1].parent == bs[0].Hash()
      invariant forall m: nat, n: nat | 0 < m && m + 1 == n < i :: bs[n].parent == bs[m].parent
    {
      var hash := bs[i].parent;
      if hash != prevHash {
        return false;
      }
      if bs[i].number != prevNumber + 1 {
        return false;
      }
      prevHash, prevNumber := hash, bs[i].number;
    }
    return true;
  }

  /** Every block is in the tree under its own number. */
  predicate InTree(tree: BlockTree, bs: seq<Block>) {
    forall b | b in bs :: b.number in tree && tree[b.number] == b.Hash()
  }

  /** The global state the script expects after the revert. */
  method CheckRevertedBlocks(bs: seq<Block>, newTip: Block, prev: GlobalState, post: GlobalState)
      returns (r: Option<GlobalState>)
    ensures r.Some? <==> Accepts(bs, newTip, prev, post)
    ensures r.Some? ==> r.value == RevertedState(prev, bs)
  {
    if bs == [] || |bs| > MAX_REVERTED_BLOCKS {
      return None;
    }
    var ok := CheckContinuity(bs);
    if !ok || Last(bs).number + 1 != prev.count {
      return None;
    }
    if !InTree(prev.blocks, bs) || !(HashSet(bs) !! prev.reverted) || post.reverted != prev.reverted + HashSet(bs) {
      return None;
    }
    if newTip.Hash() != bs[0].parent {
      return None;
    }
    var blocks := prev.blocks - (set b | b in bs :: b.number);
    r := Some(prev.(account := bs[0].prev, blocks := blocks, count := bs[0].number, tip := bs[0].parent,
                    reverted := post.reverted, status := Running));
  }

  ghost predicate Accepts(bs: seq<Block>, newTip: Block, prev: GlobalState, post: GlobalState) {
    && 0 < |bs| <= MAX_REVERTED_BLOCKS
    && Continuous(bs)
    && Last(bs).number + 1 == prev.count
    && InTree(prev.blocks, bs)
    && HashSet(bs) !! prev.reverted
    && post.reverted == prev.reverted + HashSet(bs)
    && newTip.Hash() == bs[0].parent
  }

  /** In a linked chain the loop accepts an end of the chain exactly when it is at most two blocks
  long: hashes are acyclic, so two blocks in a row never share a parent. */
  lemma ContinuousExactly(all: seq<Block>, k: nat)
    requires Linked(all) && k < |all|
    ensures Continuous(all[k..]) <==> |all| - k <= 2
  {
    var bs := all[k..];
    if |bs| > 2 {
      assert bs[2] == all[k + 2] && bs[1] == all[k + 1] && bs[0] == all[k];
      assert all[k + 2].parent == all[k + 1].Hash() && all[k + 1].parent == all[k].Hash();
      assert all[k + 1].number != all[k].number;
      assert bs[2].parent != bs[1].parent;
    } else {
      forall i: nat, j: nat | i + 1 == j < |bs|
        ensures bs[j].number == bs[i].number + 1 && bs[j].parent == bs[i].Hash()
      {
        assert bs[i] == all[k + i] && bs[j] == all[k + j];
      }
    }
  }

  lemma {:induction false} NumbersGrow(bs: seq<Block>, i: nat, j: nat)
    requires i <= j < |bs| && Successive(bs)
    ensures bs[j].number == bs[i].number + j - i
  {
    if i < j {
      NumbersGrow(bs, i, j - 1);
    }
  }

  /** Blocks with successive numbers that are in the tree and end at its tip are the end of the chain. */
  lemma EndOfChain(all: seq<Block>, bs: seq<Block>)
    requires bs != [] && InTree(TreeOf(all), bs) && Last(bs).number + 1 == |all| && Successive(bs)
    ensures |bs| <= |all| && bs == all[|all| - |bs|..]
  {
    hide Successive;
    NumbersGrow(bs, 0, |bs| - 1);
    forall i: nat | i < |bs|
      ensures bs[i] == all[|all| - |bs| + i]
    {
      NumbersGrow(bs, i, |bs| - 1);
      assert bs[i] in bs;
    }
  }

  lemma EndInTree(all: seq<Block>, k: nat)
    requires Linked(all) && k < |all|
    ensures InTree(TreeOf(all), all[k..]) && Last(all[k..]).number + 1 == |all|
  {
    forall b | b in all[k..]
      ensures b.number in TreeOf(all) && TreeOf(all)[b.number] == b.Hash()
    {
      var i: nat :| i < |all[k..]| && all[k..][i] == b;
      assert b == all[k + i];
    }
  }

  /** What the L1 check accepts for a rollup cell that mirrors a chain: the last block, or the last two,
  with the block before them as the new tip and none of them reverted before. */
  lemma AcceptsExactly(all: seq<Block>, bs: seq<Block>, newTip: Block, prev: GlobalState, post: GlobalState)
    requires Linked(all) && prev.blocks == TreeOf(all) && prev.count == |all|
    ensures Accepts(bs, newTip, prev, post) <==>
      && 0 < |bs| <= 2 && |bs| <= |all| && bs == all[|all| - |bs|..]
      && HashSet(bs) !! prev.reverted
      && post.reverted == prev.reverted + HashSet(bs)
      && newTip.Hash() == bs[0].parent
  {
    hide Continuous, Linked, InTree, TreeOf;
    if Accepts(bs, newTip, prev, post) {
      assert Successive(bs) by {
        ContinuousParts(bs);
      }
      EndOfChain(all, bs);
      ContinuousExactly(all, |all| - |bs|);
    } else if 0 < |bs| <= 2 && |bs| <= |all| && bs == all[|all| - |bs|..] {
      ContinuousExactly(all, |all| - |bs|);
      EndInTree(all, |all| - |bs|);
    }
  }

  lemma ContinuousParts(bs: seq<Block>)
    requires Continuous(bs)
    ensures Successive(bs)
  {
  }

  /** The revert a node builds for its bad run is accepted on L1 exactly when the run has at most two
  blocks. */
  lemma BuiltRevertAccepted(judge: Judge, v: View)
    requires WellFormed(judge, v) && Mirrors(v) && v.bad != [] && v.last.count == |v.All()|
    requires HashSet(v.bad) !! v.last.reverted
    ensures Accepts(v.bad, Last(v.valid), v.last, RevertedState(v.last, v.bad)) <==> |v.bad| <= 2
  {
    var all := v.All();
    assert all[|all| - |v.bad|..] == v.bad;
    assert v.bad[0] == all[|v.valid|] && Last(v.valid) == all[|v.valid| - 1];
    AcceptsExactly(all, v.bad, Last(v.valid), v.last, RevertedState(v.last, v.bad));
  }

  /** The generator challenges every block but the first. */
  function OnlyGenesis(b: Block): Verdict {
    if b.number == 0 then Accepted(b.post) else Challenged(0, TxExecution, b.post)
  }

  /** Three bad blocks on top of the genesis block. */
  function ThreeBad(): View {
    var m := MerkleState(0, 0);
    var b0 := Block(0, ZeroHash, m, m, 0);
    var b1 := Block(1, b0.Hash(), m, m, 0);
    var b2 := Block(2, b1.Hash(), m, m, 0);
    var b3 := Block(3, b2.Hash(), m, m, 0);
    var start := GlobalState(Running, b0.Hash(), map[], 1, {}, m, 0);
    var last := GlobalState(Halting, b3.Hash(), TreeOf([b0, b1, b2, b3]), 4, {}, m, 0);
    View([b0], [start], [0], [b1, b2, b3], [{}], Some(Target(b1.Hash(), 0, TxExecution)), map[], last)
  }

  lemma ThreeBadWellFormed()
    ensures WellFormed(OnlyGenesis, ThreeBad()) && Mirrors(ThreeBad()) && |ThreeBad().bad| == 3
    ensures ThreeBad().last.count == |ThreeBad().All()| && ThreeBad().last.reverted == {}
  {
    hide TreeOf;
    var v := ThreeBad();
    assert v.All() == [v.valid[0], v.bad[0], v.bad[1], v.bad[2]];
    assert !Doomed(OnlyGenesis, v.valid[0]);
  }

  /** The revert the node builds for a run of three bad blocks is refused. */
  lemma ThreeBadRefused()
    ensures var v := ThreeBad();
      && WellFormed(OnlyGenesis, v) && Mirrors(v) && v.bad != [] && v.valid != []
      && !Accepts(v.bad, Last(v.valid), v.last, RevertedState(v.last, v.bad))
  {
    hide WellFormed, Mirrors, Accepts, RevertedState;
    ThreeBadWellFormed();
    BuiltRevertAccepted(OnlyGenesis, ThreeBad());
  }
}
