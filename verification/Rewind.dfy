/** The two store loops that take a chain back to its last valid block: one over the log of reverted
sets, one over the bad run. */
module ChainRewind {
  import opened RollupTypes
  import opened AbstractChain
  import opened ChainStore
  import opened Wrappers

  /** Follow the revert log until `root` is the current reverted set; the genesis set ends the search. */
  method RewindRevertedTree(db: Db, root: set<H256>, genesisRoot: set<H256>, ghost trail: seq<set<H256>>)
      returns (ok: bool, after: Db)
    requires Ascending(trail) && Logged(db.revertLog, trail)
    requires db.reverted == Last(trail) && genesisRoot == trail[0]
    ensures ok <==> CutTrail(trail, root).Some?
    ensures after == db.(reverted := after.reverted)
    ensures ok ==> after.reverted == root
  {
    after := db;
    ghost var k: nat := |trail| - 1;
    assert trail[..k + 1] == trail;
    while after.reverted != root && after.reverted != genesisRoot
      invariant k < |trail| && after == db.(reverted := trail[k])
      invariant CutTrail(trail[..k + 1], root) == CutTrail(trail, root)
      decreases k
    {
      ghost var cut := trail[..k + 1];
      assert Last(cut) == trail[k] && Init(cut) == trail[..k];
      LogPrefix(db.revertLog, trail, k + 1);
      TakenBack(db.revertLog, cut);
      after := after.RewindReverted(after.revertLog[after.reverted].hashes);
      k := k - 1;
    }
    ok := after.reverted == root;
    assert Last(trail[..k + 1]) == trail[k];
    assert after.reverted == genesisRoot ==> k == 0 by {
      assert k > 0 ==> trail[0] < trail[k];
    }
  }

  lemma LogPrefix(log: map<set<H256>, RevertEntry>, trail: seq<set<H256>>, n: nat)
    requires Ascending(trail) && Logged(log, trail) && 0 < n <= |trail|
    ensures Ascending(trail[..n]) && Logged(log, trail[..n])
  {
    forall i: nat, j: nat | i + 1 == j < |trail[..n]|
      ensures Entered(log, trail[..n][i], trail[..n][j])
    {
      assert Entered(log, trail[i], trail[j]);
    }
  }

  /** The bad run without the blocks from position `i` on, and without their remembered targets. */
  function Popped(v: View, i: nat): View
    requires i <= |v.bad|
  {
    v.(bad := v.bad[..i], known := v.known - HashSet(v.bad[i..]))
  }

  lemma PopOne(v: View, i: nat)
    requires 0 < i <= |v.bad|
    ensures var u := Popped(v, i);
      && Last(u.bad) == v.bad[i - 1]
      && u.(bad := Init(u.bad), known := u.known - {Last(u.bad).Hash()}) == Popped(v, i - 1)
  {
    assert v.bad[i - 1..] == [v.bad[i - 1]] + v.bad[i..];
    assert HashSet(v.bad[i - 1..]) == {v.bad[i - 1].Hash()} + HashSet(v.bad[i..]);
    assert Init(v.bad[..i]) == v.bad[..i - 1];
    var h := v.bad[i - 1].Hash();
    assert v.known - HashSet(v.bad[i..]) - {h} == v.known - HashSet(v.bad[i - 1..]);
  }

  lemma NothingPopped(v: View)
    ensures Popped(v, |v.bad|) == v
  {
    assert v.bad[..|v.bad|] == v.bad && v.bad[|v.bad|..] == [];
    assert v.known - HashSet([]) == v.known;
  }

  /** A chain's blocks differ in number, so only an empty bad run has the last valid block as its tip. */
  lemma TipIsValid(v: View)
    requires v.valid != [] && Linked(v.All())
    ensures v.Tip() == Last(v.valid) <==> v.bad == []
    ensures v.bad != [] ==> v.Tip().number > 0
  {
    assert v.Tip() == Last(v.All());
    assert Last(v.valid) == v.All()[|v.valid| - 1];
  }

  /** Delete the bad run from its tip down, along the parent hashes. */
  method RewindBadBlocks(db: Db, tip: H256, genesis: H256, ghost judge: Judge, ghost v: View) returns (after: Db)
    requires v.valid != [] && v.trail != [] && Linked(v.All()) && Repr(judge, db, v)
    requires tip == v.Tip().Hash() && genesis == v.valid[0].Hash()
    ensures Repr(judge, after, Popped(v, 0))
  {
    hide Repr, Linked;
    var current, last := tip, db.lastValidHash;
    after := db;
    ghost var i: nat, u := |v.bad|, v;
    NothingPopped(v);
    ReprTip(judge, db, v);
    TipIsValid(v);
    GenesisIsFirst(v);
    while current != last && current != genesis
      invariant i <= |v.bad| && u == Popped(v, i)
      invariant Linked(u.All()) && Repr(judge, after.(tipHash := u.Tip().Hash()), u)
      invariant current == u.Tip().Hash()
      invariant u.Tip() == Last(u.valid) <==> u.bad == []
      invariant u.bad != [] ==> u.Tip().number > 0
      decreases i
    {
      PopOne(v, i);
      PopBadKeeps(judge, after, u);
      var b := after.badBlocks[current];
      after := after.DeleteBadBlock(current).RewindBlock(b).(targets := after.targets - {current});
      current := b.parent;
      i, u := i - 1, Popped(v, i - 1);
      TipIsValid(u);
    }
    assert i == |u.bad| == 0;
    after := after.(tipHash := last);
  }

  lemma ReprTip(judge: Judge, db: Db, v: View)
    requires v.valid != [] && v.trail != [] && Repr(judge, db, v)
    ensures db.(tipHash := v.Tip().Hash()) == db
    ensures db.lastValidHash == Last(v.valid).Hash()
  {
  }

  lemma GenesisIsFirst(v: View)
    requires v.valid != [] && Linked(v.All())
    ensures v.valid[0].number == 0
  {
    assert v.valid[0] == v.All()[0];
  }
}
