/** The store transaction the chain works on, column by column, and what it means for a store to
hold an abstract chain. */
module ChainStore {
  import opened RollupTypes
  import opened AbstractChain
  import opened Wrappers

  datatype RevertEntry = RevertEntry(prev: set<H256>, hashes: seq<H256>)

  /** `history[n]` is the account state before block `n` was attached. */
  datatype Db = Db(
    blocks: map<H256, Block>,
    badBlocks: map<H256, Block>,
    targets: map<H256, Target>,
    globalStates: map<H256, GlobalState>,
    index: map<nat, H256>,
    numbers: map<H256, nat>,
    blockTree: BlockTree,
    reverted: set<H256>,
    revertLog: map<set<H256>, RevertEntry>,
    tipHash: H256,
    lastValidHash: H256,
    accounts: MerkleState,
    history: map<nat, MerkleState>)
  {
    function InsertBadBlock(b: Block, gs: GlobalState): Db {
      this.(globalStates := globalStates[b.Hash() := gs],
            badBlocks := badBlocks[b.Hash() := b],
            blockTree := blockTree[b.number := b.Hash()],
            tipHash := b.Hash())
    }

    function DeleteBadBlock(h: H256): Db {
      this.(badBlocks := badBlocks - {h}, globalStates := globalStates - {h})
    }

    function RevertBadBlocks(bs: seq<Block>): Db {
      if bs == [] then this
      else this.(blockTree := blockTree - (set b | b in bs :: b.number),
                 reverted := reverted + HashSet(bs),
                 tipHash := bs[0].parent)
    }

    function LogReverted(prev: set<H256>, hashes: seq<H256>): Db {
      this.(revertLog := revertLog[reverted := RevertEntry(prev, hashes)])
    }

    function RewindReverted(hashes: seq<H256>): Db {
      this.(reverted := reverted - (set h | h in hashes))
    }

    function RewindBlock(b: Block): Db {
      this.(blockTree := blockTree - {b.number})
    }

    /** Insert and attach a block the generator accepted. */
    function AttachBlock(b: Block, gs: GlobalState): Db {
      this.(blocks := blocks[b.Hash() := b],
            globalStates := globalStates[b.Hash() := gs],
            index := index[b.number := b.Hash()],
            numbers := numbers[b.Hash() := b.number],
            blockTree := blockTree[b.number := b.Hash()],
            tipHash := b.Hash(),
            lastValidHash := b.Hash())
    }

    /** Detach the last valid block; the block itself stays in the block column. */
    function DetachBlock(b: Block): Db
      requires b.number > 0 && b.number - 1 in index
    {
      var parent := index[b.number - 1];
      this.(index := index - {b.number},
            numbers := numbers - {b.Hash()},
            blockTree := blockTree - {b.number},
            tipHash := parent,
            lastValidHash := parent)
    }

    function DetachState(n: nat): Db
      requires n in history
    {
      this.(accounts := history[n], history := history - {n})
    }

    /** The tip may be a bad block. */
    function TipBlock(): Option<Block> {
      if tipHash in blocks then Some(blocks[tipHash])
      else if tipHash in badBlocks then Some(badBlocks[tipHash])
      else None
    }
  }

  function NumbersOf(bs: seq<Block>): map<H256, nat> {
    map h | h in HashSet(bs) :: if h.BlockHash? then h.block.number else 0
  }

  function HistoryOf(bs: seq<Block>): map<nat, MerkleState> {
    map i: nat | 0 < i < |bs| :: bs[i].prev
  }

  ghost predicate Keyed(m: map<H256, Block>) {
    forall h | h in m :: h == m[h].Hash()
  }

  ghost predicate Holds(m: map<H256, Block>, bs: seq<Block>) {
    forall i: nat | i < |bs| :: bs[i].Hash() in m
  }

  ghost predicate NoneDoomed(judge: Judge, m: map<H256, Block>) {
    forall h | h in m :: !Doomed(judge, m[h])
  }

  ghost predicate AllDoomed(judge: Judge, m: map<H256, Block>) {
    forall h | h in m :: Doomed(judge, m[h])
  }

  ghost predicate KeepsStates(m: map<H256, GlobalState>, bs: seq<Block>, states: seq<GlobalState>) {
    |bs| == |states| && forall i: nat | i < |bs| :: bs[i].Hash() in m && m[bs[i].Hash()] == states[i]
  }

  /** The log says which hashes turned one reverted set into the next. */
  ghost predicate Entered(log: map<set<H256>, RevertEntry>, before: set<H256>, after: set<H256>) {
    after in log && (set h | h in log[after].hashes) == after - before
  }

  ghost predicate Logged(log: map<set<H256>, RevertEntry>, trail: seq<set<H256>>) {
    forall i: nat, j: nat | i + 1 == j < |trail| :: Entered(log, trail[i], trail[j])
  }

  /** The store holds exactly this chain. */
  ghost predicate Repr(judge: Judge, db: Db, v: View)
    requires v.valid != [] && v.trail != []
  {
    && db.index == TreeOf(v.valid)
    && db.numbers == NumbersOf(v.valid)
    && db.blockTree == TreeOf(v.All())
    && Keyed(db.blocks) && Holds(db.blocks, v.valid) && NoneDoomed(judge, db.blocks)
    && Keyed(db.badBlocks) && Holds(db.badBlocks, v.bad) && AllDoomed(judge, db.badBlocks)
    && KeepsStates(db.globalStates, v.valid, v.states)
    && db.targets == v.known
    && db.tipHash == v.Tip().Hash()
    && db.lastValidHash == Last(v.valid).Hash()
    && db.reverted == Last(v.trail)
    && Logged(db.revertLog, v.trail)
    && db.accounts == Last(v.valid).post
    && db.history == HistoryOf(v.valid)
  }

  // ---------- Store operations on a store that holds a chain ----------

  /** A bad block is stored with its global state, and deleting it takes both back. */
  lemma BadBlockStored(db: Db, b: Block, gs: GlobalState)
    requires b.Hash() !in db.badBlocks && b.Hash() !in db.globalStates
    ensures var e := db.InsertBadBlock(b, gs);
      && b.Hash() in e.badBlocks && e.badBlocks[b.Hash()] == b
      && b.Hash() in e.globalStates && e.globalStates[b.Hash()] == gs
      && e.DeleteBadBlock(b.Hash()).badBlocks == db.badBlocks
      && e.DeleteBadBlock(b.Hash()).globalStates == db.globalStates
  {
  }

  /** Bad blocks are never indexed by number. */
  lemma BadNotIndexed(judge: Judge, db: Db, v: View)
    requires WellFormed(judge, v) && Repr(judge, db, v) && v.bad != []
    ensures v.bad[0].Hash() !in db.numbers
  {
    assert v.bad[0] == v.All()[|v.valid|];
    forall b | b in v.valid
      ensures b != v.bad[0]
    {
      var i: nat :| i < |v.valid| && v.valid[i] == b;
      assert v.All()[i].number == i;
    }
  }

  lemma BadIsDoomed(judge: Judge, v: View, k: nat)
    requires WellFormed(judge, v) && k < |v.bad|
    ensures Doomed(judge, v.bad[k])
  {
    if k > 0 {
      BadIsDoomed(judge, v, k - 1);
      assert v.bad[k] == v.All()[|v.valid| + k];
      assert v.bad[k - 1] == v.All()[|v.valid| + k - 1];
    }
  }

  lemma KeepsStatesOver(m: map<H256, GlobalState>, bs: seq<Block>, states: seq<GlobalState>, b: Block, gs: GlobalState)
    requires KeepsStates(m, bs, states) && Linked(bs) && b.number >= |bs|
    ensures KeepsStates(m[b.Hash() := gs], bs, states)
    ensures KeepsStates(m - {b.Hash()}, bs, states)
  {
  }

  lemma ValidLinked(v: View)
    requires Linked(v.All())
    ensures Linked(v.valid)
  {
    assert forall i: nat | i < |v.valid| :: v.valid[i] == v.All()[i];
  }

  lemma InsertBadKeeps(judge: Judge, db: Db, v: View, w: View, b: Block, gs: GlobalState)
    requires v.valid != [] && v.trail != [] && Linked(v.All()) && Repr(judge, db, v)
    requires w == v.(bad := v.bad + [b], target := w.target, last := gs)
    requires b.number == |v.All()| && Doomed(judge, b)
    ensures Repr(judge, db.InsertBadBlock(b, gs), w)
  {
    var e := db.InsertBadBlock(b, gs);
    assert e.blockTree == TreeOf(w.All()) by {
      TreeAppend(v.All(), b);
      assert w.All() == v.All() + [b];
    }
    assert KeepsStates(e.globalStates, w.valid, w.states) by {
      ValidLinked(v);
      KeepsStatesOver(db.globalStates, v.valid, v.states, b, gs);
    }
    HoldsAppend(judge, db.badBlocks, v.bad, b);
  }

  lemma NumbersAppend(bs: seq<Block>, b: Block)
    ensures NumbersOf(bs + [b]) == NumbersOf(bs)[b.Hash() := b.number]
  {
    assert forall x :: x in bs + [b] <==> x in bs || x == b;
    assert HashSet(bs + [b]) == HashSet(bs) + {b.Hash()};
  }

  lemma HoldsAppend(judge: Judge, m: map<H256, Block>, bs: seq<Block>, b: Block)
    requires Keyed(m) && Holds(m, bs)
    ensures Keyed(m[b.Hash() := b]) && Holds(m[b.Hash() := b], bs + [b])
    ensures NoneDoomed(judge, m) && !Doomed(judge, b) ==> NoneDoomed(judge, m[b.Hash() := b])
    ensures AllDoomed(judge, m) && Doomed(judge, b) ==> AllDoomed(judge, m[b.Hash() := b])
  {
  }

  lemma KeepsStatesAppend(m: map<H256, GlobalState>, bs: seq<Block>, states: seq<GlobalState>, b: Block,
                          gs: GlobalState)
    requires KeepsStates(m, bs, states) && Linked(bs) && b.number == |bs|
    ensures KeepsStates(m[b.Hash() := gs], bs + [b], states + [gs])
  {
    KeepsStatesOver(m, bs, states, b, gs);
  }

  lemma HistoryAppend(bs: seq<Block>, b: Block)
    requires b.number == |bs| && bs != []
    ensures HistoryOf(bs + [b]) == HistoryOf(bs)[b.number := b.prev]
  {
  }

  lemma AttachKeeps(judge: Judge, db: Db, v: View, b: Block, gs: GlobalState)
    requires v.valid != [] && v.trail != [] && Linked(v.valid) && Repr(judge, db, v)
    requires |v.states| == |v.valid| && v.bad == []
    requires b.number == |v.valid| && b.prev == Last(v.valid).post && !Doomed(judge, b)
    ensures Repr(judge,
                 db.AttachBlock(b, gs).(accounts := b.post, history := db.history[b.number := db.accounts]),
                 AppendValid(v, gs, b))
  {
    var w := AppendValid(v, gs, b);
    assert v.All() == v.valid && w.All() == w.valid;
    TreeAppend(v.valid, b);
    NumbersAppend(v.valid, b);
    HoldsAppend(judge, db.blocks, v.valid, b);
    KeepsStatesAppend(db.globalStates, v.valid, v.states, b, gs);
    HistoryAppend(v.valid, b);
    assert w.Tip() == b;
  }

  lemma LogKeeps(log: map<set<H256>, RevertEntry>, trail: seq<set<H256>>, hashes: seq<H256>, prev: set<H256>)
    requires Ascending(trail) && Logged(log, trail) && prev == Last(trail)
    requires hashes != [] && (set h | h in hashes) !! prev
    ensures var next := prev + (set h | h in hashes);
      && Ascending(trail + [next])
      && Logged(log[next := RevertEntry(prev, hashes)], trail + [next])
  {
    var next := prev + (set h | h in hashes);
    assert hashes[0] in next - prev;
    assert prev < next;
    assert next - prev == (set h | h in hashes);
    var log', trail' := log[next := RevertEntry(prev, hashes)], trail + [next];
    forall i: nat, j: nat | i + 1 == j < |trail'|
      ensures Entered(log', trail'[i], trail'[j])
    {
      if j < |trail| {
        assert Entered(log, trail[i], trail[j]);
      }
    }
  }

  function Hashes(bs: seq<Block>): seq<H256> {
    seq(|bs|, i requires 0 <= i < |bs| => bs[i].Hash())
  }

  lemma HashesAreSet(bs: seq<Block>)
    ensures (set h | h in Hashes(bs)) == HashSet(bs)
  {
    forall b | b in bs
      ensures b.Hash() in Hashes(bs)
    {
      var i: nat :| i < |bs| && bs[i] == b;
      assert Hashes(bs)[i] == b.Hash();
    }
  }

  /** Dropping the bad run from position `k` on and logging its hashes. */
  lemma RevertKeepsRepr(judge: Judge, db: Db, v: View, w: View, k: nat)
    requires v.valid != [] && v.trail != [] && Ascending(v.trail) && Linked(v.All()) && Repr(judge, db, v)
    requires k < |v.bad| && HashSet(v.bad[k..]) !! Last(v.trail)
    requires w == v.(bad := v.bad[..k], trail := v.trail + [Last(v.trail) + HashSet(v.bad[k..])],
                     target := w.target, last := w.last)
    ensures Repr(judge, db.RevertBadBlocks(v.bad[k..]).LogReverted(db.reverted, Hashes(v.bad[k..])), w)
  {
    hide Keyed, Holds, NoneDoomed, AllDoomed, KeepsStates, Logged, Ascending, Hashes, NumbersOf, HistoryOf;
    var bs, all, m := v.bad[k..], v.All(), |v.valid| + k;
    assert all[m..] == bs && w.All() == all[..m];
    TreeMinus(all, m);
    assert bs[0] == all[m];
    assert w.Tip() == all[m - 1];
    HashesAreSet(bs);
    assert Hashes(bs) != [] by {
      HashesLength(bs);
    }
    LogKeeps(db.revertLog, v.trail, Hashes(bs), Last(v.trail));
    HoldsPrefix(db.badBlocks, v.bad, k);
  }

  lemma HashesLength(bs: seq<Block>)
    ensures |Hashes(bs)| == |bs|
  {
  }

  lemma HoldsPrefix(m: map<H256, Block>, bs: seq<Block>, k: nat)
    requires Holds(m, bs) && k <= |bs|
    ensures Holds(m, bs[..k])
  {
  }

  lemma TakenBack(log: map<set<H256>, RevertEntry>, trail: seq<set<H256>>)
    requires Ascending(trail) && Logged(log, trail) && |trail| > 1
    ensures Last(trail) in log
    ensures Last(trail) - (set h | h in log[Last(trail)].hashes) == Last(Init(trail))
    ensures Ascending(Init(trail)) && Logged(log, Init(trail))
  {
    var n := |trail| - 1;
    assert trail[n - 1] < trail[n];
    assert Entered(log, trail[n - 1], trail[n]);
  }

  lemma RemoveAdded<K, V>(m: map<K, V>, k: K, v: V)
    requires k !in m
    ensures m[k := v] - {k} == m
  {
  }

  lemma TreeInit(bs: seq<Block>)
    requires Linked(bs) && bs != []
    ensures TreeOf(bs) - {Last(bs).number} == TreeOf(Init(bs))
  {
    assert bs == Init(bs) + [Last(bs)];
    TreeAppend(Init(bs), Last(bs));
    RemoveAdded(TreeOf(Init(bs)), Last(bs).number, Last(bs).Hash());
  }

  lemma NumbersInit(bs: seq<Block>)
    requires Linked(bs) && bs != []
    ensures NumbersOf(bs) - {Last(bs).Hash()} == NumbersOf(Init(bs))
  {
    var b := Last(bs);
    assert bs == Init(bs) + [b];
    NumbersAppend(Init(bs), b);
    assert b.Hash() !in NumbersOf(Init(bs));
    RemoveAdded(NumbersOf(Init(bs)), b.Hash(), b.number);
  }

  lemma HistoryInit(bs: seq<Block>)
    requires Linked(bs) && |bs| > 1
    ensures HistoryOf(bs) - {Last(bs).number} == HistoryOf(Init(bs))
  {
    assert bs == Init(bs) + [Last(bs)];
    HistoryAppend(Init(bs), Last(bs));
    RemoveAdded(HistoryOf(Init(bs)), Last(bs).number, Last(bs).prev);
  }

  lemma HoldsInit(m: map<H256, Block>, all: seq<Block>, n: nat)
    requires Keyed(m) && Linked(all) && n < |all| && Holds(m, all[n..])
    ensures Holds(m - {Last(all).Hash()}, Init(all)[n..])
    ensures m[Last(all).Hash()] == Last(all)
  {
    assert all[n..][|all| - 1 - n] == Last(all);
    forall i: nat | i < |Init(all)[n..]|
      ensures Init(all)[n..][i].Hash() in m - {Last(all).Hash()}
    {
      assert Init(all)[n..][i] == all[n..][i] == all[n + i];
    }
  }

  /** Removing the last bad block from the store; the tip pointer is set afterwards. */
  lemma PopBadKeeps(judge: Judge, db: Db, v: View)
    requires v.valid != [] && v.trail != [] && Linked(v.All()) && v.bad != []
    requires Repr(judge, db.(tipHash := v.Tip().Hash()), v)
    ensures var b, w := Last(v.bad), v.(bad := Init(v.bad), known := v.known - {Last(v.bad).Hash()});
      && b.Hash() in db.badBlocks && db.badBlocks[b.Hash()] == b
      && b.parent == w.Tip().Hash()
      && Linked(w.All())
      && Repr(judge,
              db.DeleteBadBlock(b.Hash()).RewindBlock(b)
                .(targets := db.targets - {b.Hash()}, tipHash := w.Tip().Hash()), w)
  {
    var b, w := Last(v.bad), v.(bad := Init(v.bad), known := v.known - {Last(v.bad).Hash()});
    var all, n := v.All(), |v.valid|;
    assert b == Last(all) && w.All() == Init(all) && w.Tip() == all[|all| - 2];
    assert all[n..] == v.bad && Init(all)[n..] == w.bad;
    TreeInit(all);
    HoldsInit(db.badBlocks, all, n);
    ValidLinked(v);
    KeepsStatesOver(db.globalStates, v.valid, v.states, b, v.last);
  }

  lemma KeptInit(blocks: map<H256, Block>, m: map<H256, GlobalState>, bs: seq<Block>, states: seq<GlobalState>)
    requires bs != [] && Holds(blocks, bs) && KeepsStates(m, bs, states)
    ensures Holds(blocks, Init(bs)) && KeepsStates(m, Init(bs), Init(states))
  {
  }

  lemma DetachPointers(db: Db, bs: seq<Block>)
    requires Linked(bs) && |bs| > 1 && db.index == TreeOf(bs) && db.history == HistoryOf(bs)
    ensures var b := Last(bs);
      && b.number > 0 && b.number - 1 in db.index && b.number in db.history
      && db.index[b.number - 1] == Last(Init(bs)).Hash()
      && db.history[b.number] == b.prev
  {
  }

  /** Detaching the last valid block and its account state. */
  lemma DetachKeeps(judge: Judge, db: Db, v: View, w: View)
    requires v.trail != [] && |v.valid| > 1 && |v.states| == |v.valid| && v.marks != []
    requires Linked(v.valid) && v.bad == [] && Last(v.valid).prev == v.valid[|v.valid| - 2].post
    requires Repr(judge, db, v)
    requires w == v.(valid := Init(v.valid), states := Init(v.states), marks := Init(v.marks),
                     target := w.target, last := w.last)
    requires Last(v.valid).number > 0 && Last(v.valid).number - 1 in db.index && Last(v.valid).number in db.history
    ensures Repr(judge, db.DetachBlock(Last(v.valid)).DetachState(Last(v.valid).number), w)
  {
    hide Linked, Keyed, Holds, NoneDoomed, AllDoomed, KeepsStates, Logged;
    var e := db.DetachBlock(Last(v.valid)).DetachState(Last(v.valid).number);
    DetachPointers(db, v.valid);
    assert e.index == TreeOf(w.valid) == e.blockTree by {
      TreeInit(v.valid);
      assert v.All() == v.valid;
    }
    assert e.numbers == NumbersOf(w.valid) by {
      NumbersInit(v.valid);
    }
    assert e.history == HistoryOf(w.valid) by {
      HistoryInit(v.valid);
    }
    KeptInit(db.blocks, db.globalStates, v.valid, v.states);
    assert w.All() == w.valid;
  }

  /** Revert bad blocks and log it, then take back what the log says: the reverted set is the one before
  exactly when none of the blocks was in it already. */
  lemma RewindRestoresExactly(db: Db, bs: seq<Block>)
    ensures var e := db.RevertBadBlocks(bs).LogReverted(db.reverted, Hashes(bs));
      && e.reverted in e.revertLog && e.revertLog[e.reverted].prev == db.reverted
      && (e.RewindReverted(e.revertLog[e.reverted].hashes).reverted == db.reverted <==>
            HashSet(bs) !! db.reverted)
  {
    var before, hashes := db.reverted, HashSet(bs);
    HashesAreSet(bs);
    if hashes !! before {
      assert (before + hashes) - hashes == before;
    } else {
      var h :| h in before && h in hashes;
      assert h !in (before + hashes) - hashes;
    }
  }
}
