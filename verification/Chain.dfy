/** The node's chain component: in-memory fields over a store transaction, updated in place by L1
actions.  Every method refines the list machine of module `AbstractChain`. */
module ChainNode {
  import opened RollupTypes
  import opened AbstractChain
  import opened ChainRewind
  import opened ChainStore
  import opened Wrappers

  datatype Outcome = Done | Failed | Panicked

  /** What a step of the list machine asks of the node: the same answer, and on success the same
  chain; an error leaves the chain alone. */
  ghost predicate Follows(r: Outcome, step: StepResult, before: View, after: View, event: Event) {
    match step
    case Ok(view, e) => r == Done && after == view && event == e
    case Err => r == Failed && after == before
    case Panic => r == Panicked
  }

  /** The bad run from block `start` to the tip. */
  function Packaged(v: View, start: H256): Option<seq<Block>> {
    if start.BlockHash? && BadIndex(v, start.block).Some?
    then Some(v.bad[BadIndex(v, start.block).value..])
    else None
  }

  /** Walk from the tip through the bad-block column while numbers are not below the start block. */
  method PackageBadBlocks(db: Db, start: H256, ghost judge: Judge, ghost v: View) returns (r: Option<seq<Block>>)
    requires WellFormed(judge, v) && Repr(judge, db, v)
    ensures r == Packaged(v, start)
  {
    hide WellFormed, Repr, Packaged;
    NumberedBad(judge, v);
    ValidNotBad(judge, db, v);
    BadColumn(judge, db, v);
    if start !in db.badBlocks {
      NotPackaged(judge, db, v, start);
      return None;
    }
    var startNumber := db.badBlocks[start].number;
    var blocks := [];
    var current := if db.tipHash in db.badBlocks then Some(db.badBlocks[db.tipHash]) else None;
    ghost var i: nat := |v.bad|;
    while current.Some? && current.value.number >= startNumber
      invariant i <= |v.bad|
      invariant blocks == v.bad[i..]
      invariant i < |v.bad| ==> v.bad[i].number >= startNumber
      invariant current == if i > 0 then Some(v.bad[i - 1]) else None
      decreases i
    {
      var b := current.value;
      blocks := [b] + blocks;
      assert blocks == v.bad[i - 1..];
      BadLinks(judge, db, v, i - 1);
      current := if b.parent in db.badBlocks then Some(db.badBlocks[b.parent]) else None;
      i := i - 1;
    }
    r := if blocks != [] && blocks[0].Hash() == start then Some(blocks) else None;
    PackagedIs(v, db.badBlocks[start], i);
  }

  /** Numbers decide where the run is cut. */
  lemma PackagedIs(v: View, first: Block, i: nat)
    requires forall k: nat | k < |v.bad| :: v.bad[k].number == |v.valid| + k
    requires i <= |v.bad| && (i < |v.bad| ==> v.bad[i].number >= first.number)
    requires i > 0 ==> v.bad[i - 1].number < first.number
    ensures Packaged(v, first.Hash()) == if i < |v.bad| && v.bad[i] == first then Some(v.bad[i..]) else None
  {
    if BadIndex(v, first).Some? {
      assert BadIndex(v, first).value == i;
    }
  }

  lemma NotPackaged(judge: Judge, db: Db, v: View, start: H256)
    requires WellFormed(judge, v) && Repr(judge, db, v) && start !in db.badBlocks
    ensures Packaged(v, start) == None
  {
    hide WellFormed, Repr;
    BadColumn(judge, db, v);
  }

  lemma NumberedBad(judge: Judge, v: View)
    requires WellFormed(judge, v)
    ensures forall i: nat | i < |v.bad| :: v.bad[i].number == |v.valid| + i
  {
    forall i: nat | i < |v.bad|
      ensures v.bad[i].number == |v.valid| + i
    {
      assert v.bad[i] == v.All()[|v.valid| + i];
    }
  }

  lemma BadColumn(judge: Judge, db: Db, v: View)
    requires WellFormed(judge, v) && Repr(judge, db, v)
    ensures forall i: nat | i < |v.bad| :: v.bad[i].Hash() in db.badBlocks
    ensures forall h | h in db.badBlocks :: h == db.badBlocks[h].Hash()
  {
  }

  /** The columns the node reads directly. */
  lemma Columns(judge: Judge, db: Db, v: View)
    requires WellFormed(judge, v) && Repr(judge, db, v)
    ensures v.valid != [] && v.trail != []
    ensures db.reverted == Last(v.trail) == v.last.reverted
    ensures db.blockTree == TreeOf(v.All())
    ensures db.targets == v.known
    ensures db.accounts == Last(v.valid).post
    ensures db.tipHash == v.Tip().Hash() == v.last.tip
    ensures v.target.Some? <==> v.bad != []
    ensures v.bad != [] ==> v.target.value.block == v.bad[0].Hash()
    ensures v.Tip().number == |v.All()| - 1
    ensures Last(v.valid).Hash() in db.blocks
  {
    assert v.Tip() == Last(v.All());
    assert v.valid[|v.valid| - 1].Hash() in db.blocks;
  }

  lemma ValidNotBad(judge: Judge, db: Db, v: View)
    requires WellFormed(judge, v) && Repr(judge, db, v)
    ensures Last(v.valid).Hash() !in db.badBlocks
    ensures db.tipHash in db.badBlocks <==> v.bad != []
    ensures v.bad != [] ==> db.badBlocks[db.tipHash] == Last(v.bad)
  {
    assert !Doomed(judge, v.valid[|v.valid| - 1]);
  }

  /** Following a bad block's parent: only the first bad block hangs on a stored valid block. */
  lemma BadLinks(judge: Judge, db: Db, v: View, i: nat)
    requires WellFormed(judge, v) && Repr(judge, db, v) && i < |v.bad|
    ensures i > 0 ==> v.bad[i].parent in db.badBlocks && db.badBlocks[v.bad[i].parent] == v.bad[i - 1]
    ensures i == 0 ==> v.bad[i].parent !in db.badBlocks
    ensures v.bad[i].parent in db.blocks <==> i == 0
  {
    hide WellFormed, Repr;
    ParentOfBad(judge, v, i);
    if i > 0 {
      BadColumn(judge, db, v);
      BadIsDoomed(judge, v, i - 1);
      NoDoomedBlock(judge, db, v, v.bad[i - 1]);
    } else {
      ValidNotBad(judge, db, v);
      Columns(judge, db, v);
    }
  }

  lemma ParentOfBad(judge: Judge, v: View, i: nat)
    requires WellFormed(judge, v) && i < |v.bad|
    ensures v.bad[i].parent == (if i > 0 then v.bad[i - 1] else Last(v.valid)).Hash()
  {
    var all, n := v.All(), |v.valid|;
    assert v.bad[i] == all[n + i];
    assert all[n + i - 1] == if i > 0 then v.bad[i - 1] else Last(v.valid);
  }

  lemma NoDoomedBlock(judge: Judge, db: Db, v: View, b: Block)
    requires WellFormed(judge, v) && Repr(judge, db, v) && Doomed(judge, b)
    ensures b.Hash() !in db.blocks
  {
  }

  /** What a challenger needs to revert a run of blocks: `tree` is the tree the block proof is for. */
  datatype RevertContext = RevertContext(
    postReverted: set<H256>,
    newTip: Block,
    blocks: seq<Block>,
    tree: BlockTree)

  /** The rollup cell built from a revert context. */
  function PostRevertState(prev: GlobalState, ctx: RevertContext): GlobalState
    requires ctx.blocks != []
  {
    var first := ctx.blocks[0];
    prev.(account := first.prev,
          blocks := ctx.tree - (set b | b in ctx.blocks :: b.number),
          count := first.number,
          tip := first.parent,
          reverted := ctx.postReverted,
          status := Running)
  }

  /** The context and the reverted set it leaves in the store transaction; the caller rolls back. */
  method BuildRevertContext(db: Db, blocks: seq<Block>) returns (r: Option<RevertContext>, after: Db)
    ensures after == db.(reverted := db.reverted + HashSet(blocks))
    ensures r.Some? <==> blocks != [] && blocks[0].parent in db.blocks
    ensures r.Some? ==>
      r.value == RevertContext(db.reverted + HashSet(blocks), db.blocks[blocks[0].parent], blocks, db.blockTree)
  {
    var reverted := db.reverted;
    for i := 0 to |blocks|
      invariant reverted == db.reverted + HashSet(blocks[..i])
    {
      assert blocks[..i + 1] == blocks[..i] + [blocks[i]];
      reverted := reverted + {blocks[i].Hash()};
    }
    assert blocks[..|blocks|] == blocks;
    after := db.(reverted := reverted);
    if blocks == [] || blocks[0].parent !in db.blocks {
      return None, after;
    }
    r := Some(RevertContext(reverted, db.blocks[blocks[0].parent], blocks, db.blockTree));
  }

  /** The number the index gives for the block of a challenge target. */
  function TargetNumber(db: Db, target: Option<Target>): Option<nat> {
    if target.Some? && target.value.block in db.numbers then Some(db.numbers[target.value.block]) else None
  }

  /** `None` is below every number. */
  predicate Exceeds(a: Option<nat>, n: nat) {
    a.Some? && a.value > n
  }

  class Node {
    const judge: Judge
    var db: Db
    var target: Option<Target>
    var event: Event
    var tip: Block
    var last: GlobalState
    ghost var view: View

    /** The store and the fields hold one and the same well-formed chain. */
    ghost predicate Valid()
      reads this
    {
      && WellFormed(judge, view)
      && Repr(judge, db, view)
      && target == view.target
      && tip == view.Tip()
      && last == view.last
    }

    constructor (judge: Judge, db: Db, tip: Block, last: GlobalState, ghost v: View)
      requires WellFormed(judge, v) && Clean(v) && Repr(judge, db, v)
      requires tip == v.Tip() && last == v.last
      ensures Valid() && view == v && this.judge == judge && this.db == db
    {
      this.judge, this.db, this.tip, this.last := judge, db, tip, last;
      target, event, view := None, Success, v;
    }

    /** Take in a block that goes on top of, or starts, the bad run. */
    method AppendBadBlock(gs: GlobalState, b: Block, t: Target, ghost v: View) returns (r: Outcome)
      requires WellFormed(judge, v) && Repr(judge, db, v)
      modifies this
      ensures Follows(r, AppendBad(v.(target := Some(t)), gs, b), v, view, event)
      ensures r == Done ==> target == Some(t) && tip == view.Tip() && last == gs
      ensures r == Done && b.number == |v.All()| && Doomed(judge, b) ==> Repr(judge, db, view)
    {
      hide WellFormed, Repr, Doomed;
      ghost var w := v.(bad := v.bad + [b], target := Some(t), last := gs);
      Columns(judge, db, v);
      if b.number == |v.All()| && Doomed(judge, b) {
        AppendBadRefines(judge, db, v, w, gs, b, t);
      }
      db := db.InsertBadBlock(b, gs);
      if gs.blocks != db.blockTree {
        return Panicked;
      }
      target, tip := Some(t), b;
      event, last, view := BadBlock(t), gs, w;
      return Done;
    }

    method SubmitBlock(gs: GlobalState, b: Block) returns (r: Outcome)
      requires Valid()
      modifies this
      ensures Follows(r, Submit(judge, old(view), gs, b), old(view), view, event)
      ensures r == Done && L1Checked(old(view), Action(gs, Context.SubmitBlock(b))) ==> Valid()
      ensures r == Failed ==> Valid() && db == old(db)
    {
      hide WellFormed, Repr, TreeOf, HashSet, Doomed;
      Columns(judge, db, view);
      NextDoomed(judge, view, b);
      KnownDoomed(judge, view);
      ghost var before := view;
      if Submit(judge, before, gs, b).Ok? && L1Checked(before, Action(gs, Context.SubmitBlock(b))) {
        SubmitKeeps(judge, before, gs, b);
      }
      var begin := db;
      if b.parent != tip.Hash() {
        return Failed;
      }
      if db.reverted != gs.reverted {
        return Panicked;
      }
      if target.None? && b.Hash() in db.targets {
        target := Some(db.targets[b.Hash()]);
      }
      if target.Some? {
        r := AppendBadBlock(gs, b, target.value, view);
        return;
      }
      if b.number != tip.number + 1 || db.accounts != b.prev {
        return Panicked;
      }
      match judge(b)
      case Rejected(dirty) =>
        db := db.(accounts := dirty);
        // The transaction is dropped on the way out.
        db := begin;
        return Failed;
      case Challenged(_, _, dirty) =>
        db := db.(accounts := dirty);
        db := begin;
        var t := TargetFor(b, judge(b));
        Remember(judge, db, view, b, t);
        db := db.(targets := db.targets[b.Hash() := t]);
        r := AppendBadBlock(gs, b, t, view.(known := db.targets));
      case Accepted(post) =>
        if post != b.post {
          return Panicked;
        }
        AttachRefines(judge, db, view, b, gs);
        db := db.(accounts := post, history := db.history[b.number := db.accounts]);
        db := db.AttachBlock(b, gs);
        tip, last, event := b, gs, Success;
        view := AppendValid(view, gs, b);
        return Done;
    }

    /** A challenge with a bad run in place is answered with a revert exactly when it names the first
    bad block; the test against the number of the local bad block never fires, because bad blocks
    have no entry in the number index. */
    method Challenge(gs: GlobalState, t: H256, number: nat, verifiable: bool) returns (r: Outcome)
      requires Valid()
      modifies this
      ensures Follows(r, EnterChallenge(old(view), gs, t, number, verifiable), old(view), view, event)
      ensures r != Panicked ==> db == old(db)
      ensures r == Failed ==> Valid()
      ensures r == Done && L1Checked(old(view), Action(gs, Context.Challenge(t, number, verifiable))) ==> Valid()
    {
      hide WellFormed, Repr, TreeOf, HashSet, Doomed;
      Columns(judge, db, view);
      NumberedBad(judge, view);
      if gs == view.last.(status := gs.status) {
        SameView(judge, db, view, gs);
      }
      if view.bad != [] {
        BadNotIndexed(judge, db, view);
      }
      var begin := db;
      if gs.status != Halting {
        return Panicked;
      }
      if gs.blocks != db.blockTree {
        return Failed;
      }
      var localBad := TargetNumber(db, target);
      if (target.None? && tip.number >= number) || Exceeds(localBad, number) {
        if !verifiable {
          return Failed;
        }
        event, last := BadChallenge, gs;
        view := view.(last := gs);
        return Done;
      }
      if target.None? {
        return Panicked;
      }
      var blocks := PackageBadBlocks(db, t, judge, view);
      if blocks.None? {
        return Failed;
      }
      BadLinks(judge, db, view, BadIndex(view, t.block).value);
      var ctx, dirty := BuildRevertContext(db, blocks.value);
      db := dirty;
      db := begin;
      if ctx.None? {
        return Failed;
      }
      event, last := WaitChallenge(blocks.value), gs;
      view := view.(last := gs);
      return Done;
    }

    method CancelChallenge(gs: GlobalState) returns (r: Outcome)
      requires Valid()
      modifies this
      ensures Follows(r, Cancel(old(view), gs), old(view), view, event)
      ensures r != Failed && (r == Done ==> db == old(db))
      ensures r == Done && L1Checked(old(view), Action(gs, Context.CancelChallenge)) ==> Valid()
    {
      hide WellFormed, Repr;
      if gs == view.last.(status := gs.status) {
        SameView(judge, db, view, gs);
      }
      if gs.status != Running {
        return Panicked;
      }
      event := if target.Some? then BadBlock(target.value) else Success;
      last := gs;
      view := view.(last := gs);
      return Done;
    }

    /** Drop the bad run from position `k` on, once its blocks were matched with those of L1. */
    method DropBadBlocks(gs: GlobalState, local: seq<Block>, ghost k: nat) returns (r: Outcome)
      requires Valid() && k < |view.bad| && local == view.bad[k..]
      requires gs.status == Running
      modifies this
      ensures Follows(r, RevertBad(old(view), gs, local), old(view), view, event)
      ensures r == Done && HashSet(local) !! Last(old(view).trail) ==> Valid()
    {
      hide WellFormed, Repr, HashSet, TreeOf, Hashes, Db.RevertBadBlocks, Db.LogReverted, Db.TipBlock;
      Columns(judge, db, view);
      NumberedBad(judge, view);
      assert BadIndex(view, local[0]) == Some(k);
      ghost var w := view.(bad := view.bad[..k], trail := view.trail + [Last(view.trail) + HashSet(local)],
                           target := if k == 0 then None else view.target, last := gs);
      RevertReads(judge, db, view, w, gs, k);
      if HashSet(local) !! Last(view.trail) {
        RevertRefines(judge, db, view, w, gs, k);
      }
      var first, prev := local[0], db.reverted;
      db := db.RevertBadBlocks(local);
      db := db.LogReverted(prev, Hashes(local));
      if db.reverted != gs.reverted || db.blockTree != gs.blocks || first.number != gs.count
         || first.parent != gs.tip || db.tipHash != gs.tip {
        return Panicked;
      }
      var found := db.TipBlock();
      tip := found.value;
      if target.value.block == first.Hash() {
        target := None;
      }
      if target.None? && first.prev != gs.account {
        return Panicked;
      }
      event := if target.Some? then BadBlock(target.value) else Success;
      last, view := gs, w;
      return Done;
    }

    method Revert(gs: GlobalState, blocks: seq<Block>) returns (r: Outcome)
      requires Valid()
      modifies this
      ensures Follows(r, RevertBad(old(view), gs, blocks), old(view), view, event)
      ensures r == Failed ==> Valid()
      ensures r == Done && L1Checked(old(view), Action(gs, Context.Revert(blocks))) ==> Valid()
    {
      hide WellFormed, Repr, HashSet, TreeOf, Hashes;
      Columns(judge, db, view);
      NumberedBad(judge, view);
      BadColumn(judge, db, view);
      if gs.status != Running || blocks == [] || target.None? {
        return Panicked;
      }
      var first := blocks[0];
      if first.number < db.badBlocks[target.value.block].number {
        return Panicked;
      }
      var packaged := PackageBadBlocks(db, first.Hash(), judge, view);
      if packaged.None? {
        return Failed;
      }
      if Hashes(packaged.value) != Hashes(blocks) {
        return Panicked;
      }
      SameHashes(packaged.value, blocks);
      r := DropBadBlocks(gs, blocks, BadIndex(view, first).value);
    }

    /** One L1 action, chosen by the status of the last rollup cell. */
    method UpdateL1Action(a: Action) returns (r: Outcome)
      requires Valid()
      modifies this
      ensures Follows(r, Step(judge, old(view), a), old(view), view, event)
      ensures r == Failed ==> Valid()
      ensures r == Done && L1Checked(old(view), a) ==> Valid()
    {
      hide WellFormed, Repr, Submit, EnterChallenge, Cancel, RevertBad, L1Checked;
      Columns(judge, db, view);
      match (last.status, a.context)
      case (Running, SubmitBlock(b)) => r := SubmitBlock(a.global, b);
      case (Running, Challenge(t, n, ok)) => r := Challenge(a.global, t, n, ok);
      case (Halting, CancelChallenge) => r := CancelChallenge(a.global);
      case (Halting, Revert(bs)) => r := Revert(a.global, bs);
      case (_, _) => return Panicked;
    }

    /** Take in one L1 action, commit, and compare the account tree with the last valid block: that
    closing comparison never fails. */
    method Sync(a: Action) returns (r: Outcome)
      requires Valid()
      modifies this
      ensures L1Checked(old(view), a) ==> Follows(r, Step(judge, old(view), a), old(view), view, event)
      ensures L1Checked(old(view), a) && r != Panicked ==> Valid()
    {
      hide WellFormed, Repr, Step, L1Checked;
      Columns(judge, db, view);
      ghost var checked := L1Checked(view, a);
      r := UpdateL1Action(a);
      if r != Done {
        return;
      }
      if checked {
        Columns(judge, db, view);
        LastValidColumns(judge, db, view);
      }
      if target.Some? && db.lastValidHash !in db.blocks {
        return Panicked;
      }
      var expected := if target.Some? then db.blocks[db.lastValidHash].post else tip.post;
      if db.accounts != expected {
        return Panicked;
      }
    }

    /** The store taken back to the last valid block: first the reverted set, then the bad run. */
    method RewindStore(lastState: GlobalState, ghost cut: seq<set<H256>>) returns (r: Db)
      requires Valid() && CutTrail(view.trail, lastState.reverted) == Some(cut)
      ensures Repr(judge, r, Popped(view.(trail := cut), 0))
    {
      hide WellFormed, Repr, Linked, Ascending, Logged, Popped, CutTrail;
      Columns(judge, db, view);
      GenesisColumns(judge, db, view);
      CutEnds(view.trail, lastState.reverted);
      var genesis := db.index[0];
      var ok, cutDb := RewindRevertedTree(db, lastState.reverted, db.globalStates[genesis].reverted, view.trail);
      CutRepr(judge, db, view, cut);
      r := RewindBadBlocks(cutDb, last.tip, genesis, judge, view.(trail := cut));
    }

    /** Rewind to the last valid block: it always succeeds, and brings back the block map, the reverted
    set and the tip of that block. */
    method RewindToLastValidTip(prev: GlobalState)
      requires Valid()
      modifies this
      ensures Rewind(old(view), prev) == Some(view)
      ensures Repr(judge, db, view) && target == None && tip == view.Tip() && last == prev && event == Success
      ensures prev == Last(old(view).states) ==> Valid() && Clean(view)
    {
      hide WellFormed, Repr, CutTrail, HashSet, Db.TipBlock;
      Columns(judge, db, view);
      LastValidColumns(judge, db, view);
      RewindExact(judge, view);
      RewindKeeps(judge, view);
      ghost var cut := CutTrail(view.trail, Last(view.states).reverted).value;
      ghost var u := view.(trail := cut);
      ghost var w := Rewind(view, prev).value;
      var lastState := db.globalStates[db.lastValidHash];
      if tip.Hash() != db.lastValidHash || last != lastState || db.reverted != lastState.reverted {
        db := RewindStore(lastState, cut);
      } else {
        LastCut(view.trail);
        NothingPopped(view);
      }
      PoppedAll(u);
      SameStore(judge, db, Popped(u, 0), w);
      TipStored(judge, db, w);
      event, target, last, tip, view := Success, None, prev, db.TipBlock().value, w;
    }

    /** Detach the last valid block. */
    method RevertSubmitBlock(b: Block, prev: GlobalState) returns (r: Outcome)
      requires Valid()
      modifies this
      ensures r == (if RevertSubmit(old(view), b, prev).Some? then Done else Panicked)
      ensures r == Done ==>
        && RevertSubmit(old(view), b, prev) == Some(view)
        && Repr(judge, db, view) && target == view.target && tip == view.Tip() && last == view.last
        && event == Success
    {
      hide WellFormed, Repr, Linked, Ascending, Logged, CutTrail, Db.TipBlock;
      Columns(judge, db, view);
      LastValidColumns(judge, db, view);
      GenesisColumns(judge, db, view);
      if target.Some? || tip.Hash() != db.lastValidHash || b.Hash() != tip.Hash()
         || last != db.globalStates[b.Hash()] {
        return Panicked;
      }
      // The parent of block zero is looked up after its own index entry is gone.
      if b.number == 0 {
        return Panicked;
      }
      ghost var w := view.(valid := Init(view.valid), states := Init(view.states), marks := Init(view.marks));
      DetachRefines(judge, db, view, w);
      var groot := db.globalStates[db.index[0]].reverted;
      db := db.DetachBlock(b).DetachState(b.number);
      LastCut(view.trail);
      if last.reverted != prev.reverted {
        var ok, cutDb := RewindRevertedTree(db, prev.reverted, groot, view.trail);
        if !ok {
          return Panicked;
        }
        db := cutDb;
      }
      if db.accounts != b.prev {
        return Panicked;
      }
      ghost var cut := CutTrail(view.trail, prev.reverted).value;
      CutRepr(judge, db.(reverted := Last(view.trail)), w, cut);
      SameStore(judge, db, w.(trail := cut), w.(trail := cut, target := None, last := prev));
      TipStored(judge, db, w.(trail := cut));
      event, target, last, tip := Success, None, prev, db.TipBlock().value;
      view := w.(trail := cut, target := None, last := prev);
      return Done;
    }

    /** Detach valid blocks until block `n` is the tip, each with the global state stored for its parent. */
    method RevertToBlock(n: nat) returns (r: Outcome)
      requires Valid()
      modifies this
      ensures r == (if RevertTo(old(view), n).Some? then Done else Panicked)
      ensures r == Done ==> RevertTo(old(view), n) == Some(view) && Valid()
    {
      hide WellFormed, Repr, RevertSubmit, RevertTo;
      LastValidColumns(judge, db, view);
      GenesisColumns(judge, db, view);
      ghost var goal := RevertTo(view, n);
      while db.blocks[db.lastValidHash].number > n
        invariant Valid()
        invariant |view.valid| == |view.states| == |view.marks| > 0 && view.trail != []
        invariant db.lastValidHash in db.blocks && db.blocks[db.lastValidHash] == Last(view.valid)
        invariant Last(view.valid).number == |view.valid| - 1
        invariant RevertTo(view, n) == goal
        decreases |view.valid|
      {
        var b := db.blocks[db.lastValidHash];
        ParentState(judge, db, view);
        RevertToStep(judge, view, n);
        r := RevertSubmitBlock(b, db.globalStates[b.parent]);
        if r == Panicked {
          return;
        }
        LastValidColumns(judge, db, view);
        GenesisColumns(judge, db, view);
      }
      RevertToBase(view, n);
      return Done;
    }

    /** Store a block the node built itself, or one a leader sent. */
    method UpdateLocal(gs: GlobalState, b: Block) returns (r: Outcome)
      requires Valid()
      modifies this
      ensures Follows(r, AddLocal(judge, old(view), gs, b), old(view), view, Success)
      ensures event == old(event)
      ensures r == Failed ==> Valid()
      ensures r == Done ==> (Valid() <==> old(view).bad == [] && gs.tip == b.Hash())
    {
      hide WellFormed, Repr;
      Columns(judge, db, view);
      if b.parent != tip.Hash() {
        return Failed;
      }
      if db.reverted != gs.reverted || b.number != tip.number + 1 || db.accounts != b.prev {
        return Panicked;
      }
      if !judge(b).Accepted? {
        return Failed;
      }
      if judge(b).post != b.post {
        return Panicked;
      }
      AddLocalKeepsExactly(judge, view, gs, b);
      if view.bad == [] && gs.tip == b.Hash() {
        AttachRefines(judge, db, view, b, gs);
      }
      db := db.(accounts := b.post, history := db.history[b.number := db.accounts]);
      db := db.AttachBlock(b, gs);
      tip, last := b, gs;
      view := AppendValid(view, gs, b);
      return Done;
    }
  }

  // ---------- Refinement of single steps ----------

  lemma AppendBadRefines(judge: Judge, db: Db, v: View, w: View, gs: GlobalState, b: Block, t: Target)
    requires WellFormed(judge, v) && Repr(judge, db, v)
    requires b.number == |v.All()| && Doomed(judge, b)
    requires w == v.(bad := v.bad + [b], target := Some(t), last := gs)
    ensures Repr(judge, db.InsertBadBlock(b, gs), w)
    ensures db.InsertBadBlock(b, gs).blockTree == TreeOf(v.All())[b.number := b.Hash()]
    ensures w.Tip() == b
  {
    InsertBadKeeps(judge, db, v, w, b, gs);
  }

  lemma AttachRefines(judge: Judge, db: Db, v: View, b: Block, gs: GlobalState)
    requires WellFormed(judge, v) && Repr(judge, db, v) && v.bad == []
    requires b.number == |v.All()| && b.parent == v.Tip().Hash() && b.prev == Last(v.valid).post
    requires judge(b).Accepted?
    ensures Repr(judge,
                 db.(accounts := b.post, history := db.history[b.number := db.accounts]).AttachBlock(b, gs),
                 AppendValid(v, gs, b))
  {
    ValidLinked(v);
    assert !Doomed(judge, v.valid[|v.valid| - 1]);
    AttachKeeps(judge, db, v, b, gs);
  }

  lemma Remember(judge: Judge, db: Db, v: View, b: Block, t: Target)
    requires WellFormed(judge, v) && Repr(judge, db, v)
    requires Names(judge, b, t)
    ensures var known := db.targets[b.Hash() := t];
      && WellFormed(judge, v.(known := known))
      && Repr(judge, db.(targets := known), v.(known := known))
      && v.(known := known).All() == v.All()
  {
    ForgetKeeps(judge, v, db.targets[b.Hash() := t]);
  }

  lemma SameView(judge: Judge, db: Db, v: View, gs: GlobalState)
    requires WellFormed(judge, v) && Repr(judge, db, v)
    requires gs == v.last.(status := gs.status)
    ensures WellFormed(judge, v.(last := gs)) && Repr(judge, db, v.(last := gs))
    ensures v.(last := gs).Tip() == v.Tip()
  {
    assert v.(last := gs).All() == v.All();
  }

  lemma KnownDoomed(judge: Judge, v: View)
    requires WellFormed(judge, v)
    ensures forall b: Block | b.Hash() in v.known :: judge(b).Challenged? && Doomed(judge, b)
  {
  }

  /** What the node reads back after dropping the run from position `k` on. */
  lemma RevertReads(judge: Judge, db: Db, v: View, w: View, gs: GlobalState, k: nat)
    requires WellFormed(judge, v) && Repr(judge, db, v) && k < |v.bad|
    requires w.valid == v.valid && w.bad == v.bad[..k]
    ensures var e := db.RevertBadBlocks(v.bad[k..]).LogReverted(db.reverted, Hashes(v.bad[k..]));
      && e.reverted == Last(v.trail) + HashSet(v.bad[k..])
      && e.blockTree == TreeOf(v.valid + v.bad[..k])
      && e.tipHash == v.bad[k].parent == w.Tip().Hash()
      && e.TipBlock() == Some(w.Tip())
  {
    hide WellFormed, Repr, Linked, Hashes, TreeOf, HashSet, View.Tip;
    Columns(judge, db, v);
    CutTip(v, w, k);
    ParentOfBad(judge, v, k);
    BadLinks(judge, db, v, k);
    BadColumn(judge, db, v);
    LastValidColumns(judge, db, v);
    ChainLinked(judge, v);
    var all, m := v.All(), |v.valid| + k;
    assert all[m..] == v.bad[k..] && all[..m] == v.valid + v.bad[..k];
    TreeMinus(all, m);
  }

  lemma CutTip(v: View, w: View, k: nat)
    requires v.valid != [] && k < |v.bad| && w.valid == v.valid && w.bad == v.bad[..k]
    ensures w.Tip() == if k > 0 then v.bad[k - 1] else Last(v.valid)
  {
  }

  lemma ChainLinked(judge: Judge, v: View)
    requires WellFormed(judge, v)
    ensures Linked(v.All())
  {
  }

  lemma RevertRefines(judge: Judge, db: Db, v: View, w: View, gs: GlobalState, k: nat)
    requires WellFormed(judge, v) && Repr(judge, db, v)
    requires k < |v.bad| && HashSet(v.bad[k..]) !! Last(v.trail)
    requires w == v.(bad := v.bad[..k], trail := v.trail + [Last(v.trail) + HashSet(v.bad[k..])],
                     target := if k == 0 then None else v.target, last := gs)
    ensures Repr(judge, db.RevertBadBlocks(v.bad[k..]).LogReverted(db.reverted, Hashes(v.bad[k..])), w)
    ensures gs.reverted == Last(w.trail) && gs.tip == v.bad[k].parent ==> WellFormed(judge, w)
  {
    hide HashSet, Hashes;
    RevertKeepsRepr(judge, db, v, w, k);
    if gs.reverted == Last(w.trail) && gs.tip == v.bad[k].parent {
      RevertWellFormed(judge, v, w, gs, k);
    }
  }

  lemma RevertWellFormed(judge: Judge, v: View, w: View, gs: GlobalState, k: nat)
    requires WellFormed(judge, v)
    requires k < |v.bad| && HashSet(v.bad[k..]) !! Last(v.trail)
    requires w == v.(bad := v.bad[..k], trail := v.trail + [Last(v.trail) + HashSet(v.bad[k..])],
                     target := if k == 0 then None else v.target, last := gs)
    requires gs.reverted == Last(w.trail) && gs.tip == v.bad[k].parent
    ensures WellFormed(judge, w)
  {
    TruncateBad(judge, v, k);
    assert w.All() == v.(bad := v.bad[..k]).All();
    assert v.bad[k..][0].Hash() in HashSet(v.bad[k..]);
    TrailAppend(v.marks, v.states, v.trail, Last(w.trail));
  }

  lemma SameHashes(a: seq<Block>, b: seq<Block>)
    requires Hashes(a) == Hashes(b)
    ensures a == b
  {
    assert |Hashes(a)| == |a| && |Hashes(b)| == |b|;
    forall i: nat | i < |a|
      ensures a[i] == b[i]
    {
      assert Hashes(a)[i] == Hashes(b)[i];
    }
  }

  /** The block a challenge is raised against is always stored, so its context can be built. */
  lemma TargetStored(judge: Judge, db: Db, v: View)
    requires WellFormed(judge, v) && Repr(judge, db, v) && v.target.Some?
    ensures v.target.value.block in db.badBlocks && db.badBlocks[v.target.value.block] == v.bad[0]
  {
    hide WellFormed, Repr;
    Columns(judge, db, v);
    BadColumn(judge, db, v);
  }

  lemma NextDoomed(judge: Judge, v: View, b: Block)
    requires WellFormed(judge, v)
    ensures b.parent == v.Tip().Hash() && v.bad != [] ==> Doomed(judge, b)
    ensures judge(b).Challenged? ==> Doomed(judge, b)
  {
    if v.bad != [] {
      BadIsDoomed(judge, v, |v.bad| - 1);
    }
  }

  // ---------- Refinement of undo ----------

  lemma LastValidColumns(judge: Judge, db: Db, v: View)
    requires WellFormed(judge, v) && Repr(judge, db, v)
    ensures |v.valid| == |v.states| == |v.marks| > 0
    ensures db.lastValidHash == Last(v.valid).Hash()
    ensures db.lastValidHash in db.blocks && db.blocks[db.lastValidHash] == Last(v.valid)
    ensures db.lastValidHash in db.globalStates && db.globalStates[db.lastValidHash] == Last(v.states)
    ensures v.bad == [] <==> v.Tip() == Last(v.valid)
  {
    assert v.valid[|v.valid| - 1].Hash() in db.blocks;
    TipIsValid(v);
  }

  lemma GenesisColumns(judge: Judge, db: Db, v: View)
    requires WellFormed(judge, v) && Repr(judge, db, v)
    ensures Linked(v.All()) && Ascending(v.trail) && Logged(db.revertLog, v.trail)
    ensures 0 in db.index && db.index[0] == v.valid[0].Hash()
    ensures db.index[0] in db.globalStates && db.globalStates[db.index[0]].reverted == v.trail[0]
    ensures Last(v.valid).number == |v.valid| - 1
  {
    assert v.All()[|v.valid| - 1] == Last(v.valid);
  }

  lemma CutEnds(trail: seq<set<H256>>, root: set<H256>)
    requires trail != [] && CutTrail(trail, root).Some?
    ensures var cut := CutTrail(trail, root).value; cut != [] && cut <= trail && Last(cut) == root
  {
  }

  lemma PoppedAll(v: View)
    ensures Popped(v, 0) == v.(bad := [], known := v.known - HashSet(v.bad))
  {
    assert v.bad[0..] == v.bad && v.bad[..0] == [];
  }

  lemma LastCut(trail: seq<set<H256>>)
    requires trail != []
    ensures CutTrail(trail, Last(trail)) == Some(trail)
  {
  }

  lemma CutRepr(judge: Judge, db: Db, v: View, cut: seq<set<H256>>)
    requires v.valid != [] && v.trail != [] && Repr(judge, db, v)
    requires Ascending(v.trail) && cut != [] && cut <= v.trail
    ensures Repr(judge, db.(reverted := Last(cut)), v.(trail := cut))
    ensures v.(trail := cut).All() == v.All()
  {
    LogPrefix(db.revertLog, v.trail, |cut|);
    assert v.trail[..|cut|] == cut;
  }

  lemma SameStore(judge: Judge, db: Db, v: View, w: View)
    requires v.valid != [] && v.trail != [] && Repr(judge, db, v)
    requires w == v.(target := w.target, last := w.last)
    ensures Repr(judge, db, w)
  {
  }

  lemma TipStored(judge: Judge, db: Db, v: View)
    requires v.valid != [] && v.trail != [] && v.bad == [] && Repr(judge, db, v)
    ensures db.TipBlock() == Some(v.Tip())
  {
    assert v.valid[|v.valid| - 1].Hash() in db.blocks;
  }

  lemma DetachRefines(judge: Judge, db: Db, v: View, w: View)
    requires WellFormed(judge, v) && Repr(judge, db, v) && v.bad == [] && |v.valid| > 1
    requires w == v.(valid := Init(v.valid), states := Init(v.states), marks := Init(v.marks))
    ensures var b := Last(v.valid);
      && b.number > 0 && b.number - 1 in db.index && b.number in db.history
      && Repr(judge, db.DetachBlock(b).DetachState(b.number), w)
      && db.DetachBlock(b).DetachState(b.number).accounts == b.prev
  {
    hide Repr, Marked, Sound, Cached;
    ValidLinked(v);
    assert Last(v.valid).prev == v.valid[|v.valid| - 2].post;
    DetachColumns(judge, db, v);
    DetachPointers(db, v.valid);
    DetachKeeps(judge, db, v, w);
  }

  lemma DetachColumns(judge: Judge, db: Db, v: View)
    requires v.valid != [] && v.trail != [] && Repr(judge, db, v)
    ensures db.index == TreeOf(v.valid) && db.history == HistoryOf(v.valid)
  {
  }

  lemma ParentState(judge: Judge, db: Db, v: View)
    requires WellFormed(judge, v) && Repr(judge, db, v) && |v.valid| > 1
    ensures Last(v.valid).parent in db.globalStates
    ensures |v.states| > 1 && db.globalStates[Last(v.valid).parent] == v.states[|v.states| - 2]
  {
    var n := |v.valid| - 1;
    assert v.All()[n] == v.valid[n] && v.All()[n - 1] == v.valid[n - 1];
  }

  lemma RevertToBase(v: View, n: nat)
    requires |v.states| == |v.marks| == |v.valid| > 0 && v.trail != [] && |v.valid| - 1 <= n
    ensures RevertTo(v, n) == Some(v)
  {
  }

  lemma RevertToStep(judge: Judge, v: View, n: nat)
    requires WellFormed(judge, v) && |v.valid| - 1 > n
    ensures var back := RevertSubmit(v, Last(v.valid), v.states[|v.states| - 2]);
      && (back.None? ==> RevertTo(v, n).None?)
      && (back.Some? ==>
            && WellFormed(judge, back.value)
            && |back.value.valid| == |v.valid| - 1
            && RevertTo(v, n) == RevertTo(back.value, n))
  {
    if Clean(v) {
      RevertSubmitExact(judge, v);
      PrefixKeeps(judge, v, |v.valid| - 2);
    }
  }

  // ---------- The revert a challenger builds ----------

  /** The rollup cell built from the context of a revert passes every assertion of the revert branch on
  any node with the same chain, and takes away exactly the bad run. */
  lemma BuiltRevertPasses(judge: Judge, db: Db, v: View, u: View, ctx: RevertContext)
    requires WellFormed(judge, v) && Repr(judge, db, v) && Mirrors(v) && v.bad != []
    requires v.bad[0].parent in db.blocks
    requires ctx == RevertContext(db.reverted + HashSet(v.bad), db.blocks[v.bad[0].parent], v.bad, db.blockTree)
    requires u.trail != [] && u.target.Some? && u.last.status == Halting
    requires u.valid == v.valid && u.bad == v.bad && Last(u.trail) == Last(v.trail)
    ensures ctx.newTip == Last(v.valid)
    ensures PostRevertState(v.last, ctx) == RevertedState(v.last, v.bad)
    ensures var r := Step(judge, u, Action(PostRevertState(v.last, ctx), Context.Revert(ctx.blocks)));
      && r.Ok? && r.event == Success
      && r.view.valid == u.valid && r.view.bad == [] && r.view.target == None
      && r.view.last == PostRevertState(v.last, ctx)
  {
    hide WellFormed, Repr, Mirrors, TreeOf;
    Columns(judge, db, v);
    LastValidColumns(judge, db, v);
    ParentOfBad(judge, v, 0);
    assert v.last.blocks == db.blockTree by {
      MirrorsTree(v);
    }
    assert v.bad[0..] == v.bad && v.bad[..0] == [];
    RevertPasses(judge, v, u, 0);
  }

  lemma MirrorsTree(v: View)
    requires Mirrors(v)
    ensures v.last.blocks == TreeOf(v.All())
  {
  }
}
