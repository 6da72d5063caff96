/** The rollup chain machine on lists: a valid chain, a run of bad blocks on top of it and a trail
of reverted-block sets.  The store-backed node of module `ChainNode` is proved to refine it. */
module AbstractChain {
  import opened RollupTypes
  import opened Wrappers

  /** `states[i]` is the global state stored with `valid[i]`; `trail` holds every reverted-block set
  from genesis to now, and `trail[marks[i]]` is the one in force when `valid[i]` was attached. */
  datatype View = View(
    valid: seq<Block>,
    states: seq<GlobalState>,
    marks: seq<nat>,
    bad: seq<Block>,
    trail: seq<set<H256>>,
    target: Option<Target>,
    known: map<H256, Target>,
    last: GlobalState)
  {
    function All(): seq<Block> {
      valid + bad
    }

    function Tip(): Block
      requires valid != []
    {
      if bad != [] then Last(bad) else Last(valid)
    }
  }

  datatype Event =
    | Success
    | BadBlock(target: Target)
    | BadChallenge
    | WaitChallenge(blocks: seq<Block>)

  /** One L1 transaction: the rollup cell it leaves behind and what it did. */
  datatype Action = Action(global: GlobalState, context: Context)

  datatype Context =
    | SubmitBlock(block: Block)
    | Challenge(target: H256, number: nat, verifiable: bool)
    | CancelChallenge
    | Revert(blocks: seq<Block>)

  /** `Err` leaves the node as it was; `Panic` is a failed assertion, which ends the process. */
  datatype StepResult = Ok(view: View, event: Event) | Err | Panic

  ghost predicate WellFormed(judge: Judge, v: View) {
    && v.valid != []
    && |v.valid| == |v.states| == |v.marks|
    && Linked(v.All())
    && Ascending(v.trail)
    && Marked(v.marks, v.states, v.trail)
    && Accounted(v.valid, v.states)
    && Sound(judge, v.valid)
    && Cached(judge, v.known)
    && (v.target.Some? <==> v.bad != [])
    && (v.bad != [] ==> Names(judge, v.bad[0], v.target.value))
    && v.last.tip == v.Tip().Hash()
    && v.last.reverted == Last(v.trail)
  }

  /** The reverted-block sets only ever grew. */
  ghost predicate Ascending(trail: seq<set<H256>>) {
    trail != [] && forall i: nat, j: nat | i < j < |trail| :: trail[i] < trail[j]
  }

  ghost predicate Marked(marks: seq<nat>, states: seq<GlobalState>, trail: seq<set<H256>>) {
    && |marks| == |states|
    && (|marks| > 0 ==> marks[0] == 0)
    && (forall i: nat | i < |marks| :: marks[i] < |trail| && states[i].reverted == trail[marks[i]])
    && (forall i: nat, j: nat | i <= j < |marks| :: marks[i] <= marks[j])
  }

  ghost predicate Accounted(valid: seq<Block>, states: seq<GlobalState>) {
    && |valid| == |states|
    && (forall i: nat, j: nat | i + 1 == j < |valid| :: valid[j].prev == valid[i].post)
    && (forall i: nat | i < |valid| :: states[i].tip == valid[i].Hash())
  }

  ghost predicate Sound(judge: Judge, bs: seq<Block>) {
    forall i: nat | i < |bs| :: !Doomed(judge, bs[i])
  }

  /** The target is the one the generator gives for that very block. */
  ghost predicate Names(judge: Judge, b: Block, t: Target) {
    judge(b).Challenged? && t == Target(b.Hash(), judge(b).index, judge(b).kind)
  }

  ghost predicate Cached(judge: Judge, known: map<H256, Target>) {
    forall h | h in known :: h.BlockHash? && Names(judge, h.block, known[h])
  }

  // ---------- L1 actions ----------

  function TargetFor(b: Block, verdict: Verdict): Target
    requires verdict.Challenged?
  {
    Target(b.Hash(), verdict.index, verdict.kind)
  }

  function AppendBad(v: View, gs: GlobalState, b: Block): StepResult
    requires v.target.Some?
  {
    if gs.blocks != TreeOf(v.All())[b.number := b.Hash()] then Panic
    else Ok(v.(bad := v.bad + [b], last := gs), BadBlock(v.target.value))
  }

  function AppendValid(v: View, gs: GlobalState, b: Block): View
    requires v.trail != []
  {
    v.(valid := v.valid + [b], states := v.states + [gs], marks := v.marks + [|v.trail| - 1], last := gs)
  }

  /** The generator's answer to a block that continues the valid chain. */
  function ProcessBlock(judge: Judge, v: View, gs: GlobalState, b: Block): StepResult
    requires v.valid != [] && v.trail != []
  {
    if b.number != v.Tip().number + 1 || b.parent != v.Tip().Hash() then Panic
    else if b.prev != Last(v.valid).post then Panic
    else match judge(b)
      case Rejected(_) => Err
      case Challenged(_, _, _) =>
        var target := TargetFor(b, judge(b));
        AppendBad(v.(target := Some(target), known := v.known[b.Hash() := target]), gs, b)
      case Accepted(post) =>
        if post != b.post then Panic else Ok(AppendValid(v, gs, b), Success)
  }

  function Submit(judge: Judge, v: View, gs: GlobalState, b: Block): StepResult
    requires v.valid != [] && v.trail != []
  {
    if b.parent != v.Tip().Hash() then Err
    else if gs.reverted != Last(v.trail) then Panic
    else
      var target := if v.target.None? && b.Hash() in v.known then Some(v.known[b.Hash()]) else v.target;
      if target.Some? then AppendBad(v.(target := target), gs, b)
      else ProcessBlock(judge, v, gs, b)
  }

  /** A challenge can be answered with a revert only when it names the first bad block. */
  function EnterChallenge(v: View, gs: GlobalState, target: H256, number: nat, verifiable: bool): StepResult
    requires v.valid != [] && (v.target.Some? ==> v.bad != [])
  {
    if gs.status != Halting then Panic
    else if gs.blocks != TreeOf(v.All()) then Err
    else if v.target.None? then
      if number > v.Tip().number then Panic
      else if verifiable then Ok(v.(last := gs), BadChallenge) else Err
    else if target == v.bad[0].Hash() then Ok(v.(last := gs), WaitChallenge(v.bad))
    else Err
  }

  function Cancel(v: View, gs: GlobalState): StepResult {
    if gs.status != Running then Panic
    else Ok(v.(last := gs), if v.target.Some? then BadBlock(v.target.value) else Success)
  }

  /** Position in the bad run, if it is there, of a block with that number and content. */
  function BadIndex(v: View, b: Block): Option<nat> {
    var k := b.number - |v.valid|;
    if 0 <= k < |v.bad| && v.bad[k] == b then Some(k) else None
  }

  function RevertBad(v: View, gs: GlobalState, blocks: seq<Block>): StepResult
    requires v.trail != [] && (v.target.Some? ==> v.bad != [])
  {
    if gs.status != Running || blocks == [] || v.target.None? then Panic
    else if blocks[0].number < v.bad[0].number then Panic
    else match BadIndex(v, blocks[0])
      case None => Err
      case Some(k) =>
        var reverted := Last(v.trail) + HashSet(v.bad[k..]);
        if blocks != v.bad[k..] || gs.reverted != reverted || gs.blocks != TreeOf(v.valid + v.bad[..k])
           || gs.count != blocks[0].number || gs.tip != blocks[0].parent then Panic
        else if k == 0 && blocks[0].prev != gs.account then Panic
        else
          var target := if k == 0 then None else v.target;
          Ok(v.(bad := v.bad[..k], trail := v.trail + [reverted], target := target, last := gs),
             if target.Some? then BadBlock(target.value) else Success)
  }

  function Step(judge: Judge, v: View, a: Action): StepResult
    requires v.valid != [] && v.trail != [] && (v.target.Some? ==> v.bad != [])
  {
    match (v.last.status, a.context)
    case (Running, SubmitBlock(b)) => Submit(judge, v, a.global, b)
    case (Running, Challenge(t, n, ok)) => EnterChallenge(v, a.global, t, n, ok)
    case (Halting, CancelChallenge) => Cancel(v, a.global)
    case (Halting, Revert(bs)) => RevertBad(v, a.global, bs)
    case (_, _) => Panic
  }

  /** What the rollup type script on L1 checks and the node does not: block numbers are successive,
  the rollup cell names the new tip, a challenge only flips the status, and no block is reverted
  twice. */
  ghost predicate L1Checked(v: View, a: Action)
    requires v.valid != [] && v.trail != []
  {
    match a.context
    case SubmitBlock(b) => b.number == |v.All()| && a.global.tip == b.Hash()
    case Challenge(_, _, _) => a.global == v.last.(status := a.global.status)
    case CancelChallenge => a.global == v.last.(status := a.global.status)
    case Revert(bs) => HashSet(bs) !! Last(v.trail)
  }

  lemma AllAppend(v: View, b: Block)
    requires v.valid != []
    ensures v.(bad := v.bad + [b]).All() == v.All() + [b]
    ensures Last(v.All()) == v.Tip()
  {
  }

  lemma AppendBadKeeps(judge: Judge, v: View, target: Target, known: map<H256, Target>, gs: GlobalState, b: Block)
    requires WellFormed(judge, v)
    requires b.number == |v.All()| && b.parent == v.Tip().Hash()
    requires gs.tip == b.Hash() && gs.reverted == Last(v.trail)
    requires Cached(judge, known)
    requires if v.target.Some? then target == v.target.value else Names(judge, b, target)
    ensures WellFormed(judge, v.(target := Some(target), known := known, bad := v.bad + [b], last := gs))
  {
    var w := v.(target := Some(target), known := known, bad := v.bad + [b], last := gs);
    AllAppend(v, b);
    LinkedAppend(v.All(), b);
    assert w.All() == v.All() + [b];
  }

  lemma MarkedAppend(marks: seq<nat>, states: seq<GlobalState>, trail: seq<set<H256>>, gs: GlobalState)
    requires Marked(marks, states, trail) && marks != [] && trail != []
    requires gs.reverted == Last(trail)
    ensures Marked(marks + [|trail| - 1], states + [gs], trail)
  {
  }

  lemma AppendValidKeeps(judge: Judge, v: View, gs: GlobalState, b: Block)
    requires WellFormed(judge, v)
    requires v.bad == [] && b.number == |v.All()| && b.parent == v.Tip().Hash()
    requires gs.tip == b.Hash() && gs.reverted == Last(v.trail)
    requires b.prev == Last(v.valid).post && judge(b).Accepted?
    ensures WellFormed(judge, AppendValid(v, gs, b))
  {
    AllAppend(v, b);
    LinkedAppend(v.All(), b);
    assert AppendValid(v, gs, b).All() == v.All() + [b];
    MarkedAppend(v.marks, v.states, v.trail, gs);
    assert !Doomed(judge, Last(v.valid));
  }

  lemma SubmitKeeps(judge: Judge, v: View, gs: GlobalState, b: Block)
    requires WellFormed(judge, v)
    requires L1Checked(v, Action(gs, SubmitBlock(b)))
    requires Submit(judge, v, gs, b).Ok?
    ensures WellFormed(judge, Submit(judge, v, gs, b).view)
  {
    if v.target.Some? {
      AppendBadKeeps(judge, v, v.target.value, v.known, gs, b);
    } else if b.Hash() in v.known {
      AppendBadKeeps(judge, v, v.known[b.Hash()], v.known, gs, b);
    } else if judge(b).Challenged? {
      var target := TargetFor(b, judge(b));
      AppendBadKeeps(judge, v, target, v.known[b.Hash() := target], gs, b);
    } else {
      AppendValidKeeps(judge, v, gs, b);
    }
  }

  /** Dropping the end of the bad run. */
  lemma TruncateBad(judge: Judge, v: View, k: nat)
    requires WellFormed(judge, v) && k < |v.bad|
    ensures var w := v.(bad := v.bad[..k]);
      && w.All() == v.All()[..|v.valid| + k]
      && Linked(w.All())
      && v.bad[k].number == |v.valid| + k
      && v.bad[k].parent == w.Tip().Hash()
  {
    var w := v.(bad := v.bad[..k]);
    assert w.All() == v.All()[..|v.valid| + k];
    assert v.bad[k] == v.All()[|v.valid| + k];
    assert w.Tip() == v.All()[|v.valid| + k - 1];
  }

  lemma TrailAppend(marks: seq<nat>, states: seq<GlobalState>, trail: seq<set<H256>>, next: set<H256>)
    requires Ascending(trail) && Marked(marks, states, trail) && Last(trail) < next
    ensures Ascending(trail + [next]) && Marked(marks, states, trail + [next])
  {
  }

  lemma RevertKeeps(judge: Judge, v: View, gs: GlobalState, blocks: seq<Block>)
    requires WellFormed(judge, v)
    requires HashSet(blocks) !! Last(v.trail)
    requires RevertBad(v, gs, blocks).Ok?
    ensures WellFormed(judge, RevertBad(v, gs, blocks).view)
  {
    var k := BadIndex(v, blocks[0]).value;
    TruncateBad(judge, v, k);
    assert RevertBad(v, gs, blocks).view.All() == v.(bad := v.bad[..k]).All();
    assert blocks[0].Hash() in HashSet(blocks);
    TrailAppend(v.marks, v.states, v.trail, Last(v.trail) + HashSet(blocks));
  }

  /** Every action the node survives keeps the chain well formed. */
  lemma StepKeeps(judge: Judge, v: View, a: Action)
    requires WellFormed(judge, v)
    requires L1Checked(v, a)
    requires Step(judge, v, a).Ok?
    ensures WellFormed(judge, Step(judge, v, a).view)
  {
    match a.context
    case SubmitBlock(b) => SubmitKeeps(judge, v, a.global, b);
    case Challenge(_, _, _) =>
    case CancelChallenge =>
    case Revert(bs) => RevertKeeps(judge, v, a.global, bs);
  }

  /** A submitted block keeps the chain well formed exactly when it carries the next number and the
  rollup cell names it as the tip: on top of a bad block the node itself checks neither. */
  lemma SubmitKeepsExactly(judge: Judge, v: View, gs: GlobalState, b: Block)
    requires WellFormed(judge, v)
    requires Submit(judge, v, gs, b).Ok?
    ensures WellFormed(judge, Submit(judge, v, gs, b).view) <==> L1Checked(v, Action(gs, SubmitBlock(b)))
  {
    var w := Submit(judge, v, gs, b).view;
    AllAppend(v, b);
    assert w.All() == v.All() + [b];
    if WellFormed(judge, w) {
      assert w.All()[|v.All()|] == b;
    } else if L1Checked(v, Action(gs, SubmitBlock(b))) {
      SubmitKeeps(judge, v, gs, b);
    }
  }

  /** A bad block numbered 7 on top of bad block 1 is taken in, and leaves a gap in the run. */
  lemma GapIsAccepted()
    ensures exists judge, v, gs, b ::
      && WellFormed(judge, v)
      && Submit(judge, v, gs, b).Ok?
      && !Linked(Submit(judge, v, gs, b).view.All())
  {
    var m := MerkleState(0, 0);
    var genesis := Block(0, ZeroHash, m, m, 0);
    var first := Block(1, genesis.Hash(), m, m, 0);
    var second := Block(7, first.Hash(), m, m, 0);
    var judge: Judge := (b: Block) => if b.number == 0 then Accepted(m) else Challenged(0, TxExecution, m);
    var g0 := GlobalState(Running, genesis.Hash(), map[], 1, {}, m, 0);
    var t := Target(first.Hash(), 0, TxExecution);
    var v := View([genesis], [g0], [0], [first], [{}], Some(t), map[], g0.(tip := first.Hash()));
    var gs := g0.(tip := second.Hash(), blocks := TreeOf(v.All())[7 := second.Hash()]);
    assert v.All() == [genesis, first];
    assert !Doomed(judge, genesis);
    assert WellFormed(judge, v);
    var w := Submit(judge, v, gs, second).view;
    assert w.All()[2] == second;
    assert !Linked(w.All());
  }

  /** A block the node stores itself, before L1 has seen it; a challenge is an error here. */
  function AddLocal(judge: Judge, v: View, gs: GlobalState, b: Block): StepResult
    requires v.valid != [] && v.trail != []
  {
    if b.parent != v.Tip().Hash() then Err
    else if gs.reverted != Last(v.trail) then Panic
    else if b.number != v.Tip().number + 1 || b.prev != Last(v.valid).post then Panic
    else if !judge(b).Accepted? then Err
    else if judge(b).post != b.post then Panic
    else Ok(AppendValid(v, gs, b), Success)
  }

  /** Storing a local block does not look at the challenge target: it keeps the chain well formed exactly
  when there is no bad run and the global state names the block. */
  lemma AddLocalKeepsExactly(judge: Judge, v: View, gs: GlobalState, b: Block)
    requires WellFormed(judge, v) && AddLocal(judge, v, gs, b).Ok?
    ensures WellFormed(judge, AddLocal(judge, v, gs, b).view) <==> v.bad == [] && gs.tip == b.Hash()
  {
    var w := AddLocal(judge, v, gs, b).view;
    assert v.Tip() == Last(v.All());
    if v.bad == [] && gs.tip == b.Hash() {
      AppendValidKeeps(judge, v, gs, b);
    } else {
      assert w.All()[|v.valid|] == b;
    }
  }

  /** Block 2 is stored on top of bad block 1, under number 1. */
  lemma LocalOnBadRun()
    ensures exists judge, v, gs, b ::
      && WellFormed(judge, v) && v.bad != []
      && AddLocal(judge, v, gs, b).Ok?
      && !WellFormed(judge, AddLocal(judge, v, gs, b).view)
  {
    var m := MerkleState(0, 0);
    var genesis := Block(0, ZeroHash, m, m, 0);
    var first := Block(1, genesis.Hash(), m, m, 0);
    var second := Block(2, first.Hash(), m, m, 0);
    var judge: Judge := (b: Block) => if b.number == 1 then Challenged(0, TxExecution, m) else Accepted(m);
    var g0 := GlobalState(Running, genesis.Hash(), map[], 1, {}, m, 0);
    var t := Target(first.Hash(), 0, TxExecution);
    var v := View([genesis], [g0], [0], [first], [{}], Some(t), map[], g0.(tip := first.Hash()));
    var gs := g0.(tip := second.Hash());
    assert v.All() == [genesis, first];
    assert !Doomed(judge, genesis);
    assert WellFormed(judge, v);
    assert AddLocal(judge, v, gs, second).Ok?;
    AddLocalKeepsExactly(judge, v, gs, second);
  }

  // ---------- What the node does with actions L1 would not accept ----------

  /** A fork is an error; a rollup cell or block that contradicts what the node holds trips an
  assertion. */
  lemma SubmitFailsExactly(judge: Judge, v: View, gs: GlobalState, b: Block)
    requires WellFormed(judge, v) && v.last.status == Running
    ensures var r := Step(judge, v, Action(gs, SubmitBlock(b)));
      var child, same := b.parent == v.Tip().Hash(), gs.reverted == Last(v.trail);
      var bad := v.bad != [] || b.Hash() in v.known;
      var next := b.number == |v.valid| && b.prev == Last(v.valid).post;
      var recorded := gs.blocks == TreeOf(v.All())[b.number := b.Hash()];
      && (r.Err? <==> !child || (same && !bad && next && judge(b).Rejected?))
      && (r.Panic? <==>
            && child
            && (!same || (if bad then !recorded
                          else !next || (judge(b).Challenged? && !recorded)
                               || (judge(b).Accepted? && judge(b).post != b.post))))
  {
    assert v.Tip() == Last(v.All());
  }

  /** A challenge of another chain is an error, and one of a block above the tip trips an assertion. */
  lemma ChallengeFailsExactly(judge: Judge, v: View, gs: GlobalState, target: H256, number: nat, verifiable: bool)
    requires WellFormed(judge, v) && v.last.status == Running
    ensures var r := Step(judge, v, Action(gs, Challenge(target, number, verifiable)));
      var same := gs.blocks == TreeOf(v.All());
      && (r.Panic? <==> gs.status == Running || (same && v.bad == [] && number >= |v.valid|))
      && (r.Err? <==>
            && gs.status == Halting
            && (!same || (if v.bad == [] then number < |v.valid| && !verifiable else target != v.bad[0].Hash())))
  {
    assert v.Tip() == Last(v.All());
  }

  /** A revert is taken exactly when it takes the end of the bad run and the rollup cell says so; one that
  starts at or above the run with an unknown block is an error, and everything else trips an assertion. */
  lemma RevertFailsExactly(judge: Judge, v: View, gs: GlobalState, bs: seq<Block>)
    requires WellFormed(judge, v) && v.last.status == Halting
    ensures var r := Step(judge, v, Action(gs, Revert(bs)));
      && (r.Err? <==>
            && gs.status == Running && bs != [] && v.bad != []
            && bs[0].number >= |v.valid| && bs[0] !in v.bad)
      && (r.Ok? <==>
            && gs.status == Running && 0 < |bs| <= |v.bad|
            && var k := |v.bad| - |bs|;
              && bs == v.bad[k..]
              && gs.reverted == Last(v.trail) + HashSet(bs)
              && gs.blocks == TreeOf(v.valid + v.bad[..k]) && gs.count == |v.valid| + k
              && gs.tip == (v.valid + v.bad[..k])[|v.valid| + k - 1].Hash()
              && (k == 0 ==> gs.account == bs[0].prev))
  {
    hide Marked, Accounted, Cached, Sound, TreeOf, HashSet;
    if v.bad != [] && bs != [] {
      BadPositions(v, bs[0]);
      if 0 < |bs| <= |v.bad| && bs == v.bad[|v.bad| - |bs|..] {
        BadPositions(v, v.bad[|v.bad| - |bs|]);
        TruncateBad(judge, v, |v.bad| - |bs|);
      }
    }
  }

  /** A cancelled challenge that leaves the rollup halted, and an action that does not fit the status the
  node holds, trip an assertion. */
  lemma UnexpectedExactly(judge: Judge, v: View, a: Action)
    requires WellFormed(judge, v)
    ensures a.context.CancelChallenge? && v.last.status == Halting ==>
      (Step(judge, v, a).Panic? <==> a.global.status == Halting) && !Step(judge, v, a).Err?
    ensures (v.last.status == Running) != (a.context.SubmitBlock? || a.context.Challenge?) ==> Step(judge, v, a).Panic?
  {
    hide Linked, Marked, Accounted, Cached, Sound;
  }

  /** A local block that forks or that the generator does not accept is an error; one that contradicts what
  the node holds trips an assertion. */
  lemma LocalFailsExactly(judge: Judge, v: View, gs: GlobalState, b: Block)
    requires WellFormed(judge, v)
    ensures var r, child := AddLocal(judge, v, gs, b), b.parent == v.Tip().Hash();
      var fits := gs.reverted == Last(v.trail) && b.number == |v.All()| && b.prev == Last(v.valid).post;
      && (r.Err? <==> !child || (fits && !judge(b).Accepted?))
      && (r.Panic? <==> child && (!fits || (judge(b).Accepted? && judge(b).post != b.post)))
      && (r.Ok? ==>
            && r.view.valid == v.valid + [b] && r.view.states == v.states + [gs] && r.view.last == gs
            && r.view.bad == v.bad && r.view.target == v.target && r.view.trail == v.trail
            && r.event == Success)
  {
    assert v.Tip() == Last(v.All());
  }

  /** Blocks of the bad run stand where their numbers say. */
  lemma BadPositions(v: View, b: Block)
    requires Linked(v.All()) && v.bad != []
    ensures v.bad[0].number == |v.valid|
    ensures BadIndex(v, b).Some? <==> b in v.bad
    ensures forall k: nat | k < |v.bad| && v.bad[k] == b :: BadIndex(v, b) == Some(k)
  {
    assert forall k: nat | k < |v.bad| :: v.bad[k] == v.All()[|v.valid| + k];
  }

  // ---------- Runs ----------

  /** The view after one action; an action answered with an error changes nothing. */
  function After(judge: Judge, v: View, a: Action): View
    requires v.valid != [] && v.trail != [] && (v.target.Some? ==> v.bad != [])
  {
    var r := Step(judge, v, a);
    if r.Ok? then r.view else v
  }

  /** A run of actions, one at a time, that never ends the process. */
  ghost predicate RunsTo(judge: Judge, v: View, actions: seq<Action>, w: View)
    decreases |actions|
  {
    if actions == [] then w == v
    else
      && WellFormed(judge, v)
      && L1Checked(v, actions[0])
      && !Step(judge, v, actions[0]).Panic?
      && RunsTo(judge, After(judge, v, actions[0]), actions[1..], w)
  }

  ghost predicate Extends(v: View, w: View) {
    v.valid <= w.valid && v.states <= w.states && v.marks <= w.marks && v.trail <= w.trail
  }

  lemma StepExtends(judge: Judge, v: View, a: Action)
    requires v.valid != [] && v.trail != [] && (v.target.Some? ==> v.bad != [])
    ensures Extends(v, After(judge, v, a))
  {
    if Step(judge, v, a).Ok? {
      match a.context
      case SubmitBlock(b) =>
        assert Submit(judge, v, a.global, b).view == Step(judge, v, a).view;
      case Challenge(_, _, _) =>
      case CancelChallenge =>
      case Revert(bs) =>
    }
  }

  /** In every run the chain stays well formed, and what was valid before it is still there. */
  lemma {:induction false} RunKeeps(judge: Judge, v: View, actions: seq<Action>, w: View)
    requires WellFormed(judge, v)
    requires RunsTo(judge, v, actions, w)
    ensures WellFormed(judge, w) && Extends(v, w)
    decreases |actions|
  {
    if actions != [] {
      var next := After(judge, v, actions[0]);
      assert WellFormed(judge, next) by {
        if Step(judge, v, actions[0]).Ok? {
          StepKeeps(judge, v, actions[0]);
        }
      }
      assert RunsTo(judge, next, actions[1..], w);
      RunKeeps(judge, next, actions[1..], w);
      StepExtends(judge, v, actions[0]);
    }
  }

  // ---------- Undo ----------

  /** Take back reverted-block sets until `root` is the current one. */
  function CutTrail(trail: seq<set<H256>>, root: set<H256>): (r: Option<seq<set<H256>>>)
    requires trail != []
    ensures r.Some? <==> root in trail
    ensures r.Some? ==> r.value != [] && r.value <= trail && Last(r.value) == root
  {
    if Last(trail) == root then Some(trail)
    else if |trail| == 1 then None
    else CutTrail(Init(trail), root)
  }

  lemma {:induction false} CutTrailAt(trail: seq<set<H256>>, k: nat)
    requires Ascending(trail) && k < |trail|
    ensures CutTrail(trail, trail[k]) == Some(trail[..k + 1])
  {
    if k == |trail| - 1 {
      assert trail[..k + 1] == trail;
    } else {
      assert trail[k] < Last(trail);
      CutTrailAt(Init(trail), k);
      assert Init(trail)[..k + 1] == trail[..k + 1];
    }
  }

  /** Back to the last valid block, whatever bad blocks, challenges and reverts came after it. */
  function Rewind(v: View, prev: GlobalState): Option<View>
    requires v.states != [] && v.trail != []
  {
    match CutTrail(v.trail, Last(v.states).reverted)
    case None => None
    case Some(trail) =>
      Some(v.(bad := [], trail := trail, target := None, known := v.known - HashSet(v.bad), last := prev))
  }

  /** Detach the last valid block. */
  function RevertSubmit(v: View, b: Block, prev: GlobalState): Option<View>
    requires v.valid != [] && |v.states| == |v.marks| == |v.valid| && v.trail != []
  {
    if v.target.Some? || v.bad != [] || b != Last(v.valid) || v.last != Last(v.states) || |v.valid| == 1 then None
    else match CutTrail(v.trail, prev.reverted)
      case None => None
      case Some(trail) =>
        Some(v.(valid := Init(v.valid), states := Init(v.states), marks := Init(v.marks), trail := trail,
                target := None, last := prev))
  }

  /** Detach valid blocks until block `n` is the tip. */
  function RevertTo(v: View, n: nat): Option<View>
    requires v.valid != [] && |v.states| == |v.marks| == |v.valid| && v.trail != []
    decreases |v.valid|
  {
    if |v.valid| - 1 <= n then Some(v)
    else match RevertSubmit(v, Last(v.valid), v.states[|v.states| - 2])
      case None => None
      case Some(w) => RevertTo(w, n)
  }

  /** Nothing has happened since the last valid block was attached. */
  ghost predicate Clean(v: View) {
    v.bad == [] && v.states != [] && v.last == Last(v.states)
  }

  /** The view held when `valid[n]` was attached. */
  function Prefix(v: View, n: nat): View
    requires n < |v.valid| == |v.states| == |v.marks|
    requires v.marks[n] < |v.trail|
  {
    v.(valid := v.valid[..n + 1], states := v.states[..n + 1], marks := v.marks[..n + 1],
       bad := [], trail := v.trail[..v.marks[n] + 1], target := None, last := v.states[n])
  }

  lemma MarkedPrefix(marks: seq<nat>, states: seq<GlobalState>, trail: seq<set<H256>>, n: nat)
    requires Ascending(trail) && Marked(marks, states, trail) && n < |marks|
    ensures Ascending(trail[..marks[n] + 1])
    ensures Marked(marks[..n + 1], states[..n + 1], trail[..marks[n] + 1])
    ensures Last(trail[..marks[n] + 1]) == states[n].reverted
  {
  }

  lemma PrefixKeeps(judge: Judge, v: View, n: nat)
    requires WellFormed(judge, v) && n < |v.valid|
    ensures WellFormed(judge, Prefix(v, n)) && Clean(Prefix(v, n))
  {
    var w := Prefix(v, n);
    MarkedPrefix(v.marks, v.states, v.trail, n);
    LinkedPrefix(v.All(), n + 1);
    assert w.All() == v.All()[..n + 1];
    assert w.Tip() == v.valid[n];
    assert Accounted(w.valid, w.states);
    assert Sound(judge, w.valid);
  }

  lemma RewindExact(judge: Judge, v: View)
    requires WellFormed(judge, v)
    ensures Rewind(v, Last(v.states)) == Some(Prefix(v, |v.valid| - 1).(known := v.known - HashSet(v.bad)))
  {
    var n := |v.valid| - 1;
    CutTrailAt(v.trail, v.marks[n]);
    var w := Rewind(v, Last(v.states)).value;
    assert w.valid == v.valid[..n + 1];
    assert w.states == v.states[..n + 1];
    assert w.marks == v.marks[..n + 1];
  }

  lemma CleanIsPrefix(judge: Judge, v: View)
    requires WellFormed(judge, v) && Clean(v)
    ensures Prefix(v, |v.valid| - 1) == v
  {
    var k := Last(v.marks);
    assert v.trail[k] == Last(v.trail);
    assert v.trail[..k + 1] == v.trail;
    assert v.valid[..|v.valid|] == v.valid && v.states[..|v.valid|] == v.states && v.marks[..|v.valid|] == v.marks;
  }

  lemma PrefixOfPrefix(judge: Judge, v: View, m: nat, n: nat)
    requires WellFormed(judge, v) && n <= m < |v.valid|
    ensures Prefix(Prefix(v, m), n) == Prefix(v, n)
  {
    assert v.marks[n] <= v.marks[m];
    assert v.trail[..v.marks[m] + 1][..v.marks[n] + 1] == v.trail[..v.marks[n] + 1];
    assert v.valid[..m + 1][..n + 1] == v.valid[..n + 1];
    assert v.states[..m + 1][..n + 1] == v.states[..n + 1];
    assert v.marks[..m + 1][..n + 1] == v.marks[..n + 1];
  }

  lemma RevertSubmitExact(judge: Judge, v: View)
    requires WellFormed(judge, v) && Clean(v) && |v.valid| > 1
    ensures RevertSubmit(v, Last(v.valid), v.states[|v.states| - 2]) == Some(Prefix(v, |v.valid| - 2))
  {
    CutTrailAt(v.trail, v.marks[|v.marks| - 2]);
  }

  /** Looping the single revert down to block `n` never fails and yields the chain held when `n` was
  attached. */
  lemma {:induction false} RevertToExact(judge: Judge, v: View, n: nat)
    requires WellFormed(judge, v) && Clean(v) && n < |v.valid|
    ensures RevertTo(v, n) == Some(Prefix(v, n))
    decreases |v.valid|
  {
    if |v.valid| - 1 <= n {
      CleanIsPrefix(judge, v);
    } else {
      var m := |v.valid| - 2;
      RevertSubmitExact(judge, v);
      PrefixKeeps(judge, v, m);
      RevertToExact(judge, Prefix(v, m), n);
      PrefixOfPrefix(judge, v, m, n);
    }
  }

  lemma PrefixStable(judge: Judge, v: View, w: View)
    requires WellFormed(judge, v) && WellFormed(judge, w) && Clean(v) && Extends(v, w)
    ensures Prefix(w, |v.valid| - 1) == v.(known := w.known)
  {
    var n := |v.valid| - 1;
    CleanIsPrefix(judge, v);
    assert w.valid[..n + 1] == v.valid && w.states[..n + 1] == v.states && w.marks[..n + 1] == v.marks;
    assert w.marks[n] == v.marks[n];
    assert w.trail[..w.marks[n] + 1] == v.trail[..v.marks[n] + 1];
  }

  lemma ForgetKeeps(judge: Judge, v: View, known: map<H256, Target>)
    requires WellFormed(judge, v) && Cached(judge, known)
    ensures WellFormed(judge, v.(known := known))
  {
    assert v.(known := known).All() == v.All();
  }

  lemma RewindKeeps(judge: Judge, w: View)
    requires WellFormed(judge, w)
    ensures var back := Rewind(w, Last(w.states));
      && back == Some(Prefix(w, |w.valid| - 1).(known := w.known - HashSet(w.bad)))
      && WellFormed(judge, back.value) && Clean(back.value)
  {
    RewindExact(judge, w);
    PrefixKeeps(judge, w, |w.valid| - 1);
    ForgetKeeps(judge, Prefix(w, |w.valid| - 1), w.known - HashSet(w.bad));
  }

  lemma PrefixThrough(judge: Judge, w: View, back: View, n: nat)
    requires WellFormed(judge, w) && n < |w.valid|
    requires back == Prefix(w, |w.valid| - 1).(known := back.known)
    ensures n < |back.valid| == |back.states| == |back.marks| && back.marks[n] < |back.trail|
    ensures Prefix(back, n) == Prefix(w, n).(known := back.known)
  {
    PrefixOfPrefix(judge, w, |w.valid| - 1, n);
  }

  /** Rewinding to the last valid block and then looping the revert never fails. */
  lemma UndoExact(judge: Judge, w: View, back: View, n: nat)
    requires WellFormed(judge, w) && n < |w.valid|
    requires WellFormed(judge, back) && Clean(back)
    requires back == Prefix(w, |w.valid| - 1).(known := back.known)
    ensures RevertTo(back, n) == Some(Prefix(w, n).(known := back.known))
  {
    PrefixThrough(judge, w, back, n);
    RevertToExact(judge, back, n);
  }

  /** Undo is exact: after any run from a clean tip, rewinding to the last valid block and looping the
  revert brings back the very chain the run began with.  Only remembered challenge targets differ. */
  lemma UndoRun(judge: Judge, v: View, actions: seq<Action>, w: View)
    requires WellFormed(judge, v) && Clean(v)
    requires RunsTo(judge, v, actions, w)
    ensures WellFormed(judge, w)
    ensures var back := Rewind(w, Last(w.states));
      && back.Some?
      && WellFormed(judge, back.value)
      && RevertTo(back.value, |v.valid| - 1) == Some(v.(known := back.value.known))
  {
    RunKeeps(judge, v, actions, w);
    RewindKeeps(judge, w);
    UndoExact(judge, w, Rewind(w, Last(w.states)).value, |v.valid| - 1);
    PrefixStable(judge, v, w);
  }

  // ---------- A node that follows L1 ----------

  /** Declared account states follow on along the whole chain, and the node's global state is the one
  in the rollup cell. */
  ghost predicate Mirrors(v: View) {
    && v.valid != []
    && (forall i: nat, j: nat | i + 1 == j < |v.All()| :: v.All()[j].prev == v.All()[i].post)
    && v.last.blocks == TreeOf(v.All())
    && v.last.account == v.Tip().post
  }

  /** The action and the rollup cell are ones the L1 type script accepts, no valid block is reverted,
  and the generator's final state, when it accepts a block, is the declared one. */
  ghost predicate Faithful(judge: Judge, v: View, a: Action)
    requires WellFormed(judge, v)
  {
    && L1Checked(v, a)
    && match a.context
       case SubmitBlock(b) =>
         && v.last.status == Running
         && b.parent == v.last.tip
         && b.prev == v.last.account
         && a.global.reverted == v.last.reverted
         && a.global.blocks == v.last.blocks[b.number := b.Hash()]
         && a.global.account == b.post
         && (judge(b).Accepted? ==> judge(b).post == b.post)
       case Challenge(t, n, _) =>
         && v.last.status == Running && a.global.status == Halting
         && n in v.last.blocks && v.last.blocks[n] == t
       case CancelChallenge =>
         v.last.status == Halting && a.global.status == Running
       case Revert(bs) =>
         && v.last.status == Halting
         && bs != [] && BadIndex(v, bs[0]).Some?
         && bs == v.bad[BadIndex(v, bs[0]).value..]
         && a.global == RevertedState(v.last, bs)
  }

  /** The rollup cell after reverting `bs`, the run that ends at the tip. */
  function RevertedState(prev: GlobalState, bs: seq<Block>): GlobalState
    requires bs != []
  {
    prev.(status := Running,
          tip := bs[0].parent,
          blocks := prev.blocks - (set b | b in bs :: b.number),
          count := bs[0].number,
          reverted := prev.reverted + HashSet(bs),
          account := bs[0].prev)
  }

  /** Clearing the keys of the end of a linked chain leaves the tree of its beginning. */
  lemma TreeMinus(bs: seq<Block>, k: nat)
    requires Linked(bs) && k <= |bs|
    ensures TreeOf(bs) - (set b | b in bs[k..] :: b.number) == TreeOf(bs[..k])
  {
    var keys := set b | b in bs[k..] :: b.number;
    forall i: nat | k <= i < |bs|
      ensures i in keys
    {
      assert bs[i] == bs[k..][i - k];
    }
  }

  lemma TreeAppend(bs: seq<Block>, b: Block)
    requires b.number == |bs|
    ensures TreeOf(bs + [b]) == TreeOf(bs)[b.number := b.Hash()]
  {
  }

  lemma MirrorsAppend(v: View, w: View, b: Block)
    requires Mirrors(v) && w.valid != [] && w.All() == v.All() + [b]
    requires b.number == |v.All()| && b.prev == v.Tip().post
    requires w.last.blocks == TreeOf(v.All())[b.number := b.Hash()] && w.last.account == b.post
    ensures Mirrors(w)
  {
    TreeAppend(v.All(), b);
    assert w.Tip() == Last(w.All());
    assert v.Tip() == Last(v.All());
  }

  lemma SubmitMirrors(judge: Judge, v: View, a: Action)
    requires WellFormed(judge, v) && Mirrors(v) && Faithful(judge, v, a) && a.context.SubmitBlock?
    ensures !Step(judge, v, a).Panic?
    ensures Step(judge, v, a).Ok? ==> Mirrors(Step(judge, v, a).view)
  {
    var b := a.context.block;
    assert v.Tip() == Last(v.All());
    var r := Submit(judge, v, a.global, b);
    assert !r.Panic?;
    if r.Ok? {
      assert r.view.All() == v.All() + [b];
      MirrorsAppend(v, r.view, b);
    }
  }

  lemma RevertedBlocks(v: View, k: nat)
    requires Linked(v.All()) && v.last.blocks == TreeOf(v.All()) && k < |v.bad|
    ensures RevertedState(v.last, v.bad[k..]).blocks == TreeOf(v.valid + v.bad[..k])
    ensures v.bad[k].number == |v.valid| + k
  {
    var all, m := v.All(), |v.valid| + k;
    assert all[m..] == v.bad[k..];
    assert v.valid + v.bad[..k] == all[..m];
    TreeMinus(all, m);
    assert v.bad[k] == all[m];
  }

  lemma RevertBadOk(u: View, gs: GlobalState, k: nat)
    requires u.trail != [] && u.target.Some? && k < |u.bad|
    requires u.bad[0].number == |u.valid| && u.bad[k].number == |u.valid| + k
    requires gs.status == Running && gs.reverted == Last(u.trail) + HashSet(u.bad[k..])
    requires gs.blocks == TreeOf(u.valid + u.bad[..k]) && gs.count == u.bad[k].number
    requires gs.tip == u.bad[k].parent && gs.account == u.bad[k].prev
    ensures var r := RevertBad(u, gs, u.bad[k..]);
      && r.Ok?
      && r.view.valid == u.valid && r.view.bad == u.bad[..k]
      && r.view.target == (if k == 0 then None else u.target)
      && r.view.last == gs
      && r.view == u.(bad := r.view.bad, target := r.view.target, trail := r.view.trail, last := gs)
      && r.view.trail == u.trail + [gs.reverted]
      && r.event == if k == 0 then Success else BadBlock(u.target.value)
  {
    assert u.bad[k..][0] == u.bad[k];
    assert BadIndex(u, u.bad[k]) == Some(k);
  }

  /** Reverting the bad run from position `k` on, with the rollup cell L1 computes for it, passes every
  assertion of the revert branch on any node that holds the same chain. */
  lemma RevertPasses(judge: Judge, v: View, u: View, k: nat)
    requires WellFormed(judge, v) && Mirrors(v) && k < |v.bad|
    requires u.trail != [] && u.target.Some? && u.last.status == Halting
    requires u.valid == v.valid && u.bad == v.bad && Last(u.trail) == Last(v.trail)
    ensures var r := Step(judge, u, Action(RevertedState(v.last, v.bad[k..]), Revert(v.bad[k..])));
      && r.Ok?
      && r.view.valid == u.valid && r.view.bad == u.bad[..k]
      && r.view.target == (if k == 0 then None else u.target)
      && r.view.last == RevertedState(v.last, v.bad[k..])
  {
    RevertedBlocks(v, 0);
    RevertedBlocks(v, k);
    RevertBadOk(u, RevertedState(v.last, v.bad[k..]), k);
  }

  lemma RevertMirrors(judge: Judge, v: View, a: Action)
    requires WellFormed(judge, v) && Mirrors(v) && Faithful(judge, v, a) && a.context.Revert?
    ensures Step(judge, v, a).Ok? && Mirrors(Step(judge, v, a).view)
  {
    hide Marked, Accounted, Cached, Sound;
    var k := BadIndex(v, a.context.blocks[0]).value;
    RevertPasses(judge, v, v, k);
    TruncateBad(judge, v, k);
    var all, m, w := v.All(), |v.valid| + k, Step(judge, v, a).view;
    assert w.All() == all[..m];
    assert all[m..] == v.bad[k..];
    TreeMinus(all, m);
    assert v.bad[k] == all[m];
    assert w.Tip() == all[m - 1];
  }

  /** What a block that L1 accepted leads to: on a clean tip the generator decides whether it is attached,
  becomes the first bad block under the generator's own target, or is an error; on a bad run it is one more
  bad block. */
  lemma SubmitAnswer(judge: Judge, v: View, a: Action)
    requires WellFormed(judge, v) && Mirrors(v) && Faithful(judge, v, a) && a.context.SubmitBlock?
    ensures var b, r := a.context.block, Step(judge, v, a);
      && (r.Err? <==> v.bad == [] && judge(b).Rejected?)
      && (r.Ok? ==> r.view.last == a.global && r.view.trail == v.trail && r.view.All() == v.All() + [b])
      && (v.bad == [] && judge(b).Accepted? ==>
            && r.Ok? && r.event == Success
            && r.view.valid == v.valid + [b] && r.view.bad == [] && r.view.target == None
            && r.view.states == v.states + [a.global] && r.view.known == v.known)
      && (v.bad == [] && judge(b).Challenged? ==>
            var t := Target(b.Hash(), judge(b).index, judge(b).kind);
            && r.Ok? && r.event == BadBlock(t)
            && r.view.bad == [b] && r.view.target == Some(t)
            && r.view.valid == v.valid && r.view.states == v.states && r.view.known == v.known[b.Hash() := t])
      && (v.bad != [] ==>
            && r.Ok? && r.event == BadBlock(v.target.value)
            && r.view.bad == v.bad + [b] && r.view.target == v.target
            && r.view.valid == v.valid && r.view.states == v.states && r.view.known == v.known)
  {
    var b, r := a.context.block, Step(judge, v, a);
    assert v.Tip() == Last(v.All());
    if v.bad == [] && b.Hash() in v.known {
      assert Names(judge, b, v.known[b.Hash()]);
      assert v.known[b.Hash() := v.known[b.Hash()]] == v.known;
    }
    if r.Ok? {
      assert r.view.All() == v.All() + [b];
    }
  }

  /** What a challenge that L1 accepted leads to: with no bad run the node cancels it, if it can build the
  verification; with one it waits for the revert of the whole run if its first block is the target, and
  reports an error otherwise.  Only the rollup cell moves. */
  lemma ChallengeAnswer(judge: Judge, v: View, a: Action)
    requires WellFormed(judge, v) && Mirrors(v) && Faithful(judge, v, a) && a.context.Challenge?
    ensures var r := Step(judge, v, a);
      && (r.Err? <==> if v.bad == [] then !a.context.verifiable else a.context.target != v.bad[0].Hash())
      && (r.Ok? ==>
            && r.view == v.(last := v.last.(status := Halting))
            && r.event == if v.bad == [] then BadChallenge else WaitChallenge(v.bad))
  {
    assert v.Tip() == Last(v.All());
  }

  /** After a cancelled challenge the node challenges the first bad block, if it has one. */
  lemma CancelAnswer(judge: Judge, v: View, a: Action)
    requires WellFormed(judge, v) && Faithful(judge, v, a) && a.context.CancelChallenge?
    ensures v.bad != [] ==>
      var t := Target(v.bad[0].Hash(), judge(v.bad[0]).index, judge(v.bad[0]).kind);
      Step(judge, v, a) == Ok(v.(last := v.last.(status := Running)), BadBlock(t))
    ensures v.bad == [] ==> Step(judge, v, a) == Ok(v.(last := v.last.(status := Running)), Success)
  {
    hide Linked, Marked, Accounted, Ascending, Cached;
  }

  /** After a revert the run is cut before the first reverted block, and the reverted set is logged; the
  node goes on challenging what is left of the run. */
  lemma RevertAnswer(judge: Judge, v: View, a: Action)
    requires WellFormed(judge, v) && Mirrors(v) && Faithful(judge, v, a) && a.context.Revert?
    ensures var k, r := |v.bad| - |a.context.blocks|, Step(judge, v, a);
      && 0 <= k < |v.bad|
      && r.Ok?
      && r.view == v.(bad := v.bad[..k], target := if k == 0 then None else v.target,
                      trail := v.trail + [Last(v.trail) + HashSet(a.context.blocks)], last := a.global)
      && r.event == if k == 0 then Success else BadBlock(v.target.value)
  {
    hide Marked, Accounted, Cached, Sound;
    var k := BadIndex(v, a.context.blocks[0]).value;
    RevertPasses(judge, v, v, k);
    RevertedBlocks(v, 0);
    RevertedBlocks(v, k);
    RevertBadOk(v, a.global, k);
  }

  /** The node answers with an error and stays as it is: the generator cannot run the block, or the
  challenge is one the node can neither cancel nor answer with a revert. */
  ghost predicate Refuses(judge: Judge, v: View, context: Context) {
    match context
    case SubmitBlock(b) => v.bad == [] && judge(b).Rejected?
    case Challenge(t, _, verifiable) => if v.bad == [] then !verifiable else t != v.bad[0].Hash()
    case _ => false
  }

  /** A node that is fed what L1 accepts never trips an assertion, refuses only what it has to, and keeps
  mirroring the rollup cell. */
  lemma FaithfulStep(judge: Judge, v: View, a: Action)
    requires WellFormed(judge, v) && Mirrors(v) && Faithful(judge, v, a)
    ensures !Step(judge, v, a).Panic?
    ensures Step(judge, v, a).Err? <==> Refuses(judge, v, a.context)
    ensures !Refuses(judge, v, a.context) ==> After(judge, v, a).last == a.global
    ensures WellFormed(judge, After(judge, v, a)) && Mirrors(After(judge, v, a))
  {
    hide WellFormed, Mirrors, Faithful, Step, L1Checked;
    StepDefined(judge, v, a);
    match a.context {
      case SubmitBlock(_) =>
        SubmitAnswer(judge, v, a);
        SubmitMirrors(judge, v, a);
      case Challenge(_, _, _) =>
        ChallengeAnswer(judge, v, a);
        StatusMirrors(judge, v, a);
      case CancelChallenge =>
        CancelAnswer(judge, v, a);
        StatusMirrors(judge, v, a);
      case Revert(_) =>
        RevertAnswer(judge, v, a);
        RevertMirrors(judge, v, a);
    }
    if Step(judge, v, a).Ok? {
      StepKeeps(judge, v, a);
    }
  }

  lemma StepDefined(judge: Judge, v: View, a: Action)
    requires WellFormed(judge, v)
    ensures v.valid != [] && v.trail != [] && (v.target.Some? ==> v.bad != [])
    ensures Faithful(judge, v, a) ==> L1Checked(v, a)
  {
  }

  lemma StatusMirrors(judge: Judge, v: View, a: Action)
    requires WellFormed(judge, v) && Mirrors(v) && Faithful(judge, v, a)
    requires a.context.Challenge? || a.context.CancelChallenge?
    ensures !Step(judge, v, a).Panic?
    ensures Step(judge, v, a).Ok? ==> Step(judge, v, a).view.last == a.global && Mirrors(Step(judge, v, a).view)
  {
    assert v.Tip() == Last(v.All());
  }

  ghost predicate FaithfulRun(judge: Judge, v: View, actions: seq<Action>)
    decreases |actions|
  {
    actions != [] && WellFormed(judge, v) ==>
      && Faithful(judge, v, actions[0])
      && FaithfulRun(judge, After(judge, v, actions[0]), actions[1..])
  }

  /** Whatever L1 accepts, in any order and number, the node follows without tripping an assertion. */
  lemma {:induction false} FaithfulRunIsSafe(judge: Judge, v: View, actions: seq<Action>) returns (w: View)
    requires WellFormed(judge, v) && Mirrors(v) && FaithfulRun(judge, v, actions)
    ensures RunsTo(judge, v, actions, w) && WellFormed(judge, w) && Mirrors(w)
    decreases |actions|
  {
    if actions == [] {
      return v;
    }
    FaithfulStep(judge, v, actions[0]);
    w := FaithfulRunIsSafe(judge, After(judge, v, actions[0]), actions[1..]);
  }
}
