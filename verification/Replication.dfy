/** A block producer publishes what it does; a follower that applies the messages keeps the producer's
chain and pointers, whatever the schedule of the producer's loop and tasks. */
module Replication {
  import opened RollupTypes
  import opened AbstractChain
  import opened Wrappers
  import opened Follower
  import Psc
  import SyncL1

  /** The block continues a chain and the generator accepts it; `global` gives every block's state. */
  ghost predicate Continues(judge: Judge, global: Block -> GlobalState, chain: seq<Block>, b: Block) {
    && chain != []
    && b.number == |chain| && b.parent == Last(chain).Hash() && b.prev == Last(chain).post
    && judge(b) == Accepted(b.post)
    && global(b).tip == b.Hash() && global(b).reverted == global(Last(chain)).reverted
  }

  ghost predicate Sequel(judge: Judge, global: Block -> GlobalState, chain: seq<Block>, from: nat) {
    forall k: nat | 0 < from <= k < |chain| :: Continues(judge, global, chain[..k], chain[k])
  }

  /** Blocks are built on the producer's chain, and a resync leaves a store of accepted blocks. */
  ghost predicate Publishable(judge: Judge, global: Block -> GlobalState, s: Psc.State, e: Psc.Event) {
    match e
    case SelectTick(Some(b), _) => Continues(judge, global, s.store.chain, b)
    case Restart(st) =>
      && SyncL1.Inv(st) && !st.chain[0].parent.BlockHash?
      && Sequel(judge, global, st.chain, st.confirmed.number + 1)
    case _ => true
  }

  function Announce(global: Block -> GlobalState, chain: seq<Block>, from: nat): seq<Message>
    decreases |chain| - from
  {
    if from >= |chain| then []
    else [LocalBlock(chain[from], global(chain[from]))] + Announce(global, chain, from + 1)
  }

  /** What the producer publishes in a step: a produced block goes out before it is stored, and is not
  taken back when storing it fails. */
  function Messages(global: Block -> GlobalState, s: Psc.State, e: Psc.Event): seq<Message> {
    match e
    case SelectTick(Some(b), _) => [LocalBlock(b, global(b))]
    case SelectSubmitted =>
      if s.submit.Sent? && s.submit.next.number in s.store.txs
      then [Submitted(s.submit.next, s.store.txs[s.submit.next.number].id)] else []
    case SelectConfirmed => if s.confirm.Committed? then [Confirmed(s.confirm.next)] else []
    case Restart(st) => [Message.Revert(st.submitted)] + Announce(global, st.chain, st.confirmed.number + 1)
    case _ => []
  }

  /** A follower with no bad blocks whose stored states are the published ones. */
  ghost predicate Ready(judge: Judge, global: Block -> GlobalState, v: View) {
    && Rooted(judge, v) && Clean(v)
    && forall i: nat | i < |v.valid| :: v.states[i] == global(v.valid[i])
  }

  /** The follower holds the producer's chain, perhaps with more on top, and the same pointers. */
  ghost predicate InSync(judge: Judge, global: Block -> GlobalState, store: SyncL1.Store, f: State) {
    && Ready(judge, global, f.view)
    && store.chain <= f.view.valid
    && f.submitted == store.submitted && f.confirmed == store.confirmed
  }

  /** The follower knows the transaction that submitted each block. */
  ghost predicate SameTxs(store: SyncL1.Store, f: State) {
    forall n: nat | n <= store.submitted.number && n in store.txs :: n in f.txs && f.txs[n] == store.txs[n].id
  }

  lemma ReadyUsable(judge: Judge, global: Block -> GlobalState, v: View)
    requires Ready(judge, global, v)
    ensures Usable(v) && v.bad == [] && v.target == None && |v.states| == |v.valid|
    ensures Last(v.trail) == Last(v.states).reverted == global(Last(v.valid)).reverted
    ensures v.Tip() == Last(v.valid) && Last(v.valid).number == |v.valid| - 1
  {
    assert v.Tip() == Last(v.All());
  }

  /** A block that continues the whole valid chain is added. */
  lemma AddReplicates(judge: Judge, global: Block -> GlobalState, s: State, b: Block)
    requires Ready(judge, global, s.view) && Continues(judge, global, s.view.valid, b)
    ensures Usable(s.view)
    ensures var r := Add(judge, s, b, global(b));
      && r.Done?
      && r.state == s.(view := AppendValid(s.view, global(b), b))
      && Ready(judge, global, r.state.view)
  {
    ReadyUsable(judge, global, s.view);
    AddLocalKeepsExactly(judge, s.view, global(b), b);
  }

  lemma CutReady(judge: Judge, global: Block -> GlobalState, v: View, n: nat)
    requires Ready(judge, global, v) && n < |v.valid|
    ensures Usable(v) && RevertTo(v, n).Some?
    ensures var w := RevertTo(v, n).value;
      Ready(judge, global, w) && w.valid == v.valid[..n + 1] && Usable(w)
  {
    ReadyUsable(judge, global, v);
    RevertToExact(judge, v, n);
    PrefixKeeps(judge, v, n);
  }

  ghost predicate KeepsBelow(n: nat, txs: map<nat, nat>, kept: map<nat, nat>) {
    forall k: nat | k < n && k in txs :: k in kept && kept[k] == txs[k]
  }

  /** Whatever the follower held above it, a block that continues a common prefix ends up right behind it,
  and pointers inside the prefix do not move. */
  lemma HandleReplicates(judge: Judge, global: Block -> GlobalState, s: State, p: seq<Block>, b: Block)
    requires Ready(judge, global, s.view) && p <= s.view.valid && Continues(judge, global, p, b)
    requires s.submitted.number < |p| && s.confirmed.number < |p|
    ensures Usable(s.view)
    ensures var r := HandleLocal(judge, s, b, global(b));
      && r.Done?
      && r.state == s.(view := r.state.view, txs := r.state.txs)
      && KeepsBelow(|p|, s.txs, r.state.txs)
      && Ready(judge, global, r.state.view)
      && p + [b] <= r.state.view.valid
  {
    hide Ready, RevertTo, Add, AddLocal;
    ReadyUsable(judge, global, s.view);
    if Known(s.view, b) {
      assert s.view.valid[..|p| + 1] == p + [b];
    } else if b.number >= |s.view.valid| {
      assert p == s.view.valid;
      AddReplicates(judge, global, s, b);
    } else {
      CutReady(judge, global, s.view, b.number - 1);
      var w := RevertTo(s.view, b.number - 1).value;
      assert w.valid == p;
      AddReplicates(judge, global, Cut(s, w, b.number - 1), b);
    }
  }

  lemma {:induction false} AnnounceReplicates(judge: Judge, global: Block -> GlobalState, s: State, chain: seq<Block>,
                                              from: nat)
    requires 0 < from <= |chain| && Sequel(judge, global, chain, from)
    requires Ready(judge, global, s.view) && chain[..from] <= s.view.valid
    requires s.submitted.number < from && s.confirmed.number < from
    ensures Usable(s.view)
    ensures var r := ApplyAll(judge, s, Announce(global, chain, from));
      && r.Done?
      && r.state == s.(view := r.state.view, txs := r.state.txs)
      && Ready(judge, global, r.state.view)
      && chain <= r.state.view.valid
    decreases |chain| - from
  {
    hide Ready, HandleLocal, Continues;
    ReadyUsable(judge, global, s.view);
    if from == |chain| {
      assert chain[..from] == chain;
    } else {
      var b := chain[from];
      HandleReplicates(judge, global, s, chain[..from], b);
      var next := HandleLocal(judge, s, b, global(b)).state;
      assert chain[..from + 1] == chain[..from] + [b];
      ReadyUsable(judge, global, next.view);
      AnnounceReplicates(judge, global, next, chain, from + 1);
      var msgs := Announce(global, chain, from);
      assert msgs[0] == LocalBlock(b, global(b)) && msgs[1..] == Announce(global, chain, from + 1);
      assert Apply(judge, s, msgs[0]) == Done(next);
    }
  }

  lemma OneMessage(judge: Judge, f: State, msg: Message)
    requires Usable(f.view)
    ensures var r := Apply(judge, f, msg);
      r.Done? && Usable(r.state.view) ==> ApplyAll(judge, f, [msg]) == r
  {
    hide Apply;
    assert [msg][1..] == [];
  }

  lemma NothingSent(judge: Judge, f: State)
    requires Usable(f.view)
    ensures ApplyAll(judge, f, []) == Done(f)
  {
  }

  /** A produced block reaches the follower, whether the producer stores it or not. */
  lemma BlockReplicates(judge: Judge, global: Block -> GlobalState, store: SyncL1.Store, f: State, b: Block)
    requires InSync(judge, global, store, f) && Continues(judge, global, store.chain, b)
    requires store.submitted.number < |store.chain| && store.confirmed.number < |store.chain|
    ensures Usable(f.view)
    ensures var r := ApplyAll(judge, f, [LocalBlock(b, global(b))]);
      && r.Done?
      && InSync(judge, global, store, r.state)
      && InSync(judge, global, store.(chain := store.chain + [b]), r.state)
      && (SameTxs(store, f) ==> SameTxs(store, r.state))
  {
    hide Ready, HandleLocal, Continues, ApplyAll;
    HandleReplicates(judge, global, f, store.chain, b);
    ReadyUsable(judge, global, HandleLocal(judge, f, b, global(b)).state.view);
    OneMessage(judge, f, LocalBlock(b, global(b)));
  }

  /** A moved pointer reaches the follower. */
  lemma PointerReplicates(judge: Judge, global: Block -> GlobalState, store: SyncL1.Store, f: State, nh: NumberHash)
    requires InSync(judge, global, store, f) && OnChain(store.chain, nh)
    ensures Usable(f.view)
    ensures var r := ApplyAll(judge, f, [Confirmed(nh)]);
      r.Done? && r.state == f.(confirmed := nh) && InSync(judge, global, store.(confirmed := nh), r.state)
    ensures forall tx :: var r := ApplyAll(judge, f, [Submitted(nh, tx)]);
      && r.Done? && r.state == f.(submitted := nh, txs := f.txs[nh.number := tx])
      && InSync(judge, global, store.(submitted := nh), r.state)
  {
    hide Ready, ApplyAll;
    ReadyUsable(judge, global, f.view);
    OneMessage(judge, f, Confirmed(nh));
    forall tx
      ensures ApplyAll(judge, f, [Submitted(nh, tx)]) == Apply(judge, f, Submitted(nh, tx))
    {
      OneMessage(judge, f, Submitted(nh, tx));
    }
  }

  /** Producing, submitting and confirming reach the follower. */
  lemma StepReplicates(judge: Judge, global: Block -> GlobalState, c: Psc.Config, s: Psc.State, f: State,
                       e: Psc.Event)
    requires Psc.Inv(c, s) && InSync(judge, global, s.store, f)
    requires Publishable(judge, global, s, e) && !e.Restart? && Psc.Step(c, s, e).Next?
    ensures Usable(f.view)
    ensures var r, store := ApplyAll(judge, f, Messages(global, s, e)), Psc.Step(c, s, e).state.store;
      && r.Done?
      && InSync(judge, global, store, r.state)
      && (SameTxs(s.store, f) ==> SameTxs(store, r.state))
  {
    hide Ready, HandleLocal, ApplyAll, Continues, Linked, SyncL1.Filed, Psc.LoopTop, Usable;
    SyncUsable(judge, global, s.store, f);
    Psc.StepMoves(c, s, e);
    match e {
      case SelectTick(Some(b), _) => BlockReplicates(judge, global, s.store, f, b);
      case SelectSubmitted => PointerReplicates(judge, global, s.store, f, s.submit.next);
      case SelectConfirmed => PointerReplicates(judge, global, s.store, f, s.confirm.next);
      case _ => NothingSent(judge, f);
    }
  }

  /** After the producer resynced, the follower takes the revert message exactly when it holds the synced
  block; then it ends up with the producer's new chain and pointers. */
  lemma ResyncReplicatesExactly(judge: Judge, global: Block -> GlobalState, c: Psc.Config, s: Psc.State, f: State,
                                e: Psc.Event)
    requires InSync(judge, global, s.store, f)
    requires Publishable(judge, global, s, e) && e.Restart? && Psc.Step(c, s, e).Next?
    ensures Usable(f.view)
    ensures var r := ApplyAll(judge, f, Messages(global, s, e));
      && (r.Done? <==> Known(f.view, e.store.chain[e.store.confirmed.number]))
      && (r.Done? ==> InSync(judge, global, Psc.Step(c, s, e).state.store, r.state))
      && (!r.Done? ==> r == Failed(f))
  {
    hide Ready, HandleLocal, Sequel, Linked, SyncL1.Filed;
    ReadyUsable(judge, global, f.view);
    var chain, n := e.store.chain, e.store.confirmed.number;
    var msgs := Messages(global, s, e);
    NumberAt(chain, n);
    assert msgs[0] == Message.Revert(At(chain, n)) && msgs[1..] == Announce(global, chain, n + 1);
    if Known(f.view, chain[n]) {
      CommonPrefix(judge, global, f.view, chain, n);
      AnnounceReplicates(judge, global, f.(submitted := At(chain, n), confirmed := At(chain, n)), chain, n + 1);
    }
  }

  lemma NumberAt(chain: seq<Block>, n: nat)
    requires Linked(chain) && n < |chain|
    ensures chain[n].number == n
  {
  }

  /** A common block means a common past. */
  lemma CommonPrefix(judge: Judge, global: Block -> GlobalState, v: View, chain: seq<Block>, n: nat)
    requires Ready(judge, global, v) && Linked(chain) && n < |chain| && !chain[0].parent.BlockHash?
    requires n < |v.valid| && v.valid[n] == chain[n]
    ensures chain[..n + 1] <= v.valid
  {
    assert forall i: nat | i < |v.valid| :: v.All()[i] == v.valid[i];
    assert Linked(v.valid);
    ChainIsAncestry(v.valid, n);
    ChainIsAncestry(chain, n);
  }

  /** The producer's next state; steps that are not enabled are skipped. */
  function Onward(c: Psc.Config, s: Psc.State, e: Psc.Event): Psc.State {
    var r := Psc.Step(c, s, e);
    if r.Next? then r.state else s
  }

  /** What goes out in a step; nothing when it is not enabled. */
  function Published(global: Block -> GlobalState, c: Psc.Config, s: Psc.State, e: Psc.Event): seq<Message> {
    if Psc.Step(c, s, e).Next? then Messages(global, s, e) else []
  }

  /** The follower fed with everything the producer publishes over a schedule. */
  function Replay(judge: Judge, global: Block -> GlobalState, c: Psc.Config, s: Psc.State, f: State,
                  events: seq<Psc.Event>): Applied
    requires Usable(f.view)
    decreases |events|
  {
    if events == [] then Done(f)
    else
      var r := ApplyAll(judge, f, Published(global, c, s, events[0]));
      if r.Done? && Usable(r.state.view)
      then Replay(judge, global, c, Onward(c, s, events[0]), r.state, events[1..])
      else r
  }

  /** Everything published over the schedule is publishable. */
  ghost predicate Honest(judge: Judge, global: Block -> GlobalState, c: Psc.Config, s: Psc.State,
                         events: seq<Psc.Event>)
    decreases |events|
  {
    events != [] ==>
      && Publishable(judge, global, s, events[0])
      && Honest(judge, global, c, Onward(c, s, events[0]), events[1..])
  }

  /** Every resync goes to a block the follower holds at that time. */
  ghost predicate Held(judge: Judge, global: Block -> GlobalState, c: Psc.Config, s: Psc.State, f: State,
                       events: seq<Psc.Event>)
    requires Usable(f.view)
    decreases |events|
  {
    events != [] ==>
      && HeldBy(c, s, f.view.valid, events[0])
      && (var r := ApplyAll(judge, f, Published(global, c, s, events[0]));
          r.Done? && Usable(r.state.view) ==>
            Held(judge, global, c, Onward(c, s, events[0]), r.state, events[1..]))
  }

  /** A resync, if it takes place, goes to a block of the chain. */
  ghost predicate HeldBy(c: Psc.Config, s: Psc.State, chain: seq<Block>, e: Psc.Event) {
    e.Restart? && Psc.Step(c, s, e).Next? ==>
      var n := e.store.confirmed.number;
      n < |e.store.chain| && n < |chain| && chain[n] == e.store.chain[n]
  }

  lemma OneStep(judge: Judge, global: Block -> GlobalState, c: Psc.Config, s: Psc.State, f: State, e: Psc.Event)
    requires Psc.Inv(c, s) && InSync(judge, global, s.store, f) && Publishable(judge, global, s, e)
    ensures Usable(f.view) && Psc.Inv(c, Onward(c, s, e)) && !Psc.Step(c, s, e).Panic?
    ensures var r := ApplyAll(judge, f, Published(global, c, s, e));
      && (r.Done? <==> HeldBy(c, s, f.view.valid, e))
      && (r.Done? ==> Usable(r.state.view) && InSync(judge, global, Onward(c, s, e).store, r.state))
  {
    hide Ready, ApplyAll, Continues, Sequel, Linked, Psc.Inv, Psc.Step, Messages;
    SyncUsable(judge, global, s.store, f);
    Psc.StepKeeps(c, s, e);
    if !Psc.Step(c, s, e).Next? {
      NothingSent(judge, f);
    } else if e.Restart? {
      RestartStore(c, s, e);
      ResyncReplicatesExactly(judge, global, c, s, f, e);
    } else {
      StepReplicates(judge, global, c, s, f, e);
    }
    var r := ApplyAll(judge, f, Published(global, c, s, e));
    if r.Done? {
      SyncUsable(judge, global, Onward(c, s, e).store, r.state);
    }
  }

  lemma RestartStore(c: Psc.Config, s: Psc.State, e: Psc.Event)
    requires e.Restart? && SyncL1.Inv(e.store)
    ensures e.store.confirmed.number < |e.store.chain|
    ensures e.store.chain[e.store.confirmed.number].number == e.store.confirmed.number
  {
  }

  /** Over every schedule of the producer: the follower fails exactly when some resync goes to a block it
  does not hold, and otherwise ends with the producer's chain and pointers. */
  lemma {:induction false} ScheduleReplicatesExactly(judge: Judge, global: Block -> GlobalState, c: Psc.Config,
                                                     s: Psc.State, f: State, events: seq<Psc.Event>)
    requires Psc.Inv(c, s) && InSync(judge, global, s.store, f) && Honest(judge, global, c, s, events)
    ensures Usable(f.view) && Psc.Run(c, s, events).Some?
    ensures var r := Replay(judge, global, c, s, f, events);
      && (r.Done? <==> Held(judge, global, c, s, f, events))
      && (r.Done? ==> InSync(judge, global, Psc.Run(c, s, events).value.store, r.state))
    decreases |events|
  {
    hide InSync, ApplyAll, Publishable, Psc.Inv, Psc.Step, Published, HeldBy, Usable;
    SyncUsable(judge, global, s.store, f);
    if events != [] {
      OneStep(judge, global, c, s, f, events[0]);
      var r := ApplyAll(judge, f, Published(global, c, s, events[0]));
      RestSafe(judge, global, c, Onward(c, s, events[0]), events[1..]);
      if r.Done? {
        ScheduleReplicatesExactly(judge, global, c, Onward(c, s, events[0]), r.state, events[1..]);
      }
    }
  }

  /** The producer itself does not panic. */
  lemma {:induction false} RestSafe(judge: Judge, global: Block -> GlobalState, c: Psc.Config, s: Psc.State,
                                    events: seq<Psc.Event>)
    requires Psc.Inv(c, s) && Honest(judge, global, c, s, events)
    ensures Psc.Run(c, s, events).Some?
    decreases |events|
  {
    hide Psc.Inv, Psc.Step;
    if events != [] {
      Psc.StepKeeps(c, s, events[0]);
      RestSafe(judge, global, c, Onward(c, s, events[0]), events[1..]);
    }
  }

  /** Every resync goes back to a block of the producer's own chain. */
  ghost predicate Backward(c: Psc.Config, s: Psc.State, events: seq<Psc.Event>)
    decreases |events|
  {
    events != [] ==>
      && HeldBy(c, s, s.store.chain, events[0])
      && Backward(c, Onward(c, s, events[0]), events[1..])
  }

  /** While L1 brings the producer no new block, no schedule makes the follower fail. */
  lemma {:induction false} BackwardReplicates(judge: Judge, global: Block -> GlobalState, c: Psc.Config,
                                              s: Psc.State, f: State, events: seq<Psc.Event>)
    requires Psc.Inv(c, s) && InSync(judge, global, s.store, f) && Honest(judge, global, c, s, events)
    requires Backward(c, s, events)
    ensures Usable(f.view) && Replay(judge, global, c, s, f, events).Done?
    decreases |events|
  {
    hide ApplyAll, Publishable, Psc.Inv, Psc.Step, Published, Usable, Ready;
    SyncUsable(judge, global, s.store, f);
    if events != [] {
      OneStep(judge, global, c, s, f, events[0]);
      var r := ApplyAll(judge, f, Published(global, c, s, events[0]));
      BackwardReplicates(judge, global, c, Onward(c, s, events[0]), r.state, events[1..]);
    }
  }

  // ---------- A resync the follower cannot follow ----------

  function AcceptAll(b: Block): Verdict {
    Accepted(b.post)
  }

  function StateOf(b: Block): GlobalState {
    GlobalState(Running, b.Hash(), map[], b.number + 1, {}, b.post, 0)
  }

  /** A follower that holds the genesis block. */
  function OnlyGenesis(): State {
    var g := Psc.Tower(0)[0];
    State(View([g], [StateOf(g)], [0], [], [{}], None, map[], StateOf(g)), At([g], 0), At([g], 0), map[0 := 0])
  }

  /** A store synced to a block that L1 brought. */
  function NewTip(): SyncL1.Store {
    var chain := Psc.Tower(1);
    SyncL1.Store(chain, map[0 := SyncL1.Tx(0, chain[0]), 1 := SyncL1.Tx(1, chain[1])], At(chain, 1), At(chain, 1))
  }

  /** Both hold the genesis block, the producer takes a new block from L1 and publishes only that it went
  there: the follower fails. */
  lemma NewBlockFromL1(c: Psc.Config)
    ensures var s, f, e := Psc.Waiting(0), OnlyGenesis(), Psc.Restart(NewTip());
      && Psc.Inv(c, s) && InSync(AcceptAll, StateOf, s.store, f)
      && Publishable(AcceptAll, StateOf, s, e) && Psc.Step(c, s, e).Next?
      && !Known(f.view, NewTip().chain[1])
      && Replay(AcceptAll, StateOf, c, s, f, [e]) == Failed(f)
  {
    hide Psc.Inv, Psc.Step, Psc.Tower, Linked, ApplyAll, Messages;
    var s, f, e := Psc.Waiting(0), OnlyGenesis(), Psc.Restart(NewTip());
    Psc.TowerLinked(0);
    Psc.TowerLinked(1);
    TowerStarts();
    Psc.WaitingKeeps(c, 0);
    GenesisReady();
    NewTipSynced(c, s);
    ResyncReplicatesExactly(AcceptAll, StateOf, c, s, f, e);
  }

  lemma TowerStarts()
    ensures Psc.Tower(0) == [Psc.Tower(0)[0]] && !Psc.Tower(0)[0].parent.BlockHash?
    ensures Psc.Tower(1)[0] == Psc.Tower(0)[0]
  {
  }

  lemma GenesisReady()
    ensures InSync(AcceptAll, StateOf, Psc.Waiting(0).store, OnlyGenesis())
  {
    TowerStarts();
    Psc.TowerLinked(0);
    var v := OnlyGenesis().view;
    assert v.All() == Psc.Tower(0);
    assert !Doomed(AcceptAll, v.valid[0]);
  }

  lemma NewTipSynced(c: Psc.Config, s: Psc.State)
    ensures SyncL1.Inv(NewTip()) && Psc.Step(c, s, Psc.Restart(NewTip())).Next?
  {
    Psc.TowerLinked(1);
  }

  lemma SyncUsable(judge: Judge, global: Block -> GlobalState, store: SyncL1.Store, f: State)
    requires InSync(judge, global, store, f)
    ensures Usable(f.view)
  {
    ReadyUsable(judge, global, f.view);
  }
}
