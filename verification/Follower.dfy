/** A read-only node that follows a block producer's messages. */
module Follower {
  import opened RollupTypes
  import opened AbstractChain
  import opened Wrappers
  import ChainNode
  import ChainStore

  datatype Message =
    | Revert(nh: NumberHash)
    | LocalBlock(block: Block, global: GlobalState)
    | Submitted(nh: NumberHash, tx: nat)
    | Confirmed(nh: NumberHash)
    | NextMemBlock(info: nat)
    | PushTransaction(tx: nat)

  /** The chain, the two pointers and the stored submit transaction hashes. */
  datatype State = State(view: View, submitted: NumberHash, confirmed: NumberHash, txs: map<nat, nat>)

  /** An error ends the session and keeps what was committed before it. */
  datatype Applied = Done(state: State) | Failed(state: State) | Panicked

  predicate Usable(v: View) {
    v.valid != [] && |v.states| == |v.marks| == |v.valid| && v.trail != []
  }

  predicate Known(v: View, b: Block) {
    b.number < |v.valid| && v.valid[b.number] == b
  }

  /** The transaction hashes left when the blocks in a range are detached. */
  function Dropped(txs: map<nat, nat>, from: nat, to: nat): map<nat, nat> {
    map k | k in txs && !(from <= k < to) :: txs[k]
  }

  /** The state after the chain was cut back to block `n`, which left the view `v`. */
  function Cut(s: State, v: View, n: nat): State
    requires n < |v.valid|
  {
    State(v, Lowered(v.valid, s.submitted, n), Lowered(v.valid, s.confirmed, n),
          Dropped(s.txs, n + 1, |s.view.valid|))
  }

  /** A block of the producer: skip it if it is known, cut the chain below it if another block has its
  number, then add it. */
  function HandleLocal(judge: Judge, s: State, b: Block, gs: GlobalState): Applied
    requires Usable(s.view)
  {
    if Known(s.view, b) then Done(s)
    else if b.number >= |s.view.valid| then Add(judge, s, b, gs)
    else if b.number == 0 then Panicked
    else match RevertTo(s.view, b.number - 1)
      case None => Panicked
      case Some(v) =>
        if !(b.number - 1 < |v.valid| && Usable(v)) then Panicked
        else
          Add(judge, Cut(s, v, b.number - 1), b, gs)
  }

  function Add(judge: Judge, s: State, b: Block, gs: GlobalState): Applied
    requires Usable(s.view)
  {
    match AddLocal(judge, s.view, gs, b)
    case Ok(v, _) => Done(s.(view := v))
    case Err => Failed(s)
    case Panic => Panicked
  }

  function Apply(judge: Judge, s: State, msg: Message): Applied
    requires Usable(s.view)
  {
    match msg
    case Revert(nh) => if OnChain(s.view.valid, nh) then Done(s.(submitted := nh, confirmed := nh)) else Failed(s)
    case LocalBlock(b, gs) => HandleLocal(judge, s, b, gs)
    case Submitted(nh, tx) =>
      if OnChain(s.view.valid, nh) then Done(s.(submitted := nh, txs := s.txs[nh.number := tx])) else Failed(s)
    case Confirmed(nh) => if OnChain(s.view.valid, nh) then Done(s.(confirmed := nh)) else Failed(s)
    case NextMemBlock(_) => Done(s)
    case PushTransaction(_) => Done(s)
  }

  // ---------- What a handled block guarantees ----------

  /** A block and everything it descends from. */
  ghost function Ancestry(b: Block): seq<Block>
    decreases b
  {
    if b.parent.BlockHash? then Ancestry(b.parent.block) + [b] else [b]
  }

  lemma {:induction false} ChainIsAncestry(bs: seq<Block>, n: nat)
    requires Linked(bs) && n < |bs| && !bs[0].parent.BlockHash?
    ensures bs[..n + 1] == Ancestry(bs[n])
  {
    if n > 0 {
      ChainIsAncestry(bs, n - 1);
      assert bs[n].parent == bs[n - 1].Hash();
      assert bs[..n + 1] == bs[..n] + [bs[n]];
    } else {
      assert bs[..1] == [bs[0]];
    }
  }

  ghost predicate Rooted(judge: Judge, v: View) {
    WellFormed(judge, v) && !v.valid[0].parent.BlockHash?
  }

  lemma RootedUsable(judge: Judge, v: View)
    requires Rooted(judge, v)
    ensures Usable(v)
  {
  }

  /** Adding a block that continues the valid chain. */
  lemma AddExact(judge: Judge, s: State, b: Block, gs: GlobalState)
    requires Rooted(judge, s.view) && Add(judge, s, b, gs).Done?
    ensures var v := Add(judge, s, b, gs).state.view;
      if s.view.bad == [] then
        && v.valid == s.view.valid + [b] && b.number == |s.view.valid|
        && v.valid[..b.number + 1] == Ancestry(b)
      else b.number >= |v.valid|
  {
    var v := Add(judge, s, b, gs).state.view;
    assert s.view.Tip() == Last(s.view.All());
    if s.view.bad == [] {
      assert s.view.All() == s.view.valid;
      LinkedAppend(s.view.valid, b);
      ChainIsAncestry(v.valid, b.number);
    }
  }

  lemma KnownExact(judge: Judge, v: View, b: Block)
    requires Rooted(judge, v) && Known(v, b)
    ensures v.valid[..b.number + 1] == Ancestry(b)
  {
    assert forall i: nat | i < |v.valid| :: v.All()[i] == v.valid[i];
    assert Linked(v.valid);
    ChainIsAncestry(v.valid, b.number);
  }

  /** What is left after cutting the chain below a conflicting block. */
  lemma CutExact(judge: Judge, v: View, n: nat)
    requires Rooted(judge, v) && n + 1 < |v.valid| && RevertTo(v, n).Some?
    ensures var w := RevertTo(v, n).value;
      && Rooted(judge, w) && w.bad == [] && w.valid == v.valid[..n + 1] && Usable(w)
  {
    CutUsable(judge, v, n);
  }

  /** Once a block numbered `n` is handled, blocks `0..n` are exactly its ancestors, whatever suffix was
  held before, and no block below `n` was detached.  The one exception is a block added on top of a bad
  run, which does not end up under its own number. */
  lemma LocalBlockExact(judge: Judge, s: State, b: Block, gs: GlobalState)
    requires Rooted(judge, s.view) && HandleLocal(judge, s, b, gs).Done?
    ensures var v := HandleLocal(judge, s, b, gs).state.view;
      && ((b.number < |v.valid| && v.valid[..b.number + 1] == Ancestry(b)) <==>
            (s.view.bad == [] || b.number < |s.view.valid|))
      && (forall i: nat | i < b.number && i < |s.view.valid| :: i < |v.valid| && v.valid[i] == s.view.valid[i])
  {
    hide Rooted, Add, RevertTo, Ancestry, Dropped, Lowered;
    RootedUsable(judge, s.view);
    if Known(s.view, b) {
      KnownExact(judge, s.view, b);
    } else if b.number >= |s.view.valid| {
      AddExact(judge, s, b, gs);
      AddExtends(judge, s, b, gs);
    } else {
      CutExact(judge, s.view, b.number - 1);
      var w := RevertTo(s.view, b.number - 1).value;
      AddExact(judge, Cut(s, w, b.number - 1), b, gs);
    }
  }

  lemma AddExtends(judge: Judge, s: State, b: Block, gs: GlobalState)
    requires Usable(s.view)
    ensures var r := Add(judge, s, b, gs);
      && (r.Done? ==> r.state == s.(view := r.state.view) && r.state.view.valid == s.view.valid + [b])
      && (r.Failed? ==> r.state == s)
  {
  }

  /** The block takes the place of another one. */
  predicate Replaces(v: View, b: Block) {
    b.number < |v.valid| && v.valid[b.number] != b
  }

  /** A block in place of another one detaches that block and everything above it: their transaction hashes
  are gone and a pointer at one of them goes back to the block below.  Nothing else moves a pointer or a
  hash. */
  lemma LocalBlockForgets(judge: Judge, s: State, b: Block, gs: GlobalState)
    requires Rooted(judge, s.view) && !HandleLocal(judge, s, b, gs).Panicked?
    ensures var t := HandleLocal(judge, s, b, gs).state;
      if Replaces(s.view, b) then
        && b.number > 0
        && var below := At(s.view.valid, b.number - 1);
          && t.submitted == (if s.submitted.number >= b.number then below else s.submitted)
          && t.confirmed == (if s.confirmed.number >= b.number then below else s.confirmed)
          && (forall k: nat :: k in t.txs <==> k in s.txs && !(b.number <= k < |s.view.valid|))
          && (forall k: nat | k in t.txs :: t.txs[k] == s.txs[k])
      else t.submitted == s.submitted && t.confirmed == s.confirmed && t.txs == s.txs
  {
    hide Rooted, Add, RevertTo;
    RootedUsable(judge, s.view);
    if Replaces(s.view, b) {
      CutExact(judge, s.view, b.number - 1);
      var w := RevertTo(s.view, b.number - 1).value;
      AddExtends(judge, Cut(s, w, b.number - 1), b, gs);
    } else if !Known(s.view, b) {
      AddExtends(judge, s, b, gs);
    }
  }

  /** A pointer message is followed exactly when the follower holds the block. */
  lemma PointerMessages(judge: Judge, s: State, nh: NumberHash, tx: nat)
    requires Usable(s.view)
    ensures var held := nh.number < |s.view.valid| && s.view.valid[nh.number].Hash() == nh.hash;
      && Apply(judge, s, Message.Revert(nh)) == (if held then Done(s.(submitted := nh, confirmed := nh)) else Failed(s))
      && Apply(judge, s, Confirmed(nh)) == (if held then Done(s.(confirmed := nh)) else Failed(s))
      && Apply(judge, s, Submitted(nh, tx)) ==
           (if held then Done(s.(submitted := nh, txs := s.txs[nh.number := tx])) else Failed(s))
  {
  }

  ghost predicate PointersOnChain(s: State) {
    OnChain(s.view.valid, s.submitted) && OnChain(s.view.valid, s.confirmed)
  }

  /** The submitted and confirmed pointers always name blocks of the chain. */
  lemma PointersStayOnChain(judge: Judge, s: State, msg: Message)
    requires Rooted(judge, s.view) && PointersOnChain(s)
    ensures Apply(judge, s, msg).Done? ==> PointersOnChain(Apply(judge, s, msg).state)
    ensures Apply(judge, s, msg).Failed? ==> PointersOnChain(Apply(judge, s, msg).state)
  {
    hide Rooted, Add, RevertTo;
    RootedUsable(judge, s.view);
    if msg.LocalBlock? && !Known(s.view, msg.block) {
      if 0 < msg.block.number < |s.view.valid| && RevertTo(s.view, msg.block.number - 1).Some? {
        var n := msg.block.number - 1;
        CutExact(judge, s.view, n);
        var w := RevertTo(s.view, n).value;
        var cut := Cut(s, w, n);
        assert PointersOnChain(cut);
        AddExtends(judge, cut, msg.block, msg.global);
      } else {
        AddExtends(judge, s, msg.block, msg.global);
      }
    }
  }

  /** The client: a node and the pointers of its store. */
  class Client {
    const node: ChainNode.Node
    var submitted: NumberHash
    var confirmed: NumberHash
    var txs: map<nat, nat>

    ghost predicate Valid()
      reads this, node
    {
      node.Valid()
    }

    ghost function Abstract(): State
      reads this, node
    {
      State(node.view, submitted, confirmed, txs)
    }

    constructor (node: ChainNode.Node, submitted: NumberHash, confirmed: NumberHash, txs: map<nat, nat>)
      requires node.Valid()
      ensures Valid() && this.node == node && Abstract() == State(node.view, submitted, confirmed, txs)
    {
      this.node, this.submitted, this.confirmed, this.txs := node, submitted, confirmed, txs;
    }

    /** Detach every block above `n`, with its submit transaction hash, and lower the pointers. */
    method CutBack(n: nat) returns (r: ChainNode.Outcome)
      requires Valid() && n + 1 < |node.view.valid|
      modifies this, node
      ensures r == if RevertTo(old(node.view), n).Some? then ChainNode.Done else ChainNode.Panicked
      ensures r == ChainNode.Done ==>
        && Valid() && RevertTo(old(node.view), n) == Some(node.view)
        && n < |node.view.valid| && Usable(node.view) && node.view.bad == []
        && Abstract() == Cut(old(Abstract()), node.view, n)
    {
      hide WellFormed, ChainStore.Repr, RevertTo, Dropped, TreeOf;
      NodeUsable(node.judge, node.view);
      CutUsable(node.judge, node.view, n);
      ChainNode.LastValidColumns(node.judge, node.db, node.view);
      ChainNode.GenesisColumns(node.judge, node.db, node.view);
      var len := node.db.blocks[node.db.lastValidHash].number + 1;
      r := node.RevertToBlock(n);
      if r == ChainNode.Panicked {
        return;
      }
      ChainNode.DetachColumns(node.judge, node.db, node.view);
      TreeAt(node.view.valid, n);
      if submitted.number > n {
        submitted := NumberHash(n, node.db.index[n]);
      }
      if confirmed.number > n {
        confirmed := NumberHash(n, node.db.index[n]);
      }
      txs := Dropped(txs, n + 1, len);
    }

    /** The node stays valid unless the block was stored on top of a bad run, or under a global state that
    names another block. */
    method HandleLocalBlock(b: Block, gs: GlobalState) returns (r: ChainNode.Outcome)
      requires Valid()
      modifies this, node
      ensures Agrees(r, HandleLocal(node.judge, old(Abstract()), b, gs), Abstract())
      ensures r == ChainNode.Failed ==> Valid()
      ensures r == ChainNode.Done ==> (Valid() <==> Known(old(node.view), b) || Fits(old(node.view), b, gs))
    {
      hide WellFormed, ChainStore.Repr, RevertTo, AddLocal, Cut;
      NodeUsable(node.judge, node.view);
      ChainNode.DetachColumns(node.judge, node.db, node.view);
      if b.number in node.db.index {
        if node.db.index[b.number] == b.Hash() {
          return ChainNode.Done;
        }
        if b.number == 0 {
          return ChainNode.Panicked;
        }
        r := CutBack(b.number - 1);
        if r == ChainNode.Panicked {
          return;
        }
      }
      ghost var before := Abstract();
      r := node.UpdateLocal(gs, b);
      assert Agrees(r, Add(node.judge, before, b, gs), Abstract());
    }
  }

  /** The block goes onto a chain without a bad run, and its global state names it. */
  predicate Fits(v: View, b: Block, gs: GlobalState) {
    gs.tip == b.Hash() && (v.bad == [] || b.number < |v.valid|)
  }

  lemma TreeAt(bs: seq<Block>, n: nat)
    requires n < |bs|
    ensures n in TreeOf(bs) && TreeOf(bs)[n] == bs[n].Hash()
  {
  }

  lemma NodeUsable(judge: Judge, v: View)
    requires WellFormed(judge, v)
    ensures Usable(v)
  {
  }

  ghost predicate Agrees(r: ChainNode.Outcome, applied: Applied, after: State) {
    match applied
    case Done(s) => r == ChainNode.Done && after == s
    case Failed(s) => r == ChainNode.Failed && after == s
    case Panicked => r == ChainNode.Panicked
  }

  lemma CutUsable(judge: Judge, v: View, n: nat)
    requires WellFormed(judge, v) && Usable(v) && n + 1 < |v.valid|
    ensures RevertTo(v, n).Some? ==>
      var w := RevertTo(v, n).value;
      WellFormed(judge, w) && w.bad == [] && w.valid == v.valid[..n + 1] && Usable(w)
  {
    if RevertTo(v, n).Some? && Clean(v) {
      RevertToExact(judge, v, n);
      PrefixKeeps(judge, v, n);
    }
  }

  // ---------- Message streams ----------

  /** Messages that only concern the mem pool. */
  predicate Relevant(msg: Message) {
    !msg.NextMemBlock? && !msg.PushTransaction?
  }

  /** `retain` on the buffer. */
  function Retain(msgs: seq<Message>): seq<Message> {
    if msgs == [] then []
    else if Relevant(msgs[0]) then [msgs[0]] + Retain(msgs[1..])
    else Retain(msgs[1..])
  }

  lemma {:induction false} RetainConcat(a: seq<Message>, b: seq<Message>)
    ensures Retain(a + b) == Retain(a) + Retain(b)
    decreases |a|
  {
    if a == [] {
      assert a + b == b;
    } else {
      assert (a + b)[1..] == a[1..] + b;
      RetainConcat(a[1..], b);
    }
  }

  lemma {:induction false} RetainTwice(a: seq<Message>)
    ensures Retain(Retain(a)) == Retain(a)
    ensures |Retain(a)| <= |a|
    decreases |a|
  {
    if a != [] {
      RetainTwice(a[1..]);
      if Relevant(a[0]) {
        assert Retain(a)[1..] == Retain(a[1..]);
      }
    }
  }

  /** Exactly the messages about the mem pool are dropped. */
  lemma {:induction false} RetainExactly(msgs: seq<Message>, msg: Message)
    ensures multiset(Retain(msgs))[msg] ==
      if msg.NextMemBlock? || msg.PushTransaction? then 0 else multiset(msgs)[msg]
    decreases |msgs|
  {
    if msgs != [] {
      RetainExactly(msgs[1..], msg);
      assert msgs == [msgs[0]] + msgs[1..];
    }
  }

  /** Apply messages in order until one fails. */
  function ApplyAll(judge: Judge, s: State, msgs: seq<Message>): Applied
    requires Usable(s.view)
    decreases |msgs|
  {
    if msgs == [] then Done(s)
    else
      var r := Apply(judge, s, msgs[0]);
      if r.Done? && Usable(r.state.view) then ApplyAll(judge, r.state, msgs[1..]) else r
  }

  /** Messages about the mem pool make no difference to the chain and its pointers. */
  lemma {:induction false} RetainSameEffect(judge: Judge, s: State, msgs: seq<Message>)
    requires Usable(s.view)
    ensures ApplyAll(judge, s, Retain(msgs)) == ApplyAll(judge, s, msgs)
    decreases |msgs|
  {
    hide HandleLocal, OnChain;
    if msgs != [] {
      var r := Apply(judge, s, msgs[0]);
      if Relevant(msgs[0]) {
        var kept := Retain(msgs);
        assert kept[0] == msgs[0] && kept[1..] == Retain(msgs[1..]);
        if r.Done? && Usable(r.state.view) {
          RetainSameEffect(judge, r.state, msgs[1..]);
        }
      } else {
        RetainSameEffect(judge, s, msgs[1..]);
      }
    }
  }

  const BUFFER_LIMIT: nat := 1024
  const PRUNE_AT: nat := 512

  /** The receive task's buffer; the ghost fields record what came in and what went out. */
  class Buffer {
    var buffer: seq<Message>
    var ended: bool
    ghost var received: seq<Message>
    ghost var forwarded: seq<Message>

    ghost predicate Valid()
      reads this
    {
      && |buffer| <= BUFFER_LIMIT
      && Retain(forwarded + buffer) == Retain(received)
    }

    constructor ()
      ensures Valid() && buffer == [] && received == [] && forwarded == [] && !ended
    {
      buffer, ended, received, forwarded := [], false, [], [];
    }

    /** Take a message from the stream; only enabled below the limit. */
    method Receive(msg: Option<Message>)
      requires Valid() && !ended && |buffer| < BUFFER_LIMIT
      modifies this
      ensures Valid() && forwarded == old(forwarded)
      ensures received == if msg.Some? then old(received) + [msg.value] else old(received)
      ensures ended <==> msg.None?
    {
      if msg.Some? {
        RetainConcat(forwarded + buffer, [msg.value]);
        RetainConcat(received, [msg.value]);
        assert forwarded + (buffer + [msg.value]) == (forwarded + buffer) + [msg.value];
        buffer := buffer + [msg.value];
        received := received + [msg.value];
      } else {
        ended := true;
      }
      Prune();
    }

    /** Hand the oldest message to the applying task. */
    method Forward() returns (msg: Message)
      requires Valid() && buffer != []
      modifies this
      ensures Valid() && received == old(received) && ended == old(ended) && |buffer| < |old(buffer)|
      ensures msg == old(buffer)[0] && forwarded == old(forwarded) + [msg]
    {
      msg := buffer[0];
      assert forwarded + buffer == (forwarded + [msg]) + buffer[1..];
      forwarded := forwarded + [msg];
      buffer := buffer[1..];
      RetainTwice(buffer);
      Prune();
    }

    /** Above 512 messages, and only at a block, drop what concerns the mem pool. */
    method Prune()
      requires Valid()
      modifies this`buffer
      ensures Valid()
      ensures buffer == if |old(buffer)| >= PRUNE_AT && Last(old(buffer)).LocalBlock?
                        then Retain(old(buffer)) else old(buffer)
    {
      if |buffer| >= PRUNE_AT && Last(buffer).LocalBlock? {
        RetainTwice(buffer);
        RetainConcat(forwarded, buffer);
        RetainConcat(forwarded, Retain(buffer));
        buffer := Retain(buffer);
      }
    }
  }

  /** One session: the schedule says, turn by turn, whether the stream or the applying task is ready;
  then the stream ends and the buffer runs empty. */
  method Session(stream: seq<Message>, schedule: seq<bool>, ghost judge: Judge, ghost s: State)
      returns (applied: seq<Message>)
    requires Usable(s.view)
    ensures Retain(applied) == Retain(stream)
    ensures ApplyAll(judge, s, applied) == ApplyAll(judge, s, stream)
  {
    hide ApplyAll;
    var queue := new Buffer();
    var next := 0;
    applied := [];
    for i := 0 to |schedule|
      invariant queue.Valid() && fresh(queue) && !queue.ended
      invariant next <= |stream| && queue.received == stream[..next] && applied == queue.forwarded
    {
      if schedule[i] && next < |stream| && |queue.buffer| < BUFFER_LIMIT {
        queue.Receive(Some(stream[next]));
        next := next + 1;
      } else if queue.buffer != [] {
        var msg := queue.Forward();
        applied := applied + [msg];
      }
    }
    while next < |stream|
      invariant queue.Valid() && fresh(queue) && !queue.ended
      invariant next <= |stream| && queue.received == stream[..next] && applied == queue.forwarded
      decreases |stream| - next, |queue.buffer|
    {
      if |queue.buffer| < BUFFER_LIMIT {
        queue.Receive(Some(stream[next]));
        next := next + 1;
      } else {
        var msg := queue.Forward();
        applied := applied + [msg];
      }
    }
    if |queue.buffer| >= BUFFER_LIMIT {
      var msg := queue.Forward();
      applied := applied + [msg];
    }
    queue.Receive(None);
    while queue.buffer != []
      invariant queue.Valid() && fresh(queue)
      invariant queue.received == stream && applied == queue.forwarded
      decreases |queue.buffer|
    {
      var msg := queue.Forward();
      applied := applied + [msg];
    }
    assert applied + [] == applied;
    DrainedIsUnpruned(judge, s, stream, applied);
  }

  /** Once the buffer is drained, whatever the interleaving of receiving, forwarding and pruning was, the
  forwarded messages leave the chain and the pointers the whole stream would have left. */
  lemma DrainedIsUnpruned(judge: Judge, s: State, received: seq<Message>, forwarded: seq<Message>)
    requires Usable(s.view) && Retain(forwarded) == Retain(received)
    ensures ApplyAll(judge, s, forwarded) == ApplyAll(judge, s, received)
  {
    RetainSameEffect(judge, s, forwarded);
    RetainSameEffect(judge, s, received);
  }
}
