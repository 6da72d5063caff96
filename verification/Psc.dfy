/** The produce, submit and confirm loop.  Two background tasks run beside the select loop; a schedule is
any list of their steps and of the loop's own.  Composing and sending transactions is left to the
schedule. */
module Psc {
  import opened RollupTypes
  import opened Wrappers
  import SyncL1

  /** Where a submission stands: spawned, snapshot read, transaction stored, sent. */
  datatype SubmitTask = NotSubmitting | SubmitSpawned | SubmitRead(next: NumberHash) | Stored(next: NumberHash)
    | Sent(next: NumberHash)

  datatype ConfirmTask = NotConfirming | ConfirmSpawned | Polling(next: NumberHash) | Committed(next: NumberHash)

  datatype Config = Config(localLimit: nat, submittedLimit: nat)

  datatype State = State(
    store: SyncL1.Store,
    localCount: nat,
    submittedCount: nat,
    submit: SubmitTask,
    confirm: ConfirmTask)

  datatype Event =
    | ReadForSubmit            // the submit task takes its snapshot
    | StoreTx(id: nat)         // ... composes and stores the transaction, unless there is one
    | SendTx                   // ... and sends it
    | RetrySubmit              // ... or fails and starts over
    | ReadForConfirm           // the confirm task takes its snapshot
    | SeeCommitted             // ... and sees the transaction committed
    | RetryConfirm             // ... or fails and starts over
    | SelectConfirmed          // the loop takes a finished confirmation
    | SelectSubmitted          // the loop takes a finished submission
    | SelectTick(block: Option<Block>, stored: bool)
                               // the timer fires; a block is produced and published, then stored, or not
    | Restart(store: SyncL1.Store)
                               // an error ended the loop: revert, sync with L1 and reset

  datatype Outcome = Next(state: State) | Disabled | Panic

  /** Spawn what may be spawned; the loop does this before every select. */
  function LoopTop(c: Config, s: State): State {
    var s1 :=
      if s.submit.NotSubmitting? && s.localCount > 0 && s.submittedCount < c.submittedLimit
      then s.(submit := SubmitSpawned) else s;
    if s1.confirm.NotConfirming? && s1.submittedCount > 0 then s1.(confirm := ConfirmSpawned) else s1
  }

  /** The assertion before every select: some branch can still fire. */
  predicate SomeBranchEnabled(c: Config, s: State) {
    s.localCount < c.localLimit || !s.confirm.NotConfirming? || !s.submit.NotSubmitting?
  }

  /** Storing a block fails when it is not a child of the tip. */
  predicate Follows(chain: seq<Block>, b: Block) {
    chain != [] && b.number == |chain| && b.parent == Last(chain).Hash()
  }

  /** The state read off a freshly synced store. */
  function Fresh(st: SyncL1.Store): State
    requires st.submitted.number < |st.chain|
  {
    State(st, |st.chain| - 1 - st.submitted.number, 0, NotSubmitting, NotConfirming)
  }

  /** One step; the loop's own steps go through the top of the loop again. */
  function Step(c: Config, s: State, e: Event): Outcome {
    var st := s.store;
    match e
    case ReadForSubmit =>
      var n := st.submitted.number + 1;
      if !s.submit.SubmitSpawned? then Disabled
      else if n >= |st.chain| then Next(s)
      else Next(s.(submit := SubmitRead(At(st.chain, n))))
    case StoreTx(id) =>
      if !s.submit.SubmitRead? || s.submit.next.number >= |st.chain| then Disabled
      else
        var n := s.submit.next.number;
        var txs := if n in st.txs then st.txs else st.txs[n := SyncL1.Tx(id, st.chain[n])];
        Next(s.(store := st.(txs := txs), submit := Stored(s.submit.next)))
    case SendTx => if s.submit.Stored? then Next(s.(submit := Sent(s.submit.next))) else Disabled
    case RetrySubmit =>
      if s.submit.SubmitRead? || s.submit.Stored? then Next(s.(submit := SubmitSpawned)) else Disabled
    case ReadForConfirm =>
      var n := st.confirmed.number + 1;
      if !s.confirm.ConfirmSpawned? then Disabled
      else if n >= |st.chain| || n !in st.txs then Panic
      else Next(s.(confirm := Polling(At(st.chain, n))))
    case SeeCommitted => if s.confirm.Polling? then Next(s.(confirm := Committed(s.confirm.next))) else Disabled
    case RetryConfirm => if s.confirm.Polling? then Next(s.(confirm := ConfirmSpawned)) else Disabled
    case SelectConfirmed =>
      if !s.confirm.Committed? then Disabled
      else if s.submittedCount == 0 then Panic
      else Next(LoopTop(c, s.(store := st.(confirmed := s.confirm.next), submittedCount := s.submittedCount - 1,
                              confirm := NotConfirming)))
    case SelectSubmitted =>
      if !s.submit.Sent? then Disabled
      else if s.localCount == 0 then Panic
      else Next(LoopTop(c, s.(store := st.(submitted := s.submit.next), localCount := s.localCount - 1,
                              submittedCount := s.submittedCount + 1, submit := NotSubmitting)))
    case SelectTick(block, stored) =>
      if s.localCount >= c.localLimit then Disabled
      else if block.Some? && stored && Follows(st.chain, block.value) then
        Next(LoopTop(c, s.(store := st.(chain := st.chain + [block.value]), localCount := s.localCount + 1)))
      else Next(LoopTop(c, s))
    case Restart(store) =>
      if store.submitted.number != store.confirmed.number then Disabled
      else if store.submitted.number >= |store.chain| then Panic
      else Next(LoopTop(c, Fresh(store)))
  }

  /** The stored chain, transactions and pointers fit together, the counts are the gaps between the three
  pointers, and the submitted window is within its limit. */
  ghost predicate Inv(c: Config, s: State) {
    && SyncL1.Inv(s.store)
    && s.localCount == |s.store.chain| - 1 - s.store.submitted.number
    && s.submittedCount == s.store.submitted.number - s.store.confirmed.number
    && s.submittedCount <= c.submittedLimit
    && Tasks(c, s)
  }

  /** What a running task has seen is still so. */
  ghost predicate Tasks(c: Config, s: State) {
    var st := s.store;
    && (!s.submit.NotSubmitting? ==> s.localCount > 0 && s.submittedCount < c.submittedLimit)
    && ((s.submit.SubmitRead? || s.submit.Stored? || s.submit.Sent?) ==>
          s.submit.next.number == st.submitted.number + 1 && OnChain(st.chain, s.submit.next))
    && ((s.submit.Stored? || s.submit.Sent?) ==> s.submit.next.number in st.txs)
    && (!s.confirm.NotConfirming? ==> s.submittedCount > 0)
    && ((s.confirm.Polling? || s.confirm.Committed?) ==>
          s.confirm.next.number == st.confirmed.number + 1 && OnChain(st.chain, s.confirm.next))
  }

  /** After an error the store is one a sync with L1 leaves. */
  ghost predicate Sound(e: Event) {
    e.Restart? ==> SyncL1.Inv(e.store)
  }

  lemma LoopTopKeeps(c: Config, s: State)
    requires Inv(c, s)
    ensures Inv(c, LoopTop(c, s))
  {
  }

  /** What is done when: a tick stores the block exactly when storing works and the block follows the tip,
  a sent submission moves one block from local to submitted, a committed confirmation takes one block out
  of the window, the submit task stores a transaction of the block it read unless there is one, and nothing
  else touches the store or the counts. */
  lemma StepMoves(c: Config, s: State, e: Event)
    requires Inv(c, s) && !e.Restart? && Step(c, s, e).Next?
    ensures var st, s' := s.store, Step(c, s, e).state;
      match e
      case SelectTick(block, stored) =>
        var added := block.Some? && stored && block.value.number == |st.chain|
                     && block.value.parent == st.chain[|st.chain| - 1].Hash();
        && s'.store == st.(chain := if added then st.chain + [block.value] else st.chain)
        && s'.localCount == s.localCount + (if added then 1 else 0) && s'.submittedCount == s.submittedCount
      case SelectSubmitted =>
        && s'.store == st.(submitted := At(st.chain, st.submitted.number + 1))
        && s'.localCount + 1 == s.localCount && s'.submittedCount == s.submittedCount + 1
      case SelectConfirmed =>
        && s'.store == st.(confirmed := At(st.chain, st.confirmed.number + 1))
        && s'.localCount == s.localCount && s'.submittedCount + 1 == s.submittedCount
      case StoreTx(id) =>
        var n := st.submitted.number + 1;
        && s'.store == st.(txs := if n in st.txs then st.txs else st.txs[n := SyncL1.Tx(id, st.chain[n])])
        && s'.localCount == s.localCount && s'.submittedCount == s.submittedCount
      case _ => s'.store == st && s'.localCount == s.localCount && s'.submittedCount == s.submittedCount
  {
    hide SyncL1.Inv;
    StoreFacts(c, s);
  }

  lemma StoreFacts(c: Config, s: State)
    requires Inv(c, s)
    ensures s.store.chain != [] && s.store.confirmed.number <= s.store.submitted.number < |s.store.chain|
  {
  }

  /** Which steps can be taken, and where they leave the two tasks; after a step of the loop itself a task
  runs exactly when there is something for it to do. */
  lemma StepEnabledExactly(c: Config, s: State, e: Event)
    requires Inv(c, s) && LoopTop(c, s) == s && !e.Restart?
    ensures Step(c, s, e).Next? <==> match e
      case ReadForSubmit => s.submit.SubmitSpawned?
      case StoreTx(_) => s.submit.SubmitRead?
      case SendTx => s.submit.Stored?
      case RetrySubmit => s.submit.SubmitRead? || s.submit.Stored?
      case ReadForConfirm => s.confirm.ConfirmSpawned?
      case SeeCommitted => s.confirm.Polling?
      case RetryConfirm => s.confirm.Polling?
      case SelectConfirmed => s.confirm.Committed?
      case SelectSubmitted => s.submit.Sent?
      case SelectTick(_, _) => s.localCount < c.localLimit
    ensures Step(c, s, e).Next? ==>
      var s' := Step(c, s, e).state;
      var chain, n, m := s.store.chain, s.store.submitted.number + 1, s.store.confirmed.number + 1;
      && s'.submit == (match e
           case ReadForSubmit => SubmitRead(At(chain, n))
           case StoreTx(_) => Stored(At(chain, n))
           case SendTx => Sent(At(chain, n))
           case RetrySubmit => SubmitSpawned
           case _ =>
             if !s.submit.NotSubmitting? && !e.SelectSubmitted? then s.submit
             else if s'.localCount > 0 && s'.submittedCount < c.submittedLimit then SubmitSpawned
             else NotSubmitting)
      && s'.confirm == (match e
           case ReadForConfirm => Polling(At(chain, m))
           case SeeCommitted => Committed(At(chain, m))
           case RetryConfirm => ConfirmSpawned
           case _ =>
             if !s.confirm.NotConfirming? && !e.SelectConfirmed? then s.confirm
             else if s'.submittedCount > 0 then ConfirmSpawned
             else NotConfirming)
  {
  }

  /** How far the submission is from done. */
  function SubmitRest(t: SubmitTask): nat {
    match t
    case NotSubmitting => 0
    case SubmitSpawned => 4
    case SubmitRead(_) => 3
    case Stored(_) => 2
    case Sent(_) => 1
  }

  function ConfirmRest(t: ConfirmTask): nat {
    match t
    case NotConfirming => 0
    case ConfirmSpawned => 3
    case Polling(_) => 2
    case Committed(_) => 1
  }

  function Rest(s: State): nat {
    16 * s.localCount + 8 * s.submittedCount + SubmitRest(s.submit) + ConfirmRest(s.confirm)
  }

  /** A step that goes on with what is running. */
  function NextEvent(s: State): Event {
    match s.submit
    case SubmitSpawned => ReadForSubmit
    case SubmitRead(_) => StoreTx(0)
    case Stored(_) => SendTx
    case Sent(_) => SelectSubmitted
    case NotSubmitting =>
      match s.confirm
      case Polling(_) => SeeCommitted
      case Committed(_) => SelectConfirmed
      case _ => ReadForConfirm
  }

  lemma GoesOn(c: Config, s: State)
    requires Inv(c, s) && LoopTop(c, s) == s && c.submittedLimit >= 1
    requires s.localCount + s.submittedCount > 0
    ensures var r := Step(c, s, NextEvent(s));
      && r.Next? && Rest(r.state) < Rest(s)
      && Inv(c, r.state) && LoopTop(c, r.state) == r.state
      && r.state.store.chain == s.store.chain
  {
    hide SyncL1.Inv, LoopTop, Step, OnChain;
    var e := NextEvent(s);
    IdleMeansDone(c, s);
    StepKeeps(c, s, e);
    SpawnedStays(c, s, e);
    StepEnabledExactly(c, s, e);
    StepMoves(c, s, e);
  }

  /** At the top of the loop a task runs whenever there is something to do. */
  lemma IdleMeansDone(c: Config, s: State)
    requires LoopTop(c, s) == s && Inv(c, s)
    ensures s.submit.NotSubmitting? <==> s.localCount == 0 || s.submittedCount == c.submittedLimit
    ensures s.confirm.NotConfirming? <==> s.submittedCount == 0
  {
    hide SyncL1.Inv;
  }

  /** The loop is never stuck: from every state some schedule, without producing anything more, submits and
  confirms every block. */
  lemma {:induction false} Drains(c: Config, s: State) returns (events: seq<Event>)
    requires Inv(c, s) && LoopTop(c, s) == s && c.submittedLimit >= 1
    ensures Run(c, s, events).Some?
    ensures var st := Run(c, s, events).value.store;
      && st.chain == s.store.chain
      && st.submitted == st.confirmed == At(st.chain, |st.chain| - 1)
    decreases Rest(s)
  {
    hide SyncL1.Inv, LoopTop, Step, NextEvent, Rest;
    if s.localCount + s.submittedCount == 0 {
      AllConfirmed(c, s);
      return [];
    }
    GoesOn(c, s);
    var rest := Drains(c, Step(c, s, NextEvent(s)).state);
    events := [NextEvent(s)] + rest;
    assert events[1..] == rest;
  }

  lemma AllConfirmed(c: Config, s: State)
    requires Inv(c, s) && s.localCount + s.submittedCount == 0
    ensures s.store.chain != [] && s.store.submitted == s.store.confirmed == At(s.store.chain, |s.store.chain| - 1)
  {
  }

  /** A chain of a given length. */
  function Tower(n: nat): (chain: seq<Block>)
    ensures |chain| == n + 1
  {
    var state := MerkleState(0, 0);
    if n == 0 then [Block(0, ZeroHash, state, state, 0)]
    else Tower(n - 1) + [Block(n, Last(Tower(n - 1)).Hash(), state, state, 0)]
  }

  lemma {:induction false} TowerLinked(n: nat)
    ensures Linked(Tower(n))
  {
    if n > 0 {
      TowerLinked(n - 1);
      LinkedAppend(Tower(n - 1), Last(Tower(n)));
    }
  }

  /** `n` local blocks, none submitted. */
  function Waiting(n: nat): State {
    var chain := Tower(n);
    Fresh(SyncL1.Store(chain, map[0 := SyncL1.Tx(0, chain[0])], At(chain, 0), At(chain, 0)))
  }

  lemma WaitingKeeps(c: Config, n: nat)
    ensures Inv(c, Waiting(n)) && Waiting(n).localCount == n
  {
    hide Linked, Tower;
    TowerLinked(n);
  }

  /** After the top of the loop the assertion holds in every state exactly when both limits are at least
  one. */
  lemma AlwaysEnabledExactly(c: Config)
    ensures (forall s: State | Inv(c, s) :: SomeBranchEnabled(c, LoopTop(c, s)))
      <==> c.localLimit >= 1 && c.submittedLimit >= 1
  {
    hide Inv, SyncL1.Inv, Tower;
    forall s: State | Inv(c, s) && c.localLimit >= 1 && c.submittedLimit >= 1
      ensures SomeBranchEnabled(c, LoopTop(c, s))
    {
    }
    if c.localLimit == 0 {
      WaitingKeeps(c, 0);
      assert !SomeBranchEnabled(c, LoopTop(c, Waiting(0)));
    } else if c.submittedLimit == 0 {
      WaitingKeeps(c, c.localLimit);
      assert !SomeBranchEnabled(c, LoopTop(c, Waiting(c.localLimit)));
    }
  }

  predicate IsSelect(e: Event) {
    e.SelectConfirmed? || e.SelectSubmitted? || e.SelectTick?
  }

  predicate IsSubmit(e: Event) {
    e.ReadForSubmit? || e.StoreTx? || e.SendTx? || e.RetrySubmit?
  }

  predicate IsConfirm(e: Event) {
    e.ReadForConfirm? || e.SeeCommitted? || e.RetryConfirm?
  }

  lemma TaskKeeps(c: Config, s: State, e: Event)
    requires Inv(c, s) && (IsSubmit(e) || IsConfirm(e))
    ensures !Step(c, s, e).Panic?
    ensures Step(c, s, e).Next? ==> Inv(c, Step(c, s, e).state)
  {
    hide LoopTop, Linked;
  }

  lemma AppendKeeps(st: SyncL1.Store, b: Block)
    requires SyncL1.Inv(st) && Follows(st.chain, b)
    ensures SyncL1.Inv(st.(chain := st.chain + [b]))
  {
    hide Linked;
    LinkedAppend(st.chain, b);
  }

  lemma SelectKeeps(c: Config, s: State, e: Event)
    requires Inv(c, s) && IsSelect(e)
    ensures !Step(c, s, e).Panic?
    ensures Step(c, s, e).Next? ==> Inv(c, Step(c, s, e).state)
  {
    hide LoopTop, Linked, SyncL1.Filed;
    if e.SelectConfirmed? && s.confirm.Committed? {
      LoopTopKeeps(c, s.(store := s.store.(confirmed := s.confirm.next), submittedCount := s.submittedCount - 1,
                         confirm := NotConfirming));
    } else if e.SelectSubmitted? && s.submit.Sent? {
      LoopTopKeeps(c, s.(store := s.store.(submitted := s.submit.next), localCount := s.localCount - 1,
                         submittedCount := s.submittedCount + 1, submit := NotSubmitting));
    } else if e.SelectTick? {
      LoopTopKeeps(c, s);
      if e.block.Some? && Follows(s.store.chain, e.block.value) {
        AppendKeeps(s.store, e.block.value);
        var store := s.store.(chain := s.store.chain + [e.block.value]);
        LoopTopKeeps(c, s.(store := store, localCount := s.localCount + 1));
      }
    }
  }

  lemma FreshKeeps(c: Config, st: SyncL1.Store)
    requires SyncL1.Inv(st) && st.submitted.number == st.confirmed.number
    ensures Inv(c, Fresh(st))
  {
  }

  /** Every step keeps the invariant; no count underflows and no expected transaction is missing. */
  lemma StepKeeps(c: Config, s: State, e: Event)
    requires Inv(c, s) && Sound(e)
    ensures !Step(c, s, e).Panic?
    ensures Step(c, s, e).Next? ==> Inv(c, Step(c, s, e).state)
  {
    hide Inv, LoopTop, Linked, SyncL1.Filed;
    if e.Restart? {
      if e.store.submitted.number == e.store.confirmed.number {
        FreshKeeps(c, e.store);
        LoopTopKeeps(c, Fresh(e.store));
      }
    } else if IsSelect(e) {
      SelectKeeps(c, s, e);
    } else {
      TaskKeeps(c, s, e);
    }
  }

  /** Producing stops at the limit: only a resync can leave more local blocks than that. */
  lemma LocalBound(c: Config, s: State, e: Event)
    requires Step(c, s, e).Next? && !e.Restart?
    ensures Step(c, s, e).state.localCount <= if s.localCount < c.localLimit then c.localLimit else s.localCount
  {
  }

  ghost predicate Extends(txs: map<nat, SyncL1.Tx>, more: map<nat, SyncL1.Tx>) {
    forall n | n in txs :: n in more && more[n] == txs[n]
  }

  /** Pointers only move forward, and blocks and transactions are only added, until an error restarts the
  loop. */
  lemma Monotone(c: Config, s: State, e: Event)
    requires Inv(c, s) && Step(c, s, e).Next? && !e.Restart?
    ensures var s' := Step(c, s, e).state;
      && s.store.chain <= s'.store.chain
      && s.store.submitted.number <= s'.store.submitted.number
      && s.store.confirmed.number <= s'.store.confirmed.number
      && Extends(s.store.txs, s'.store.txs)
  {
    hide SyncL1.Inv;
  }

  /** The state after a schedule; steps that are not enabled are skipped. */
  function Run(c: Config, s: State, events: seq<Event>): Option<State>
    decreases |events|
  {
    if events == [] then Some(s)
    else match Step(c, s, events[0])
      case Next(s') => Run(c, s', events[1..])
      case Disabled => Run(c, s, events[1..])
      case Panic => None
  }

  ghost predicate AllSound(events: seq<Event>) {
    forall i: nat | i < |events| :: Sound(events[i])
  }

  /** In every interleaving: no panic, and the invariant at the end. */
  lemma {:induction false} RunSafe(c: Config, s: State, events: seq<Event>)
    requires Inv(c, s) && AllSound(events)
    ensures Run(c, s, events).Some? && Inv(c, Run(c, s, events).value)
    decreases |events|
  {
    hide Inv, Step, Sound;
    if events != [] {
      StepKeeps(c, s, events[0]);
      var r := Step(c, s, events[0]);
      RunSafe(c, if r.Next? then r.state else s, events[1..]);
    }
  }

  class ProduceSubmitConfirm {
    const config: Config
    var store: SyncL1.Store
    var localCount: nat
    var submittedCount: nat
    var submit: SubmitTask
    var confirm: ConfirmTask

    function Abstract(): State
      reads this
    {
      State(store, localCount, submittedCount, submit, confirm)
    }

    /** After `init` has synced with L1. */
    constructor (config: Config, store: SyncL1.Store)
      requires SyncL1.Inv(store) && store.submitted.number == store.confirmed.number
      ensures Inv(config, Abstract()) && this.config == config && Abstract() == Fresh(store)
    {
      this.config := config;
      this.store := store;
      localCount := |store.chain| - 1 - store.submitted.number;
      submittedCount := store.submitted.number - store.confirmed.number;
      submit, confirm := NotSubmitting, NotConfirming;
    }

    /** Afterwards a submission runs exactly when a local block waits and the window has room, and a
    confirmation exactly when a submitted block waits.  A running task is not replaced. */
    method SpawnTasks()
      modifies this`submit, this`confirm
      ensures Abstract() == LoopTop(config, old(Abstract()))
      ensures Inv(config, old(Abstract())) ==>
        && Inv(config, Abstract())
        && (submit.NotSubmitting? <==> localCount == 0 || submittedCount == config.submittedLimit)
        && (confirm.NotConfirming? <==> submittedCount == 0)
      ensures !old(submit).NotSubmitting? ==> submit == old(submit)
      ensures !old(confirm).NotConfirming? ==> confirm == old(confirm)
    {
      hide SyncL1.Inv;
      if submit.NotSubmitting? && localCount > 0 && submittedCount < config.submittedLimit {
        submit := SubmitSpawned;
      }
      if confirm.NotConfirming? && submittedCount > 0 {
        confirm := ConfirmSpawned;
      }
    }

    /** The select branches. */
    method Select(e: Event) returns (enabled: bool)
      requires Inv(config, Abstract()) && IsSelect(e)
      modifies this
      ensures Inv(config, Abstract())
      ensures enabled <==> Step(config, old(Abstract()), e).Next?
      ensures enabled ==> Step(config, old(Abstract()), e) == Next(Abstract())
      ensures !enabled ==> Abstract() == old(Abstract())
    {
      hide SyncL1.Inv;
      SelectKeeps(config, Abstract(), e);
      match e {
        case SelectConfirmed =>
          if !confirm.Committed? {
            return false;
          }
          store := store.(confirmed := confirm.next);
          confirm := NotConfirming;
          submittedCount := submittedCount - 1;
        case SelectSubmitted =>
          if !submit.Sent? {
            return false;
          }
          store := store.(submitted := submit.next);
          submit := NotSubmitting;
          localCount := localCount - 1;
          submittedCount := submittedCount + 1;
        case SelectTick(block, stored) =>
          if localCount >= config.localLimit {
            return false;
          }
          if block.Some? && stored && Follows(store.chain, block.value) {
            store := store.(chain := store.chain + [block.value]);
            localCount := localCount + 1;
          }
      }
      SpawnTasks();
      return true;
    }

    /** `submit_next_block`, as far as the schedule lets it run.  Chain, pointers and counts stay; no stored
    transaction is replaced, and one that is added submits the block after the last submitted one.  When the
    submission is done that transaction is stored. */
    method AdvanceSubmit(e: Event) returns (enabled: bool)
      requires Inv(config, Abstract()) && IsSubmit(e)
      modifies this`submit, this`store
      ensures Inv(config, Abstract())
      ensures store == old(store).(txs := store.txs) && Extends(old(store).txs, store.txs)
      ensures forall n | n in store.txs && n !in old(store).txs ::
        e.StoreTx? && n == store.submitted.number + 1 && store.txs[n] == SyncL1.Tx(e.id, store.chain[n])
      ensures submit.Sent? ==>
        var n := store.submitted.number + 1;
        n in store.txs && store.txs[n].block == store.chain[n] && submit.next == At(store.chain, n)
      ensures enabled <==> Step(config, old(Abstract()), e).Next?
      ensures enabled ==> Step(config, old(Abstract()), e) == Next(Abstract())
      ensures !enabled ==> Abstract() == old(Abstract())
    {
      hide Linked, LoopTop;
      TaskKeeps(config, Abstract(), e);
      match e
      case ReadForSubmit =>
        var n := store.submitted.number + 1;
        enabled := submit.SubmitSpawned?;
        if enabled && n < |store.chain| {
          submit := SubmitRead(At(store.chain, n));
        }
      case StoreTx(id) =>
        enabled := submit.SubmitRead?;
        if enabled {
          var n := submit.next.number;
          if n !in store.txs {
            store := store.(txs := store.txs[n := SyncL1.Tx(id, store.chain[n])]);
          }
          submit := Stored(submit.next);
        }
      case SendTx =>
        enabled := submit.Stored?;
        if enabled {
          submit := Sent(submit.next);
        }
      case RetrySubmit =>
        enabled := submit.SubmitRead? || submit.Stored?;
        if enabled {
          submit := SubmitSpawned;
        }
    }

    /** `confirm_next_block`; the transaction it expects in the store is there. */
    method AdvanceConfirm(e: Event) returns (enabled: bool)
      requires Inv(config, Abstract()) && IsConfirm(e)
      modifies this`confirm
      ensures Inv(config, Abstract())
      ensures enabled <==> Step(config, old(Abstract()), e).Next?
      ensures enabled ==> Step(config, old(Abstract()), e) == Next(Abstract())
      ensures !enabled ==> Abstract() == old(Abstract())
    {
      hide Linked, LoopTop;
      TaskKeeps(config, Abstract(), e);
      match e
      case ReadForConfirm =>
        var n := store.confirmed.number + 1;
        enabled := confirm.ConfirmSpawned?;
        if enabled {
          assert n in store.txs;
          confirm := Polling(At(store.chain, n));
        }
      case SeeCommitted =>
        enabled := confirm.Polling?;
        if enabled {
          confirm := Committed(confirm.next);
        }
      case RetryConfirm =>
        enabled := confirm.Polling?;
        if enabled {
          confirm := ConfirmSpawned;
        }
    }

    /** After an error: the tasks are dropped, L1 is synced and the counts are read off the store.  Every
    block above the synced one waits to be submitted, and nothing waits to be confirmed. */
    method Reset(synced: SyncL1.Store)
      requires SyncL1.Inv(synced) && synced.submitted.number == synced.confirmed.number
      modifies this
      ensures Inv(config, Abstract())
      ensures store == synced && localCount == |synced.chain| - 1 - synced.confirmed.number && submittedCount == 0
      ensures confirm.NotConfirming? && (submit == NotSubmitting || submit == SubmitSpawned)
      ensures submit.SubmitSpawned? <==> synced.confirmed.number + 1 < |synced.chain| && config.submittedLimit > 0
      ensures Step(config, old(Abstract()), Restart(synced)) == Next(Abstract())
    {
      hide Linked, SyncL1.Filed;
      store := synced;
      localCount := |store.chain| - 1 - store.submitted.number;
      submittedCount := store.submitted.number - store.confirmed.number;
      submit, confirm := NotSubmitting, NotConfirming;
      FreshKeeps(config, synced);
      SpawnTasks();
    }

    /** The endless loop, for as long as a schedule lasts: the always-enabled assertion holds at every
    turn. */
    method RunLoop(events: seq<Event>)
      requires Inv(config, Abstract()) && config.localLimit >= 1 && config.submittedLimit >= 1
      requires AllSound(events)
      modifies this
      ensures Inv(config, Abstract())
      ensures Run(config, LoopTop(config, old(Abstract())), events) == Some(Abstract())
    {
      hide Inv, LoopTop, Step, SyncL1.Inv;
      LoopTopKeeps(config, Abstract());
      LoopTopTwice(config, Abstract());
      SpawnTasks();
      ghost var goal := Run(config, Abstract(), events);
      assert events[0..] == events;
      for i := 0 to |events|
        invariant Inv(config, Abstract())
        invariant LoopTop(config, Abstract()) == Abstract()
        invariant Run(config, Abstract(), events[i..]) == goal
      {
        AlwaysEnabledExactly(config);
        assert SomeBranchEnabled(config, Abstract());
        var e := events[i];
        assert Sound(e);
        assert events[i..][0] == e && events[i..][1..] == events[i + 1..];
        StepKeeps(config, Abstract(), e);
        SpawnedStays(config, Abstract(), e);
        var enabled;
        if IsSelect(e) {
          enabled := Select(e);
        } else if e.Restart? {
          RestartEnabled(config, Abstract(), e.store);
          if e.store.submitted.number == e.store.confirmed.number {
            Reset(e.store);
          }
        } else if IsConfirm(e) {
          enabled := AdvanceConfirm(e);
        } else {
          enabled := AdvanceSubmit(e);
        }
      }
    }
  }

  lemma RestartEnabled(c: Config, s: State, store: SyncL1.Store)
    ensures store.submitted.number != store.confirmed.number ==> Step(c, s, Restart(store)) == Disabled
  {
  }

  lemma LoopTopTwice(c: Config, s: State)
    ensures LoopTop(c, LoopTop(c, s)) == LoopTop(c, s)
  {
  }

  /** Between two selects nothing becomes spawnable. */
  lemma SpawnedStays(c: Config, s: State, e: Event)
    requires Inv(c, s) && LoopTop(c, s) == s
    ensures Step(c, s, e).Next? ==> LoopTop(c, Step(c, s, e).state) == Step(c, s, e).state
  {
    hide SyncL1.Inv;
  }
}
