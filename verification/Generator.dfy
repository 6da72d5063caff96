/** Applying a block: withdrawals, deposits, then transactions, each on the state the one before left.
Signatures, virtual machine runs and fees are functions given from outside; a state is its own root. */
module BlockGenerator {
  import opened Encoding
  import opened Wrappers

  /** Nonces of the existing accounts, by id; `data` is everything else. */
  datatype World = World(nonces: seq<U32>, data: nat)

  datatype Tx = Tx(from: nat, nonce: U32, to: nat, body: nat)

  type Withdrawal = nat
  type Deposit = nat

  /** Nonce writes a backend can make: a new account, one more for an account, and the closing increase
  for the sender when nothing raised its nonce yet. */
  datatype NonceOp = Create | Increase(id: nat) | IncreaseSender

  datatype MachineRun =
    | Crashed(typed: bool)
    | Exited(success: bool, ops: seq<NonceOp>, data: nat, withinLimits: bool)

  datatype Fee = Paid(data: nat) | Unpaid(typed: bool)

  /** What a withdrawal does before the nonce: the account it is from, and the balances left. */
  datatype Debit = Debit(account: nat, data: nat)

  /** What a deposit does: the accounts it creates and the balances left. */
  datatype Credit = Credit(created: nat, data: nat)

  datatype Rules = Rules(
    withdrawalSigned: (World, Withdrawal) -> bool,
    withdraw: (World, Withdrawal) -> Option<Debit>,
    deposit: (World, Deposit) -> Option<Credit>,
    signed: (World, Tx) -> bool,
    backend: (World, nat) -> bool,
    machine: (World, Tx) -> MachineRun,
    fee: (World, Tx) -> Fee,
    enforceCheckpoints: bool)

  /** A checkpoint is the state it commits to. */
  datatype BlockArgs = BlockArgs(
    prev: World,
    post: World,
    withdrawals: seq<Withdrawal>,
    deposits: seq<Deposit>,
    txs: seq<Tx>,
    checkpoints: seq<World>,
    producerKnown: bool)

  // ---------- Nonces ----------

  function NonceOf(nonces: seq<U32>, id: nat): U32 {
    if id < |nonces| then nonces[id] else 0
  }

  /** One nonce write; 32-bit additions wrap. */
  function Play(nonces: seq<U32>, sender: nat, original: U32, op: NonceOp): Option<seq<U32>> {
    match op
    case Create => Some(nonces + [0])
    case Increase(id) =>
      if id < |nonces| then Some(nonces[id := (nonces[id] + 1) % (U32_MAX + 1)]) else None
    case IncreaseSender =>
      if sender >= |nonces| || nonces[sender] < original then None
      else if nonces[sender] == original then Some(nonces[sender := (original + 1) % (U32_MAX + 1)])
      else Some(nonces)
  }

  /** A write raises at most one nonce, by one; a new account starts at zero. */
  lemma PlayExactly(nonces: seq<U32>, sender: nat, original: U32, op: NonceOp)
    ensures var r := Play(nonces, sender, original, op);
      && (r.None? <==> match op
            case Create => false
            case Increase(id) => id >= |nonces|
            case IncreaseSender => sender >= |nonces| || nonces[sender] < original)
      && (r.Some? ==>
            && |r.value| == |nonces| + (if op.Create? then 1 else 0)
            && (op.Create? ==> r.value[|nonces|] == 0)
            && forall id: nat | id < |nonces| ::
              r.value[id] == if Raises(nonces, sender, original, op, id) then (nonces[id] + 1) % (U32_MAX + 1)
                             else nonces[id])
  {
  }

  /** The write is for this account; the sender's closing increase only counts when nothing raised it. */
  predicate Raises(nonces: seq<U32>, sender: nat, original: U32, op: NonceOp, id: nat) {
    || op == Increase(id)
    || (op.IncreaseSender? && id == sender && id < |nonces| && nonces[id] == original)
  }

  function PlayAll(nonces: seq<U32>, sender: nat, original: U32, ops: seq<NonceOp>): Option<seq<U32>>
    decreases |ops|
  {
    if ops == [] then Some(nonces)
    else match Play(nonces, sender, original, ops[0])
      case None => None
      case Some(next) => PlayAll(next, sender, original, ops[1..])
  }

  // ---------- One transaction ----------

  datatype Executed = Ran(world: World, success: bool) | TxError | OtherError

  function Execute(rules: Rules, w: World, tx: Tx): Executed {
    if !rules.backend(w, tx.to) then TxError
    else
      var before := NonceOf(w.nonces, tx.from);
      match rules.machine(w, tx)
      case Crashed(typed) => if typed then TxError else OtherError
      case Exited(true, ops, data, within) =>
        (match PlayAll(w.nonces, tx.from, before, ops)
         case None => Failure(rules, w, tx, before, within)  // the backend exits with an error code
         case Some(nonces) =>
           if NonceOf(nonces, tx.from) <= before || !within then TxError else Ran(World(nonces, data), true))
      case Exited(false, _, _, within) => Failure(rules, w, tx, before, within)
  }

  /** Back to the snapshot, then only the fee and the nonce. */
  function Failure(rules: Rules, w: World, tx: Tx, before: U32, within: bool): Executed {
    match rules.fee(w, tx)
    case Unpaid(typed) => if typed then TxError else OtherError
    case Paid(data) =>
      if before == U32_MAX || tx.from >= |w.nonces| || !within then TxError
      else Ran(World(w.nonces[tx.from := before + 1], data), false)
  }

  datatype Kind = Signature | Execution

  datatype TxResult = Pass(world: World, receipt: Receipt) | Bad(kind: Kind) | Broken

  /** A receipt names its transaction, says how it exited and commits to the state after it. */
  datatype Receipt = Receipt(tx: Tx, success: bool, post: World)

  /** Signature, nonce, execution and checkpoint of transaction `i`. */
  function CheckTx(rules: Rules, b: BlockArgs, w: World, i: nat): TxResult
    requires i < |b.txs|
  {
    var tx := b.txs[i];
    if tx.from >= |w.nonces| || tx.to >= |w.nonces| || !rules.signed(w, tx) then Bad(Signature)
    else if tx.nonce != w.nonces[tx.from] then Bad(Execution)
    else match Execute(rules, w, tx)
      case TxError => Bad(Execution)
      case OtherError => Broken
      case Ran(next, success) =>
        var k := |b.withdrawals| + i;
        if rules.enforceCheckpoints && k >= |b.checkpoints| then Broken
        else if rules.enforceCheckpoints && b.checkpoints[k] != next then Bad(Execution)
        else Pass(next, Receipt(tx, success, next))
  }

  // ---------- The fold ----------

  /** Pay the fee and burn the assets, then raise the account's nonce unless it is at its maximum. */
  function Withdraw(rules: Rules, w: World, x: Withdrawal): Option<World> {
    match rules.withdraw(w, x)
    case None => None
    case Some(Debit(id, data)) =>
      if id >= |w.nonces| || w.nonces[id] == U32_MAX then None
      else Some(World(w.nonces[id := w.nonces[id] + 1], data))
  }

  /** Find or create the accounts and mint; a new account starts at nonce zero. */
  function TakeDeposit(rules: Rules, w: World, x: Deposit): Option<World> {
    match rules.deposit(w, x)
    case None => None
    case Some(Credit(created, data)) => Some(World(w.nonces + seq(created, _ => 0), data))
  }

  datatype StepResult = Stepped(world: World) | BadSignature | StepError | StepPanic

  function CheckWithdrawal(rules: Rules, b: BlockArgs, w: World, i: nat): StepResult
    requires i < |b.withdrawals|
  {
    if !rules.withdrawalSigned(w, b.withdrawals[i]) then BadSignature
    else match Withdraw(rules, w, b.withdrawals[i])
      case None => StepError
      case Some(next) =>
        if rules.enforceCheckpoints && i >= |b.checkpoints| then StepError
        else if rules.enforceCheckpoints && b.checkpoints[i] != next then StepPanic
        else Stepped(next)
  }

  /** The state after the first `k` withdrawals, if all of them pass. */
  function AfterWithdrawals(rules: Rules, b: BlockArgs, k: nat): Option<World>
    requires k <= |b.withdrawals|
  {
    if k == 0 then Some(b.prev)
    else match AfterWithdrawals(rules, b, k - 1)
      case None => None
      case Some(w) =>
        var r := CheckWithdrawal(rules, b, w, k - 1);
        if r.Stepped? then Some(r.world) else None
  }

  function AfterDeposits(rules: Rules, b: BlockArgs, k: nat): Option<World>
    requires k <= |b.deposits|
  {
    if k == 0 then AfterWithdrawals(rules, b, |b.withdrawals|)
    else match AfterDeposits(rules, b, k - 1)
      case None => None
      case Some(w) => TakeDeposit(rules, w, b.deposits[k - 1])
  }

  /** The state and the receipts after the first `k` transactions, if all of them pass. */
  function AfterTxs(rules: Rules, b: BlockArgs, k: nat): (r: Option<(World, seq<Receipt>)>)
    requires k <= |b.txs|
    ensures r.Some? ==> |r.value.1| == k
  {
    if k == 0 then
      match AfterDeposits(rules, b, |b.deposits|)
      case None => None
      case Some(w) => Some((w, []))
    else match AfterTxs(rules, b, k - 1)
      case None => None
      case Some((w, receipts)) =>
        var r := CheckTx(rules, b, w, k - 1);
        if r.Pass? then Some((r.world, receipts + [r.receipt])) else None
  }

  datatype Target = WithdrawalTarget(index: nat) | TxTarget(index: nat, kind: Kind)

  datatype Result =
    | Success(prevTxs: World, receipts: seq<Receipt>)
    | Challenge(target: Target)
    | Error
    | Panicked

  // ---------- The program ----------

  method ApplyWithdrawals(rules: Rules, b: BlockArgs) returns (r: Option<World>, stop: Result)
    ensures r == AfterWithdrawals(rules, b, |b.withdrawals|)
    ensures r.None? ==> !stop.Success?
    ensures r.None? && stop.Challenge? ==> stop.target.WithdrawalTarget?
    ensures r.None? ==> forall i: nat :: stop == Challenge(WithdrawalTarget(i)) <==> Unsigned(rules, b, i)
    ensures r.Some? ==> forall i: nat :: !Unsigned(rules, b, i)
    ensures r.None? ==> (stop == Panicked <==> exists i: nat :: Miscommitted(rules, b, i))
    ensures r.Some? ==> forall i: nat :: !Miscommitted(rules, b, i)
  {
    var w := b.prev;
    for i := 0 to |b.withdrawals|
      invariant AfterWithdrawals(rules, b, i) == Some(w)
    {
      var step := CheckWithdrawal(rules, b, w, i);
      if !step.Stepped? {
        NoMoreWithdrawals(rules, b, i + 1);
        WithdrawalsBefore(rules, b, i);
        assert step.StepPanic? ==> Miscommitted(rules, b, i);
        r := None;
        stop := if step.BadSignature? then Challenge(WithdrawalTarget(i))
                else if step.StepError? then Error else Panicked;
        return;
      }
      w := step.world;
    }
    WithdrawalsBefore(rules, b, |b.withdrawals|);
    return Some(w), Error;
  }

  /** The first withdrawal that does not pass, when it is its signature that fails. */
  ghost predicate Unsigned(rules: Rules, b: BlockArgs, i: nat) {
    && i < |b.withdrawals| && AfterWithdrawals(rules, b, i).Some?
    && CheckWithdrawal(rules, b, AfterWithdrawals(rules, b, i).value, i).BadSignature?
  }

  /** The first withdrawal that does not pass, when its checkpoint commits to another state. */
  ghost predicate Miscommitted(rules: Rules, b: BlockArgs, i: nat) {
    && i < |b.withdrawals| && AfterWithdrawals(rules, b, i).Some?
    && CheckWithdrawal(rules, b, AfterWithdrawals(rules, b, i).value, i).StepPanic?
  }

  lemma {:induction false} WithdrawalsBefore(rules: Rules, b: BlockArgs, k: nat)
    requires k <= |b.withdrawals| && AfterWithdrawals(rules, b, k).Some?
    ensures forall i: nat | i < k ::
      && AfterWithdrawals(rules, b, i).Some?
      && CheckWithdrawal(rules, b, AfterWithdrawals(rules, b, i).value, i).Stepped?
  {
    if k > 0 {
      WithdrawalsBefore(rules, b, k - 1);
    }
  }

  lemma {:induction false} NoMoreWithdrawals(rules: Rules, b: BlockArgs, k: nat)
    requires k <= |b.withdrawals| && AfterWithdrawals(rules, b, k).None?
    ensures forall i: nat | k <= i <= |b.withdrawals| :: AfterWithdrawals(rules, b, i).None?
    decreases |b.withdrawals| - k
  {
    if k < |b.withdrawals| {
      NoMoreWithdrawals(rules, b, k + 1);
    }
  }

  method ApplyDeposits(rules: Rules, b: BlockArgs, w0: World) returns (r: Option<World>)
    requires AfterDeposits(rules, b, 0) == Some(w0)
    ensures r == AfterDeposits(rules, b, |b.deposits|)
  {
    var w := w0;
    for i := 0 to |b.deposits|
      invariant AfterDeposits(rules, b, i) == Some(w)
    {
      var next := TakeDeposit(rules, w, b.deposits[i]);
      if next.None? {
        NoMoreDeposits(rules, b, i + 1);
        return None;
      }
      w := next.value;
    }
    return Some(w);
  }

  lemma {:induction false} NoMoreDeposits(rules: Rules, b: BlockArgs, k: nat)
    requires k <= |b.deposits| && AfterDeposits(rules, b, k).None?
    ensures AfterDeposits(rules, b, |b.deposits|).None?
    decreases |b.deposits| - k
  {
    if k < |b.deposits| {
      NoMoreDeposits(rules, b, k + 1);
    }
  }

  lemma {:induction false} NoMoreTxs(rules: Rules, b: BlockArgs, k: nat)
    requires k <= |b.txs| && AfterTxs(rules, b, k).None?
    ensures forall i: nat | k <= i <= |b.txs| :: AfterTxs(rules, b, i).None?
    decreases |b.txs| - k
  {
    if k < |b.txs| {
      NoMoreTxs(rules, b, k + 1);
    }
  }

  /** All earlier transactions passed. */
  lemma {:induction false} TxsBefore(rules: Rules, b: BlockArgs, k: nat)
    requires k <= |b.txs| && AfterTxs(rules, b, k).Some?
    ensures forall i: nat | i < k ::
      && AfterTxs(rules, b, i).Some?
      && CheckTx(rules, b, AfterTxs(rules, b, i).value.0, i).Pass?
  {
    if k > 0 {
      TxsBefore(rules, b, k - 1);
    }
  }

  /** The first transaction that does not pass. */
  ghost predicate StopsAt(rules: Rules, b: BlockArgs, i: nat) {
    i < |b.txs| && AfterTxs(rules, b, i).Some? && !CheckTx(rules, b, AfterTxs(rules, b, i).value.0, i).Pass?
  }

  ghost predicate StoppedBy(rules: Rules, b: BlockArgs, i: nat, stop: Result) {
    StopsAt(rules, b, i) && stop == Stop(CheckTx(rules, b, AfterTxs(rules, b, i).value.0, i), i)
  }

  lemma StopsOnce(rules: Rules, b: BlockArgs, i: nat, j: nat)
    requires StopsAt(rules, b, i) && StopsAt(rules, b, j)
    ensures i == j
  {
    if i < j {
      TxsBefore(rules, b, j);
    } else if j < i {
      TxsBefore(rules, b, i);
    }
  }

  method ApplyTxs(rules: Rules, b: BlockArgs, w0: World) returns (r: Option<(World, seq<Receipt>)>, stop: Result)
    requires AfterTxs(rules, b, 0) == Some((w0, []))
    ensures r == AfterTxs(rules, b, |b.txs|)
    ensures r.None? ==> exists i: nat :: StoppedBy(rules, b, i, stop)
  {
    var w, receipts := w0, [];
    for i := 0 to |b.txs|
      invariant AfterTxs(rules, b, i) == Some((w, receipts))
    {
      var step := CheckTx(rules, b, w, i);
      if !step.Pass? {
        NoMoreTxs(rules, b, i + 1);
        assert StoppedBy(rules, b, i, Stop(step, i));
        return None, Stop(step, i);
      }
      w, receipts := step.world, receipts + [step.receipt];
    }
    return Some((w, receipts)), Error;
  }

  function Stop(r: TxResult, i: nat): Result {
    if r.Bad? then Challenge(TxTarget(i, r.kind)) else Error
  }

  /** The fold goes through and ends in the declared post state. */
  predicate Applies(rules: Rules, b: BlockArgs) {
    && b.producerKnown
    && AfterTxs(rules, b, |b.txs|).Some? && AfterTxs(rules, b, |b.txs|).value.0 == b.post
  }

  /** Block application is the left fold: success is one receipt per transaction and the declared post
  state; a transaction challenge names the first transaction that fails, with all earlier ones passing. */
  method VerifyAndApplyBlock(rules: Rules, b: BlockArgs, current: World) returns (r: Result, world: World)
    ensures r.Success? <==> current == b.prev && Applies(rules, b)
    ensures r.Success? ==>
      && world == b.post
      && AfterDeposits(rules, b, |b.deposits|) == Some(r.prevTxs)
      && r.receipts == AfterTxs(rules, b, |b.txs|).value.1 && |r.receipts| == |b.txs|
    ensures forall i: nat, kind: Kind :: r == Challenge(TxTarget(i, kind)) <==>
      && current == b.prev && b.producerKnown && StopsAt(rules, b, i)
      && CheckTx(rules, b, AfterTxs(rules, b, i).value.0, i) == Bad(kind)
    ensures forall i: nat :: r == Challenge(WithdrawalTarget(i)) <==>
      current == b.prev && b.producerKnown && Unsigned(rules, b, i)
    ensures r.Success? <==> current == b.prev && b.producerKnown && Reaches(rules, b, Length(b), b.post)
    ensures r == Panicked <==>
      || current != b.prev
      || (b.producerKnown &&
          ((exists i: nat :: Miscommitted(rules, b, i)) ||
           (AfterTxs(rules, b, |b.txs|).Some? && AfterTxs(rules, b, |b.txs|).value.0 != b.post)))
  {
    AppliesExactly(rules, b);
    world := current;
    if current != b.prev {
      return Panicked, world;
    }
    if !b.producerKnown {
      return Error, world;
    }
    var afterWithdrawals, stop := ApplyWithdrawals(rules, b);
    if afterWithdrawals.None? {
      NoMoreDeposits(rules, b, 0);
      NothingAfter(rules, b);
      return stop, world;
    }
    var afterDeposits := ApplyDeposits(rules, b, afterWithdrawals.value);
    if afterDeposits.None? {
      NothingAfter(rules, b);
      return Error, world;
    }
    world := afterDeposits.value;
    var done;
    done, stop := ApplyTxs(rules, b, world);
    if done.None? {
      StoppedThere(rules, b, stop);
      return stop, world;
    }
    NothingStops(rules, b);
    world := done.value.0;
    if world != b.post {
      return Panicked, world;
    }
    return Success(afterDeposits.value, done.value.1), world;
  }

  lemma {:induction false} NothingAfter(rules: Rules, b: BlockArgs)
    requires AfterDeposits(rules, b, |b.deposits|).None?
    ensures forall i: nat :: !StopsAt(rules, b, i)
    ensures AfterTxs(rules, b, |b.txs|).None?
  {
    assert AfterTxs(rules, b, 0).None?;
    NoMoreTxs(rules, b, 0);
  }

  lemma NothingStops(rules: Rules, b: BlockArgs)
    requires AfterTxs(rules, b, |b.txs|).Some?
    ensures forall i: nat :: !StopsAt(rules, b, i)
  {
    TxsBefore(rules, b, |b.txs|);
  }

  lemma StoppedThere(rules: Rules, b: BlockArgs, stop: Result)
    requires exists i: nat :: StoppedBy(rules, b, i, stop)
    ensures !stop.Success? && (stop.Challenge? ==> stop.target.TxTarget?)
    ensures forall i: nat, kind: Kind :: stop == Challenge(TxTarget(i, kind)) <==>
      StopsAt(rules, b, i) && CheckTx(rules, b, AfterTxs(rules, b, i).value.0, i) == Bad(kind)
  {
    var k: nat :| StoppedBy(rules, b, k, stop);
    forall i: nat, kind: Kind
      ensures stop == Challenge(TxTarget(i, kind)) <==>
        StopsAt(rules, b, i) && CheckTx(rules, b, AfterTxs(rules, b, i).value.0, i) == Bad(kind)
    {
      if StopsAt(rules, b, i) {
        StopsOnce(rules, b, i, k);
      }
    }
  }

  // ---------- What a block has passed ----------

  /** The backend exits well, within its limits, and has raised the sender's nonce. */
  ghost predicate Succeeds(rules: Rules, w: World, tx: Tx, next: World) {
    var before, run := NonceOf(w.nonces, tx.from), rules.machine(w, tx);
    && rules.backend(w, tx.to)
    && run.Exited? && run.success && run.withinLimits
    && PlayAll(w.nonces, tx.from, before, run.ops) == Some(next.nonces) && next.data == run.data
    && before < NonceOf(next.nonces, tx.from)
  }

  /** The backend fails: of all it did only the fee and the sender's nonce are left. */
  ghost predicate Fails(rules: Rules, w: World, tx: Tx, next: World) {
    var before, run := NonceOf(w.nonces, tx.from), rules.machine(w, tx);
    && rules.backend(w, tx.to)
    && run.Exited? && run.withinLimits && (!run.success || PlayAll(w.nonces, tx.from, before, run.ops).None?)
    && rules.fee(w, tx) == Paid(next.data)
    && tx.from < |w.nonces| && before < U32_MAX && next.nonces == w.nonces[tx.from := before + 1]
  }

  /** The transaction cannot be executed, which makes the block bad. */
  ghost predicate CannotRun(rules: Rules, w: World, tx: Tx) {
    var before, run := NonceOf(w.nonces, tx.from), rules.machine(w, tx);
    || !rules.backend(w, tx.to)
    || run == Crashed(true)
    || (run.Exited? &&
        var played := PlayAll(w.nonces, tx.from, before, run.ops);
        if run.success && played.Some? then !run.withinLimits || NonceOf(played.value, tx.from) <= before
        else
          || rules.fee(w, tx) == Unpaid(true)
          || (rules.fee(w, tx).Paid? && (!run.withinLimits || before == U32_MAX || tx.from >= |w.nonces|)))
  }

  lemma ExecuteExactly(rules: Rules, w: World, tx: Tx, next: World)
    ensures Execute(rules, w, tx) == Ran(next, true) <==> Succeeds(rules, w, tx, next)
    ensures Execute(rules, w, tx) == Ran(next, false) <==> Fails(rules, w, tx, next)
    ensures Execute(rules, w, tx) == TxError <==> CannotRun(rules, w, tx)
  {
    hide PlayAll;
  }

  /** When checkpoints are enforced, number `k` commits to this state. */
  ghost predicate Checkpointed(rules: Rules, b: BlockArgs, k: nat, w: World) {
    rules.enforceCheckpoints ==> k < |b.checkpoints| && b.checkpoints[k] == w
  }

  ghost predicate WithdrawalPasses(rules: Rules, b: BlockArgs, i: nat, w: World, next: World)
    requires i < |b.withdrawals|
  {
    var debit := rules.withdraw(w, b.withdrawals[i]);
    && rules.withdrawalSigned(w, b.withdrawals[i])
    && debit.Some? && debit.value.account < |w.nonces| && w.nonces[debit.value.account] < U32_MAX
    && next.nonces == w.nonces[debit.value.account := w.nonces[debit.value.account] + 1]
    && next.data == debit.value.data
    && Checkpointed(rules, b, i, next)
  }

  ghost predicate DepositPasses(rules: Rules, b: BlockArgs, i: nat, w: World, next: World)
    requires i < |b.deposits|
  {
    var credit := rules.deposit(w, b.deposits[i]);
    && credit.Some? && next.data == credit.value.data
    && |next.nonces| == |w.nonces| + credit.value.created && w.nonces <= next.nonces
    && forall id: nat | |w.nonces| <= id < |next.nonces| :: next.nonces[id] == 0
  }

  /** Both accounts exist and the sender's signature is good. */
  ghost predicate Authentic(rules: Rules, w: World, tx: Tx) {
    tx.from < |w.nonces| && tx.to < |w.nonces| && rules.signed(w, tx)
  }

  ghost predicate TxPasses(rules: Rules, b: BlockArgs, i: nat, w: World, next: World)
    requires i < |b.txs|
  {
    var tx := b.txs[i];
    && Authentic(rules, w, tx) && tx.nonce == w.nonces[tx.from]
    && (Succeeds(rules, w, tx, next) || Fails(rules, w, tx, next))
    && Checkpointed(rules, b, |b.withdrawals| + i, next)
  }

  /** The nonce, the execution or the checkpoint is wrong. */
  ghost predicate TxIsWrong(rules: Rules, b: BlockArgs, i: nat, w: World)
    requires i < |b.txs|
  {
    var tx, k := b.txs[i], |b.withdrawals| + i;
    || tx.nonce != NonceOf(w.nonces, tx.from)
    || CannotRun(rules, w, tx)
    || (rules.enforceCheckpoints && k < |b.checkpoints|
        && exists next :: (Succeeds(rules, w, tx, next) || Fails(rules, w, tx, next)) && next != b.checkpoints[k])
  }

  function Length(b: BlockArgs): nat {
    |b.withdrawals| + |b.deposits| + |b.txs|
  }

  /** Step `k` of the block: withdrawals, then deposits, then transactions. */
  ghost predicate StepPasses(rules: Rules, b: BlockArgs, k: nat, w: World, next: World)
    requires k < Length(b)
  {
    var d, t := |b.withdrawals|, |b.withdrawals| + |b.deposits|;
    if k < d then WithdrawalPasses(rules, b, k, w, next)
    else if k < t then DepositPasses(rules, b, k - d, w, next)
    else TxPasses(rules, b, k - t, w, next)
  }

  /** The states the first steps of the block go through. */
  ghost predicate Trace(rules: Rules, b: BlockArgs, worlds: seq<World>) {
    && 0 < |worlds| <= Length(b) + 1 && worlds[0] == b.prev
    && forall i: nat, j: nat | i + 1 == j < |worlds| :: StepPasses(rules, b, i, worlds[i], worlds[j])
  }

  /** The first `k` steps pass and end in `w`. */
  ghost predicate Reaches(rules: Rules, b: BlockArgs, k: nat, w: World) {
    exists worlds :: Trace(rules, b, worlds) && |worlds| == k + 1 && worlds[k] == w
  }

  lemma WithdrawalExactly(rules: Rules, b: BlockArgs, i: nat, w: World, next: World)
    requires i < |b.withdrawals|
    ensures CheckWithdrawal(rules, b, w, i) == Stepped(next) <==> WithdrawalPasses(rules, b, i, w, next)
    ensures CheckWithdrawal(rules, b, w, i).BadSignature? <==> !rules.withdrawalSigned(w, b.withdrawals[i])
    ensures CheckWithdrawal(rules, b, w, i).StepPanic? <==>
      && rules.withdrawalSigned(w, b.withdrawals[i]) && rules.enforceCheckpoints && i < |b.checkpoints|
      && var after := Withdraw(rules, w, b.withdrawals[i]); after.Some? && after.value != b.checkpoints[i]
  {
  }

  lemma DepositExactly(rules: Rules, b: BlockArgs, i: nat, w: World, next: World)
    requires i < |b.deposits|
    ensures TakeDeposit(rules, w, b.deposits[i]) == Some(next) <==> DepositPasses(rules, b, i, w, next)
  {
    var credit := rules.deposit(w, b.deposits[i]);
    if DepositPasses(rules, b, i, w, next) {
      assert next.nonces == w.nonces + seq(credit.value.created, _ => 0);
    }
  }

  lemma TxExactly(rules: Rules, b: BlockArgs, i: nat, w: World, next: World)
    requires i < |b.txs|
    ensures var r := CheckTx(rules, b, w, i);
      && (r.Pass? && r.world == next <==> TxPasses(rules, b, i, w, next))
      && (r.Pass? ==> r.receipt == Receipt(b.txs[i], Succeeds(rules, w, b.txs[i], r.world), r.world))
      && (r == Bad(Signature) <==> !Authentic(rules, w, b.txs[i]))
      && (r == Bad(Execution) <==> Authentic(rules, w, b.txs[i]) && TxIsWrong(rules, b, i, w))
  {
    hide Execute, Succeeds, Fails, CannotRun;
    var tx := b.txs[i];
    ExecuteExactly(rules, w, tx, next);
    forall other
      ensures Execute(rules, w, tx) == Ran(other, true) <==> Succeeds(rules, w, tx, other)
      ensures Execute(rules, w, tx) == Ran(other, false) <==> Fails(rules, w, tx, other)
    {
      ExecuteExactly(rules, w, tx, other);
    }
  }

  /** Where the fold stands after `k` steps. */
  ghost function StateAt(rules: Rules, b: BlockArgs, k: nat): Option<World>
    requires k <= Length(b)
  {
    var d, t := |b.withdrawals|, |b.withdrawals| + |b.deposits|;
    if k < d then AfterWithdrawals(rules, b, k)
    else if k < t then AfterDeposits(rules, b, k - d)
    else
      var r := AfterTxs(rules, b, k - t);
      if r.Some? then Some(r.value.0) else None
  }

  lemma StateAtStart(rules: Rules, b: BlockArgs)
    ensures StateAt(rules, b, 0) == Some(b.prev)
  {
    hide CheckTx;
  }

  /** One step of the fold is one step of the trace. */
  lemma StateAtNext(rules: Rules, b: BlockArgs, k: nat, next: World)
    requires k < Length(b)
    ensures StateAt(rules, b, k + 1) == Some(next) <==>
      StateAt(rules, b, k).Some? && StepPasses(rules, b, k, StateAt(rules, b, k).value, next)
  {
    hide CheckTx, CheckWithdrawal, TakeDeposit, WithdrawalPasses, DepositPasses, TxPasses;
    var d, t := |b.withdrawals|, |b.withdrawals| + |b.deposits|;
    var before := StateAt(rules, b, k);
    if before.Some? {
      if k < d {
        WithdrawalExactly(rules, b, k, before.value, next);
      } else if k < t {
        DepositExactly(rules, b, k - d, before.value, next);
      } else {
        TxExactly(rules, b, k - t, before.value, next);
      }
    }
    NextFold(rules, b, k);
  }

  /** The fold, one step further. */
  lemma NextFold(rules: Rules, b: BlockArgs, k: nat)
    requires k < Length(b)
    ensures var d, t := |b.withdrawals|, |b.withdrawals| + |b.deposits|;
      var w, w' := StateAt(rules, b, k), StateAt(rules, b, k + 1);
      if w.None? then w'.None?
      else if k < d then
        var r := CheckWithdrawal(rules, b, w.value, k);
        w' == if r.Stepped? then Some(r.world) else None
      else if k < t then w' == TakeDeposit(rules, w.value, b.deposits[k - d])
      else
        var r := CheckTx(rules, b, w.value, k - t);
        w' == if r.Pass? then Some(r.world) else None
  {
    hide CheckTx, CheckWithdrawal, TakeDeposit;
  }

  lemma {:induction false} FoldReaches(rules: Rules, b: BlockArgs, k: nat, w: World)
    requires k <= Length(b)
    ensures StateAt(rules, b, k) == Some(w) <==> Reaches(rules, b, k, w)
    decreases k
  {
    hide StateAt, StepPasses;
    StateAtStart(rules, b);
    if k == 0 {
      if w == b.prev {
        assert Trace(rules, b, [w]);
      }
      return;
    }
    StateAtNext(rules, b, k - 1, w);
    if StateAt(rules, b, k) == Some(w) {
      var before := StateAt(rules, b, k - 1).value;
      FoldReaches(rules, b, k - 1, before);
      var worlds :| Trace(rules, b, worlds) && |worlds| == k && worlds[k - 1] == before;
      assert Trace(rules, b, worlds + [w]);
    }
    if Reaches(rules, b, k, w) {
      var worlds :| Trace(rules, b, worlds) && |worlds| == k + 1 && worlds[k] == w;
      assert Trace(rules, b, worlds[..k]) && worlds[..k][k - 1] == worlds[k - 1];
      FoldReaches(rules, b, k - 1, worlds[k - 1]);
      assert StepPasses(rules, b, k - 1, worlds[k - 1], worlds[k]);
    }
  }

  /** A block is applied exactly when every withdrawal, deposit and transaction passes on the state the one
  before left, and the last state is the declared one. */
  lemma AppliesExactly(rules: Rules, b: BlockArgs)
    ensures Applies(rules, b) <==> b.producerKnown && Reaches(rules, b, Length(b), b.post)
  {
    hide Reaches, CheckTx;
    FoldReaches(rules, b, Length(b), b.post);
  }

  /** Transaction `i` is the first that does not pass, and `w` is the state it finds. */
  ghost predicate Finds(rules: Rules, b: BlockArgs, i: nat, w: World) {
    i < |b.txs| && Reaches(rules, b, |b.withdrawals| + |b.deposits| + i, w)
  }

  /** A transaction is challenged for its signature exactly when it is the first not to pass and is not
  authentic, and for its execution exactly when it is authentic and wrong. */
  lemma TxChallengeExactly(rules: Rules, b: BlockArgs, i: nat, kind: Kind)
    ensures StopsAt(rules, b, i) && CheckTx(rules, b, AfterTxs(rules, b, i).value.0, i) == Bad(kind) <==>
      exists w :: Finds(rules, b, i, w) &&
        if kind == Signature then !Authentic(rules, w, b.txs[i])
        else Authentic(rules, w, b.txs[i]) && TxIsWrong(rules, b, i, w)
  {
    hide Reaches, CheckTx, TxIsWrong, Authentic, TxPasses, Succeeds;
    if i < |b.txs| {
      var k := |b.withdrawals| + |b.deposits| + i;
      var r := AfterTxs(rules, b, i);
      if r.Some? {
        TxExactly(rules, b, i, r.value.0, r.value.0);
        FoldReaches(rules, b, k, r.value.0);
        assert Finds(rules, b, i, r.value.0);
      }
      forall w | Finds(rules, b, i, w)
        ensures r.Some? && r.value.0 == w
      {
        FoldReaches(rules, b, k, w);
      }
    }
  }

  /** A withdrawal is challenged exactly when it is the first not to pass and its signature is bad. */
  lemma WithdrawalChallengeExactly(rules: Rules, b: BlockArgs, i: nat)
    ensures Unsigned(rules, b, i) <==>
      i < |b.withdrawals| && exists w :: Reaches(rules, b, i, w) && !rules.withdrawalSigned(w, b.withdrawals[i])
  {
    hide Reaches, WithdrawalPasses;
    if i < |b.withdrawals| {
      var r := AfterWithdrawals(rules, b, i);
      if r.Some? {
        WithdrawalExactly(rules, b, i, r.value, r.value);
        FoldReaches(rules, b, i, r.value);
      }
      forall w | Reaches(rules, b, i, w)
        ensures r == Some(w)
      {
        FoldReaches(rules, b, i, w);
      }
    }
  }

  /** Every receipt names its transaction, whether it succeeded and the state it left. */
  lemma {:induction false} ReceiptsExactly(rules: Rules, b: BlockArgs, n: nat, worlds: seq<World>, i: nat)
    requires i < n <= |b.txs| && Trace(rules, b, worlds) && |worlds| == |b.withdrawals| + |b.deposits| + n + 1
    ensures AfterTxs(rules, b, n).Some?
    ensures var k := |b.withdrawals| + |b.deposits| + i;
      AfterTxs(rules, b, n).value.1[i] ==
        Receipt(b.txs[i], Succeeds(rules, worlds[k], b.txs[i], worlds[k + 1]), worlds[k + 1])
  {
    hide CheckTx, StepPasses, TxPasses, Succeeds;
    var base := |b.withdrawals| + |b.deposits|;
    var before := worlds[..base + n];
    assert Trace(rules, b, before) && before[base + n - 1] == worlds[base + n - 1];
    assert Reaches(rules, b, base + n - 1, worlds[base + n - 1]);
    assert Reaches(rules, b, base + n, worlds[base + n]);
    FoldReaches(rules, b, base + n - 1, worlds[base + n - 1]);
    FoldReaches(rules, b, base + n, worlds[base + n]);
    TxExactly(rules, b, n - 1, worlds[base + n - 1], worlds[base + n]);
    if i < n - 1 {
      ReceiptsExactly(rules, b, n - 1, before, i);
    }
  }

  // ---------- No replay ----------

  /** No account that exists loses from its nonce. */
  ghost predicate NoneDrops(before: seq<U32>, after: seq<U32>) {
    |before| <= |after| && forall id: nat | id < |before| :: before[id] <= after[id]
  }

  /** The write takes a nonce past the 32-bit maximum. */
  predicate Wraps(nonces: seq<U32>, sender: nat, original: U32, op: NonceOp) {
    match op
    case Create => false
    case Increase(id) => id < |nonces| && nonces[id] == U32_MAX
    case IncreaseSender => sender < |nonces| && nonces[sender] == original == U32_MAX
  }

  predicate WrapsSomewhere(nonces: seq<U32>, sender: nat, original: U32, ops: seq<NonceOp>)
    decreases |ops|
  {
    ops != [] &&
    (Wraps(nonces, sender, original, ops[0]) ||
     (var next := Play(nonces, sender, original, ops[0]);
      next.Some? && WrapsSomewhere(next.value, sender, original, ops[1..])))
  }

  /** A nonce write lowers a nonce exactly when it wraps. */
  lemma DropsExactly(nonces: seq<U32>, sender: nat, original: U32, op: NonceOp)
    requires Play(nonces, sender, original, op).Some?
    ensures !NoneDrops(nonces, Play(nonces, sender, original, op).value) <==> Wraps(nonces, sender, original, op)
  {
    var after := Play(nonces, sender, original, op).value;
    if op.Increase? && Wraps(nonces, sender, original, op) {
      assert after[op.id] < nonces[op.id];
    } else if op.IncreaseSender? && Wraps(nonces, sender, original, op) {
      assert after[sender] < nonces[sender];
    }
  }

  lemma {:induction false} PlayAllRaises(nonces: seq<U32>, sender: nat, original: U32, ops: seq<NonceOp>)
    requires PlayAll(nonces, sender, original, ops).Some? && !WrapsSomewhere(nonces, sender, original, ops)
    ensures NoneDrops(nonces, PlayAll(nonces, sender, original, ops).value)
    decreases |ops|
  {
    if ops != [] {
      DropsExactly(nonces, sender, original, ops[0]);
      PlayAllRaises(Play(nonces, sender, original, ops[0]).value, sender, original, ops[1..]);
    }
  }

  /** The backend run of this transaction wraps no nonce. */
  predicate NoWrap(rules: Rules, w: World, tx: Tx) {
    var run := rules.machine(w, tx);
    run.Exited? && run.success ==> !WrapsSomewhere(w.nonces, tx.from, NonceOf(w.nonces, tx.from), run.ops)
  }

  /** An executed transaction raises its sender's nonce, whatever the backend does; no other nonce drops
  unless one wraps. */
  lemma ExecuteRaises(rules: Rules, w: World, tx: Tx)
    requires Execute(rules, w, tx).Ran? && tx.from < |w.nonces|
    ensures var w' := Execute(rules, w, tx).world;
      && NonceOf(w'.nonces, tx.from) > w.nonces[tx.from]
      && (NoWrap(rules, w, tx) ==> NoneDrops(w.nonces, w'.nonces))
  {
    var run := rules.machine(w, tx);
    if run.Exited? && run.success && NoWrap(rules, w, tx)
       && PlayAll(w.nonces, tx.from, w.nonces[tx.from], run.ops).Some? {
      PlayAllRaises(w.nonces, tx.from, w.nonces[tx.from], run.ops);
    }
  }

  lemma NoneDropsTrans(a: seq<U32>, b: seq<U32>, c: seq<U32>)
    requires NoneDrops(a, b) && NoneDrops(b, c)
    ensures NoneDrops(a, c)
  {
    forall id: nat | id < |a|
      ensures a[id] <= c[id]
    {
      assert a[id] <= b[id] && b[id] <= c[id];
    }
  }

  /** No backend run in the block wraps a nonce. */
  ghost predicate NoneWraps(rules: Rules, b: BlockArgs) {
    forall i: nat | i < |b.txs| && AfterTxs(rules, b, i).Some? ::
      NoWrap(rules, AfterTxs(rules, b, i).value.0, b.txs[i])
  }

  lemma {:induction false} WithdrawalsRaise(rules: Rules, b: BlockArgs, k: nat)
    requires k <= |b.withdrawals| && AfterWithdrawals(rules, b, k).Some?
    ensures NoneDrops(b.prev.nonces, AfterWithdrawals(rules, b, k).value.nonces)
  {
    if k > 0 {
      WithdrawalsRaise(rules, b, k - 1);
      NoneDropsTrans(b.prev.nonces, AfterWithdrawals(rules, b, k - 1).value.nonces,
                     AfterWithdrawals(rules, b, k).value.nonces);
    }
  }

  lemma {:induction false} DepositsRaise(rules: Rules, b: BlockArgs, k: nat)
    requires k <= |b.deposits| && AfterDeposits(rules, b, k).Some?
    ensures NoneDrops(b.prev.nonces, AfterDeposits(rules, b, k).value.nonces)
  {
    if k == 0 {
      WithdrawalsRaise(rules, b, |b.withdrawals|);
    } else {
      DepositsRaise(rules, b, k - 1);
      NoneDropsTrans(b.prev.nonces, AfterDeposits(rules, b, k - 1).value.nonces,
                     AfterDeposits(rules, b, k).value.nonces);
    }
  }

  /** The nonces transaction `i` starts from. */
  ghost function NoncesAt(rules: Rules, b: BlockArgs, i: nat): seq<U32>
    requires i <= |b.txs| && AfterTxs(rules, b, i).Some?
  {
    AfterTxs(rules, b, i).value.0.nonces
  }

  /** An applied transaction carries its sender's nonce, and leaves a larger one. */
  lemma TxRaises(rules: Rules, b: BlockArgs, i: nat)
    requires i < |b.txs| && AfterTxs(rules, b, i + 1).Some? && NoneWraps(rules, b)
    ensures AfterTxs(rules, b, i).Some?
    ensures var tx, before, after := b.txs[i], NoncesAt(rules, b, i), NoncesAt(rules, b, i + 1);
      && NoneDrops(before, after)
      && tx.from < |before| && tx.nonce == before[tx.from] && tx.nonce < after[tx.from]
  {
    hide Execute, NoWrap;
    ExecuteRaises(rules, AfterTxs(rules, b, i).value.0, b.txs[i]);
  }

  lemma {:induction false} TxsRaise(rules: Rules, b: BlockArgs, i: nat, j: nat)
    requires i <= j <= |b.txs| && AfterTxs(rules, b, j).Some? && NoneWraps(rules, b)
    ensures AfterTxs(rules, b, i).Some? && NoneDrops(NoncesAt(rules, b, i), NoncesAt(rules, b, j))
    decreases j - i
  {
    hide NoneDrops, NoneWraps, CheckTx;
    if i < j {
      TxRaises(rules, b, j - 1);
      TxsRaise(rules, b, i, j - 1);
      NoneDropsTrans(NoncesAt(rules, b, i), NoncesAt(rules, b, j - 1), NoncesAt(rules, b, j));
    } else {
      SameDrops(NoncesAt(rules, b, i));
    }
  }

  lemma SameDrops(a: seq<U32>)
    ensures NoneDrops(a, a)
  {
  }

  /** From the state a block starts in to any of its transactions. */
  lemma BlockRaises(rules: Rules, b: BlockArgs, i: nat)
    requires i <= |b.txs| && AfterTxs(rules, b, i).Some? && NoneWraps(rules, b)
    ensures NoneDrops(b.prev.nonces, NoncesAt(rules, b, i))
  {
    hide NoneDrops, NoneWraps, CheckTx;
    TxsRaise(rules, b, 0, i);
    DepositsRaise(rules, b, |b.deposits|);
    NoneDropsTrans(b.prev.nonces, NoncesAt(rules, b, 0), NoncesAt(rules, b, i));
  }

  /** Blocks applied one after the other, each on the state the one before left. */
  ghost predicate Chain(rules: Rules, blocks: seq<BlockArgs>) {
    && (forall m: nat | m < |blocks| :: Applies(rules, blocks[m]) && NoneWraps(rules, blocks[m]))
    && (forall m: nat, n: nat | m + 1 == n < |blocks| :: blocks[n].prev == blocks[m].post)
  }

  /** Over any chain of blocks no existing account's nonce drops. */
  lemma {:induction false} ChainNeverDrops(rules: Rules, blocks: seq<BlockArgs>, m: nat, n: nat)
    requires Chain(rules, blocks) && m <= n < |blocks|
    ensures NoneDrops(blocks[m].prev.nonces, blocks[n].prev.nonces)
    ensures NoneDrops(blocks[m].prev.nonces, blocks[n].post.nonces)
    decreases n - m
  {
    hide NoneDrops, NoneWraps, AfterTxs;
    if m < n {
      ChainNeverDrops(rules, blocks, m, n - 1);
      assert blocks[n].prev == blocks[n - 1].post;
    } else {
      SameDrops(blocks[n].prev.nonces);
    }
    BlockRaises(rules, blocks[n], |blocks[n].txs|);
    NoneDropsTrans(blocks[m].prev.nonces, blocks[n].prev.nonces, blocks[n].post.nonces);
  }

  /** In a chain of blocks no sender and nonce are accepted twice: later transactions of a sender, in the
  same block or a later one, have larger nonces. */
  lemma NoReplay(rules: Rules, blocks: seq<BlockArgs>, m: nat, i: nat, n: nat, j: nat)
    requires Chain(rules, blocks) && m <= n < |blocks| && i < |blocks[m].txs| && j < |blocks[n].txs|
    requires m < n || i < j
    requires blocks[m].txs[i].from == blocks[n].txs[j].from
    ensures blocks[m].txs[i].nonce < blocks[n].txs[j].nonce
  {
    hide NoneWraps, AfterTxs;
    var a, b := blocks[m], blocks[n];
    TxsRaise(rules, a, i + 1, |a.txs|);
    TxRaises(rules, a, i);
    TxsRaise(rules, b, j + 1, |b.txs|);
    TxRaises(rules, b, j);
    var after, before := NoncesAt(rules, a, i + 1), NoncesAt(rules, b, j);
    if m == n {
      TxsRaise(rules, a, i + 1, j);
    } else {
      Between(rules, blocks, m, n);
      BlockRaises(rules, b, j);
      NoneDropsTrans(a.post.nonces, b.prev.nonces, before);
      NoneDropsTrans(after, a.post.nonces, before);
    }
    assert after[a.txs[i].from] <= before[a.txs[i].from];
  }

  lemma Between(rules: Rules, blocks: seq<BlockArgs>, m: nat, n: nat)
    requires Chain(rules, blocks) && m < n < |blocks|
    ensures NoneDrops(blocks[m].post.nonces, blocks[n].prev.nonces)
  {
    hide NoneDrops, NoneWraps, Applies;
    assert blocks[m + 1].prev == blocks[m].post;
    ChainNeverDrops(rules, blocks, m + 1, n);
  }

  /** A backend that raises the nonce of account 0 beside the sender's. */
  function Raising(): Rules {
    Rules((_, _) => true, (_, _) => None, (_, _) => None, (_, _) => true, (_, _) => true,
          (_, _) => Exited(true, [Increase(0), IncreaseSender], 0, true), (_, _) => Paid(0), false)
  }

  /** A transaction of account 1 takes account 0 from the maximum back to zero. */
  lemma NonceWraps()
    ensures Execute(Raising(), World([U32_MAX, 0], 0), Tx(1, 0, 1, 0)) == Ran(World([0, 1], 0), true)
    ensures !NoneDrops([U32_MAX, 0], [0, 1])
  {
    var ops := [Increase(0), IncreaseSender];
    var max: seq<U32> := [U32_MAX, 0];
    var mid: seq<U32> := [0, 0];
    assert max[0 := 0] == mid && mid[1 := 1] == [0, 1];
    assert Play(max, 1, 0, Increase(0)) == Some(mid) && Play(mid, 1, 0, IncreaseSender) == Some([0, 1]);
    assert ops[1..] == [IncreaseSender] && [IncreaseSender][1..] == [];
    assert PlayAll(mid, 1, 0, [IncreaseSender]) == Some([0, 1]);
    assert max[0] > [0, 1][0];
  }
}
