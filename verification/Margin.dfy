/** The size margin of the mock block: transactions already packaged must still fit the limit when the
raw block grows. */
module MockBlockMargin {
  import opened Wrappers

  const U64_MAX: nat := 0xFFFF_FFFF_FFFF_FFFF

  datatype RawBlockFlag = New | Prev

  datatype Outcome = Done | Refused | Panicked

  /** A packaged cancel-challenge transaction and the raw block size it was built with. */
  datatype Packaged = Packaged(rawSize: nat, txSize: nat)

  /** Size left for the transaction once its raw block has grown to `rawSize`. */
  function Slack(limit: nat, p: Packaged, rawSize: nat): int {
    limit - (p.txSize + (rawSize - p.rawSize))
  }

  function MinSlack(limit: nat, ps: seq<Packaged>, rawSize: nat): int
    requires ps != []
  {
    var last := Slack(limit, ps[|ps| - 1], rawSize);
    if |ps| == 1 then last
    else
      var rest := MinSlack(limit, ps[..|ps| - 1], rawSize);
      if rest < last then rest else last
  }

  ghost predicate AllFit(limit: nat, ps: seq<Packaged>, rawSize: nat) {
    forall i: nat | i < |ps| :: Slack(limit, ps[i], rawSize) >= 0
  }

  /** The minimum slack is non-negative exactly when every packaged transaction fits. */
  lemma {:induction false} FitExactly(limit: nat, ps: seq<Packaged>, rawSize: nat)
    requires ps != []
    ensures MinSlack(limit, ps, rawSize) >= 0 <==> AllFit(limit, ps, rawSize)
  {
    if |ps| > 1 {
      FitExactly(limit, ps[..|ps| - 1], rawSize);
      var front := ps[..|ps| - 1];
      assert forall i: nat | i < |front| :: front[i] == ps[i];
      assert AllFit(limit, ps, rawSize) <==>
        AllFit(limit, front, rawSize) && Slack(limit, ps[|ps| - 1], rawSize) >= 0;
    }
  }

  /** Growth of the raw block costs every packaged transaction the same. */
  lemma {:induction false} GrowthCosts(limit: nat, ps: seq<Packaged>, before: nat, after: nat)
    requires ps != []
    ensures MinSlack(limit, ps, after) == MinSlack(limit, ps, before) - (after - before)
  {
    if |ps| > 1 {
      GrowthCosts(limit, ps[..|ps| - 1], before, after);
    }
  }

  class MarginOfMockBlock {
    const limit: nat
    var remain: nat
    var prevRawSize: nat
    ghost var packaged: seq<Packaged>

    /** The remaining size is exactly the minimum slack over all packaged transactions. */
    ghost predicate Valid()
      reads this
    {
      && limit < U64_MAX
      && if packaged == [] then remain == U64_MAX
         else prevRawSize <= limit && remain <= limit && remain == MinSlack(limit, packaged, prevRawSize)
    }

    constructor (limit: nat)
      requires limit < U64_MAX
      ensures Valid() && packaged == [] && this.limit == limit
    {
      this.limit, remain, prevRawSize, packaged := limit, U64_MAX, 0, [];
    }

    /** A growing raw block is refused exactly when some packaged transaction would no longer fit.  `Prev`
    does not look at the growth: the margin is then still the minimum slack exactly when the raw block has
    the same size, or when the new transaction has the least slack anyway. */
    method CheckAndUpdate(rawSize: nat, txSize: nat, flag: RawBlockFlag) returns (r: Outcome)
      requires Valid()
      modifies this
      ensures r == Done ==>
        && prevRawSize == rawSize
        && packaged == old(packaged) + [Packaged(rawSize, txSize)]
        && txSize <= limit
      ensures r == Done && (flag == New || old(packaged) == []) ==> Valid()
      ensures r == Done && flag == Prev && old(packaged) != [] ==>
        var left, growth := limit - txSize, rawSize - old(prevRawSize);
        Valid() <==> growth == 0 || (left <= old(remain) && left <= old(remain) - growth)
      ensures r == Done && Valid() ==> AllFit(limit, packaged, rawSize)
      ensures r != Done ==> unchanged(this)
      ensures r == Refused <==>
        || txSize > limit
        || (rawSize <= limit && old(packaged) != [] && flag == New && rawSize > old(prevRawSize)
            && !AllFit(limit, old(packaged), rawSize))
      ensures r == Panicked <==>
        txSize <= limit && (rawSize > limit || (old(packaged) != [] && flag == New && rawSize <= old(prevRawSize)))
    {
      if txSize > limit {
        return Refused;
      }
      if rawSize > limit {
        return Panicked;
      }
      if remain == U64_MAX {
        remain, prevRawSize := limit - txSize, rawSize;
        packaged := [Packaged(rawSize, txSize)];
        return Done;
      }
      FitExactly(limit, packaged, rawSize);
      GrowthCosts(limit, packaged, prevRawSize, rawSize);
      var newRemain := remain;
      if flag == New {
        if rawSize <= prevRawSize {
          return Panicked;
        }
        var diff := rawSize - prevRawSize;
        if remain < diff {
          return Refused;
        }
        newRemain := remain - diff;
      }
      var txRemain := limit - txSize;
      remain := if newRemain < txRemain then newRemain else txRemain;
      prevRawSize := rawSize;
      ghost var before := packaged;
      packaged := packaged + [Packaged(rawSize, txSize)];
      assert packaged[..|packaged| - 1] == before;
      FitExactly(limit, packaged, rawSize);
      return Done;
    }
  }

  /** A cancel-challenge transaction: it cannot be built, or has a size and passes its verification or
  not. */
  datatype Check = Unbuilt | Built(txSize: nat, passes: bool)

  datatype Verdict = Verified | Failed | Crashed

  /** Size of a state checkpoint in the raw block; everything else in it has a fixed size. */
  const CHECKPOINT_SIZE: nat := 32

  /** The off-chain validator: the mock block's checkpoints, and the margin beside them. */
  class Validator {
    const margin: MarginOfMockBlock
    const base: nat
    var checkpoints: nat
    /** The number of checkpoints at the last update of the margin. */
    ghost var marked: nat

    ghost predicate Valid()
      reads this, margin
    {
      && margin.Valid()
      && (margin.packaged != [] ==> margin.prevRawSize == RawSize(base, marked) && marked <= checkpoints + 1)
    }

    /** The margin was updated for a request that is not in the block any more. */
    ghost predicate Stale()
      reads this, margin
    {
      margin.packaged != [] && marked > checkpoints
    }

    constructor (limit: nat, base: nat)
      requires limit < U64_MAX
      ensures Valid() && !Stale() && fresh(margin) && margin.packaged == [] && margin.limit == limit
      ensures checkpoints == 0 && this.base == base
    {
      margin := new MarginOfMockBlock(limit);
      this.base, checkpoints, marked := base, 0, 0;
    }

    /** One verification of the pushed request; the flag turns once the margin has taken the raw block. */
    method Attempt(check: Check, flag: RawBlockFlag) returns (r: Verdict, next: RawBlockFlag)
      requires Valid() && (flag == Prev ==> margin.packaged != [] && marked == checkpoints)
      modifies margin, this`marked
      ensures r == Crashed <==> flag == New && Sized(margin.limit, check) && old(TooLarge(checkpoints) || !Grown())
      ensures r != Crashed ==> Valid()
      ensures r != Crashed ==>
        (next == Prev <==> flag == Prev || (Sized(margin.limit, check) && old(Room(checkpoints))))
      ensures r != Crashed ==> (r == Verified <==> next == Prev && Good(margin.limit, check))
      ensures next == Prev ==> margin.packaged != [] && marked == checkpoints
      ensures next == New ==> marked == old(marked) && margin.packaged == old(margin.packaged)
    {
      if check.Unbuilt? {
        return Failed, flag;
      }
      var done := margin.CheckAndUpdate(RawSize(base, checkpoints), check.txSize, flag);
      if done == Panicked {
        return Crashed, flag;
      }
      if done == Refused {
        return Failed, flag;
      }
      marked := checkpoints;
      return if check.passes then Verified else Failed, Prev;
    }

    /** The raw block with `n` checkpoints is larger than any transaction may be. */
    ghost predicate TooLarge(n: nat)
      reads this, margin
    {
      RawSize(base, n) > margin.limit
    }

    /** The raw block is larger than at the last update of the margin. */
    ghost predicate Grown()
      reads this, margin
    {
      margin.packaged != [] ==> marked < checkpoints
    }

    /** Everything packaged still fits with `n` checkpoints. */
    ghost predicate Room(n: nat)
      reads this, margin
    {
      AllFit(margin.limit, margin.packaged, RawSize(base, n))
    }

    /** A withdrawal: a request that fails is popped, but an update of the margin stays.  A request crashes
    exactly when its transaction is within the limit and the raw block is too large or the margin is
    stale; a failed one leaves the margin stale exactly when the margin had taken it. */
    method VerifyWithdrawal(enabled: bool, check: Check) returns (r: Verdict)
      requires Valid()
      modifies this, margin
      ensures r == Crashed <==> enabled && Sized(margin.limit, check) && old(TooLarge(checkpoints + 1) || Stale())
      ensures r != Crashed ==> Valid()
      ensures r != Crashed ==>
        (r == Verified <==> !enabled || (old(Room(checkpoints + 1)) && Good(margin.limit, check)))
      ensures r == Verified ==> !Stale() && checkpoints == old(checkpoints) + 1
      ensures r == Failed ==> checkpoints == old(checkpoints)
      ensures r == Failed ==> (Stale() <==> old(Stale()) || (old(Room(checkpoints + 1)) && Sized(margin.limit, check)))
    {
      checkpoints := checkpoints + 1;
      if !enabled {
        return Verified;
      }
      var flag;
      r, flag := Attempt(check, New);
      if r == Failed {
        checkpoints := checkpoints - 1;
      }
    }

    /** A transaction: its signature, then its execution with the data in a witness and, if that fails, in
    a cell dep; either part may be switched off. */
    method VerifyTransaction(signature: Option<Check>, execution: Option<(Check, Check)>) returns (r: Verdict)
      requires Valid()
      modifies this, margin
      ensures r == Crashed <==> Reaches(margin.limit, signature, execution) && old(TooLarge(checkpoints + 1) || Stale())
      ensures r != Crashed ==> Valid()
      ensures r != Crashed ==>
        (r == Verified <==>
           || (signature.None? && execution.None?)
           || (old(Room(checkpoints + 1)) && Passes(margin.limit, signature, execution)))
      ensures r == Verified ==> !Stale() && checkpoints == old(checkpoints) + 1
      ensures r == Failed ==> checkpoints == old(checkpoints)
      ensures r == Failed ==>
        (Stale() <==> old(Stale()) || (old(Room(checkpoints + 1)) && Reaches(margin.limit, signature, execution)))
    {
      hide AllFit, MinSlack;
      checkpoints := checkpoints + 1;
      if signature.None? && execution.None? {
        return Verified;
      }
      var flag := New;
      if signature.Some? {
        r, flag := Attempt(signature.value, flag);
        if r == Crashed {
          return;
        }
        if r == Failed {
          checkpoints := checkpoints - 1;
          return;
        }
      }
      if execution.Some? {
        r, flag := Attempt(execution.value.0, flag);
        if r == Failed {
          r, flag := Attempt(execution.value.1, flag);
        }
        if r == Failed {
          checkpoints := checkpoints - 1;
        }
      }
    }
  }

  function RawSize(base: nat, checkpoints: nat): nat {
    base + CHECKPOINT_SIZE * checkpoints
  }

  predicate Sized(limit: nat, check: Check) {
    check.Built? && check.txSize <= limit
  }

  /** Some check brings a transaction within the limit to the margin while the raw block is still new. */
  predicate Reaches(limit: nat, signature: Option<Check>, execution: Option<(Check, Check)>) {
    if signature.Some? then Sized(limit, signature.value)
    else execution.Some? && (Sized(limit, execution.value.0) || Sized(limit, execution.value.1))
  }

  predicate Good(limit: nat, check: Check) {
    Sized(limit, check) && check.passes
  }

  /** The signature and one of the two executions pass, as far as they are switched on. */
  predicate Passes(limit: nat, signature: Option<Check>, execution: Option<(Check, Check)>) {
    && (signature.Some? ==> Good(limit, signature.value))
    && (execution.Some? ==> Good(limit, execution.value.0) || Good(limit, execution.value.1))
  }

  /** A withdrawal that fits but fails its verification; the next one ends the process. */
  method PoppedThenNext() returns (first: Verdict, second: Verdict)
    ensures first == Failed && second == Crashed
  {
    var v := new Validator(50_000, 400);
    first := v.VerifyWithdrawal(true, Built(1_000, false));
    second := v.VerifyWithdrawal(true, Built(1_000, true));
  }
}
