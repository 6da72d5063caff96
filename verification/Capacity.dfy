/** Splitting a `u128` capacity into `u64` cells, and how a reverted stake is shared out. */
module Capacity {

  const U64_MAX: nat := 0xFFFF_FFFF_FFFF_FFFF
  const U128_MAX: nat := 0xFFFF_FFFF_FFFF_FFFF_FFFF_FFFF_FFFF_FFFF
  const HALF: nat := 0x8000_0000_0000_0000

  function SaturatingSub(a: nat, b: nat): nat {
    if a >= b then a - b else 0
  }

  function SaturatingAdd(a: nat, b: nat, max: nat): nat {
    if a + b <= max then a + b else max
  }

  function SaturatingMul(a: nat, b: nat, max: nat): nat {
    if a * b <= max then a * b else max
  }

  /** A cast to `u64` drops the high bits. */
  function AsU64(a: nat): nat {
    a % (U64_MAX + 1)
  }

  function Sum(s: seq<nat>): nat {
    if s == [] then 0 else Sum(s[..|s| - 1]) + s[|s| - 1]
  }

  lemma {:induction false} SumConcat(a: seq<nat>, b: seq<nat>)
    ensures Sum(a + b) == Sum(a) + Sum(b)
  {
    if b == [] {
      assert a + b == a;
    } else {
      assert (a + b)[..|a + b| - 1] == a + b[..|b| - 1];
      SumConcat(a, b[..|b| - 1]);
    }
  }

  /** Full cells while a minimal cell is left over, then one cell, or two halves when one is too small
  to hold the rest. */
  function Split(rest: nat, min: nat): seq<nat>
    decreases rest
  {
    if rest == 0 then []
    else if rest >= U64_MAX + min then [U64_MAX] + Split(rest - U64_MAX, min)
    else if rest > U64_MAX then [rest / 2, rest - rest / 2]
    else [rest]
  }

  function Cells(total: nat, min: nat): seq<nat> {
    if total < U64_MAX then [total] else Split(total, min)
  }

  lemma SplitUnfold(rest: nat, min: nat)
    ensures Split(rest, min) ==
      if rest == 0 then []
      else if rest >= U64_MAX + min then [U64_MAX] + Split(rest - U64_MAX, min)
      else if rest > U64_MAX then [rest / 2, rest - rest / 2]
      else [rest]
  {
  }

  lemma AsU64Keeps()
    ensures forall a: nat | a <= U64_MAX :: AsU64(a) == a
  {
  }

  /** The saturating, casting loop computes the plain split. */
  method BuildOutputs(total: nat, min: nat) returns (outputs: seq<nat>)
    requires total <= U128_MAX && min <= U64_MAX
    ensures outputs == Cells(total, min)
  {
    hide AsU64, Split;
    outputs := [];
    AsU64Keeps();
    if total < U64_MAX {
      return [AsU64(total)];
    }
    var remaind := total;
    SplitUnfold(0, min);
    while remaind > 0
      invariant remaind <= total
      invariant remaind == 0 || min <= remaind
      invariant outputs + Split(remaind, min) == Split(total, min)
      decreases remaind
    {
      SplitUnfold(remaind, min);
      SplitUnfold(0, min);
      var max := SaturatingSub(remaind, min);
      if max >= U64_MAX {
        outputs := outputs + [U64_MAX];
        remaind := SaturatingAdd(max - U64_MAX, min, U128_MAX);
      } else if SaturatingAdd(max, min, U128_MAX) > U64_MAX {
        var all := SaturatingAdd(max, min, U128_MAX);
        var half := all / 2;
        outputs := outputs + [AsU64(half)] + [AsU64(SaturatingSub(all, half))];
        remaind := 0;
      } else {
        outputs := outputs + [SaturatingAdd(AsU64(max), min, U64_MAX)];
        remaind := 0;
      }
    }
  }

  lemma {:induction false} SplitAdds(rest: nat, min: nat)
    requires min <= U64_MAX
    ensures Sum(Split(rest, min)) == rest
    ensures forall c | c in Split(rest, min) :: c <= U64_MAX
    decreases rest
  {
    if rest >= U64_MAX + min {
      SplitAdds(rest - U64_MAX, min);
      SumConcat([U64_MAX], Split(rest - U64_MAX, min));
      assert Sum([U64_MAX]) == U64_MAX;
    } else if rest > U64_MAX {
      assert Sum([rest / 2]) == rest / 2;
      assert [rest / 2, rest - rest / 2][..1] == [rest / 2];
    } else if rest > 0 {
      assert Sum([rest]) == rest;
    }
  }

  /** Nothing is lost and every cell fits its field. */
  lemma CellsAdd(total: nat, min: nat)
    requires min <= U64_MAX
    ensures Sum(Cells(total, min)) == total
    ensures forall c | c in Cells(total, min) :: c <= U64_MAX
  {
    if total >= U64_MAX {
      SplitAdds(total, min);
    } else {
      assert [total][..0] == [];
    }
  }

  lemma {:induction false} SplitMeets(rest: nat, min: nat)
    requires min <= HALF && (rest == 0 || min <= rest)
    ensures forall c | c in Split(rest, min) :: min <= c
    decreases rest
  {
    if rest >= U64_MAX + min {
      SplitMeets(rest - U64_MAX, min);
    }
  }

  /** Every cell of a large total meets the minimum exactly when the minimum is at most 2^63. */
  lemma LargeTotalsMeetMinimum(min: nat)
    requires min <= U64_MAX
    ensures (forall total: nat | U64_MAX <= total <= U128_MAX :: Meets(total, min)) <==> min <= HALF
  {
    if min <= HALF {
      forall total: nat | U64_MAX <= total <= U128_MAX
        ensures Meets(total, min)
      {
        SplitMeets(total, min);
      }
    } else {
      var cells := Cells(U64_MAX + 1, min);
      assert cells == [HALF, HALF];
      assert HALF in cells;
      assert !Meets(U64_MAX + 1, min);
    }
  }

  ghost predicate Meets(total: nat, min: nat) {
    forall c | c in Cells(total, min) :: min <= c
  }

  /** What the challenger receives and what is burnt. */
  datatype Rewards = Rewards(receive: nat, burn: nat)

  function RewardsNew(stakes: seq<nat>, challenge: nat, rate: nat): Rewards {
    var stake := Sum(stakes);
    var reward := SaturatingMul(stake, rate, U128_MAX) / 100;
    Rewards(SaturatingAdd(reward, challenge, U128_MAX), SaturatingSub(stake, reward))
  }

  /** With a rate of at most 100 percent and capacities that come from `u64` cells nothing saturates:
  the challenger's cells hold the rewarded share of the stake and the challenge, the burnt cells hold the
  rest of the stake. */
  lemma RevertConserves(stakes: seq<nat>, challenge: nat, rate: nat, rewardMin: nat, burnMin: nat)
    requires rate <= 100 && challenge <= U64_MAX && rewardMin <= U64_MAX && burnMin <= U64_MAX
    requires Sum(stakes) * 100 + challenge <= U128_MAX
    ensures var r, reward := RewardsNew(stakes, challenge, rate), Sum(stakes) * rate / 100;
      && Sum(Cells(r.receive, rewardMin)) == reward + challenge
      && Sum(Cells(r.burn, burnMin)) == Sum(stakes) - reward
      && Sum(Cells(r.receive, rewardMin)) + Sum(Cells(r.burn, burnMin)) == Sum(stakes) + challenge
  {
    var r, stake := RewardsNew(stakes, challenge, rate), Sum(stakes);
    RateBound(stake, rate);
    CellsAdd(r.receive, rewardMin);
    CellsAdd(r.burn, burnMin);
  }

  lemma RateBound(stake: nat, rate: nat)
    requires rate <= 100
    ensures stake * rate <= stake * 100 && stake * rate / 100 <= stake
  {
  }

  /** The burnt part of a cancelled challenge. */
  function BurnNew(challenge: nat, rate: nat): nat {
    SaturatingMul(challenge, rate, U128_MAX) / 100
  }

  /** A cancelled challenge burns no more than its own capacity, whatever the minimum. */
  lemma CancelBurns(challenge: nat, rate: nat, min: nat)
    requires challenge <= U64_MAX && rate <= 100 && min <= U64_MAX
    ensures Sum(Cells(BurnNew(challenge, rate), min)) == challenge * rate / 100 <= challenge
  {
    RateBound(challenge, rate);
    CellsAdd(BurnNew(challenge, rate), min);
  }
}
