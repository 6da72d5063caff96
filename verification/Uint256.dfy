/** 256-bit numbers as eight 32-bit limbs, least significant first. */
module Uint256 {
  import opened Encoding

  const BASE: nat := 0x1_0000_0000

  function Pow(n: nat): (r: nat)
    ensures r > 0
  {
    if n == 0 then 1 else BASE * Pow(n - 1)
  }

  /** The number a string of limbs stands for. */
  function Value(s: seq<U32>): nat {
    if s == [] then 0 else Value(s[..|s| - 1]) + s[|s| - 1] * Pow(|s| - 1)
  }

  type Limbs = s: seq<U32> | |s| == 8 witness [0, 0, 0, 0, 0, 0, 0, 0]

  lemma Empty()
    ensures Value([]) == 0
  {
  }

  lemma PowStep(n: nat)
    ensures Pow(n + 1) == BASE * Pow(n)
  {
  }

  lemma ValuePrefix(s: seq<U32>, i: nat)
    requires i < |s|
    ensures Value(s[..i + 1]) == Value(s[..i]) + s[i] * Pow(i)
  {
    assert s[..i + 1][..i] == s[..i];
  }

  lemma {:induction false} ValueBound(s: seq<U32>)
    ensures Value(s) < Pow(|s|)
  {
    if s != [] {
      var n := |s| - 1;
      ValueBound(s[..n]);
      assert s[n] * Pow(n) <= (BASE - 1) * Pow(n) by {
        MulMonotone(s[n], BASE - 1, Pow(n));
      }
      assert (BASE - 1) * Pow(n) + Pow(n) == BASE * Pow(n);
    }
  }

  lemma MulMonotone(a: nat, b: nat, c: nat)
    requires a <= b
    ensures a * c <= b * c
  {
  }

  /** One column of an addition. */
  lemma Column(x: nat, y: nat, carry: nat, limb: nat, out: nat, p: nat)
    requires x + y + carry == limb + out * BASE
    ensures x * p + y * p + carry * p == limb * p + out * (BASE * p)
  {
    assert (x + y + carry) * p == (limb + out * BASE) * p;
    assert (x + y + carry) * p == x * p + y * p + carry * p;
    assert (limb + out * BASE) * p == limb * p + out * (BASE * p);
  }

  /** Addition into `sum`; the carry says whether the exact sum is out of range. */
  method OverflowAdd(a: Limbs, b: Limbs, sum: array<U32>) returns (carry: nat)
    requires sum.Length == 8
    modifies sum
    ensures carry <= 1
    ensures Value(sum[..]) + (if carry == 1 then Pow(8) else 0) == Value(a) + Value(b)
  {
    hide Pow, Value;
    carry := 0;
    for i := 0 to 8 {
      sum[i] := 0;
    }
    Empty();
    for i := 0 to 8
      invariant carry <= 1
      invariant Value(sum[..i]) + carry * Pow(i) == Value(a[..i]) + Value(b[..i])
    {
      ghost var before, carried := sum[..i], carry;
      var tmp := a[i] + b[i] + carry;
      carry := if tmp > U32_MAX then 1 else 0;
      sum[i] := tmp % BASE;
      assert sum[..i + 1][..i] == before;
      ValuePrefix(sum[..], i);
      assert sum[..][..i + 1] == sum[..i + 1] && sum[..][..i] == before;
      ValuePrefix(a, i);
      ValuePrefix(b, i);
      PowStep(i);
      Column(a[i], b[i], carried, sum[i], carry, Pow(i));
    }
    assert a[..8] == a && b[..8] == b && sum[..8] == sum[..];
  }

  /** Subtraction into `rem`; the borrow says whether `a` is the smaller one. */
  method UnderflowSub(a: Limbs, b: Limbs, rem: array<U32>) returns (borrow: nat)
    requires rem.Length == 8
    modifies rem
    ensures borrow <= 1
    ensures Value(rem[..]) + Value(b) == Value(a) + (if borrow == 1 then Pow(8) else 0)
  {
    hide Pow, Value;
    borrow := 0;
    for i := 0 to 8 {
      rem[i] := 0;
    }
    Empty();
    for i := 0 to 8
      invariant borrow <= 1
      invariant Value(rem[..i]) + Value(b[..i]) == Value(a[..i]) + borrow * Pow(i)
    {
      ghost var before, carried := rem[..i], borrow;
      var tmp1 := a[i] + BASE;
      var tmp2 := b[i] + borrow;
      var res := tmp1 - tmp2;
      rem[i] := res % BASE;
      borrow := if res <= U32_MAX then 1 else 0;
      assert rem[..i + 1][..i] == before;
      ValuePrefix(rem[..], i);
      assert rem[..][..i + 1] == rem[..i + 1] && rem[..][..i] == before;
      ValuePrefix(a, i);
      ValuePrefix(b, i);
      PowStep(i);
      Column(rem[i], b[i], carried, a[i], borrow, Pow(i));
    }
    assert a[..8] == a && b[..8] == b && rem[..8] == rem[..];
  }

  datatype Order = Smaller | Equal | Larger

  /** A difference in a higher limb outweighs all lower ones. */
  lemma HigherLimbDecides(a: seq<U32>, b: seq<U32>, i: nat)
    requires |a| == |b| && i < |a| && a[i] < b[i] && a[i + 1..] == b[i + 1..]
    ensures Value(a) < Value(b)
    decreases |a|
  {
    hide Pow;
    var n := |a| - 1;
    if i == n {
      assert a[n] + 1 <= b[n];
      ValueBound(a[..n]);
      MulMonotone(a[n] + 1, b[n], Pow(n));
      assert (a[n] + 1) * Pow(n) == a[n] * Pow(n) + Pow(n);
    } else {
      assert a[n] == a[i + 1..][n - i - 1] == b[i + 1..][n - i - 1] == b[n];
      assert a[..n][i + 1..] == a[i + 1..][..n - i - 1] == b[i + 1..][..n - i - 1] == b[..n][i + 1..];
      HigherLimbDecides(a[..n], b[..n], i);
    }
  }

  method Compare(a: Limbs, b: Limbs) returns (r: Order)
    ensures r == if Value(a) < Value(b) then Smaller else if Value(a) > Value(b) then Larger else Equal
  {
    for i := 8 downto 0
      invariant a[i..] == b[i..]
    {
      if a[i] > b[i] {
        HigherLimbDecides(b, a, i);
        return Larger;
      } else if a[i] < b[i] {
        HigherLimbDecides(a, b, i);
        return Smaller;
      }
      assert a[i..] == [a[i]] + a[i + 1..] && b[i..] == [b[i]] + b[i + 1..];
    }
    assert a == a[0..] && b == b[0..];
    return Equal;
  }

  /** Limbs are a faithful representation. */
  lemma ValueInjective(a: Limbs, b: Limbs)
    ensures Value(a) == Value(b) <==> a == b
  {
    if a != b {
      var i: nat := 7;
      while a[i] == b[i]
        invariant i < 8 && a[i + 1..] == b[i + 1..]
        decreases i
      {
        assert a[i..] == [a[i]] + a[i + 1..] && b[i..] == [b[i]] + b[i + 1..];
        assert a[0..] == a && b[0..] == b;
        i := i - 1;
      }
      if a[i] < b[i] {
        HigherLimbDecides(a, b, i);
      } else {
        HigherLimbDecides(b, a, i);
      }
    }
  }
}
