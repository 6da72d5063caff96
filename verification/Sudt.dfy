/** Layer-2 simple UDT: balances under hashed keys of the token account, moved by limb arithmetic. */
module Sudt {
  import opened Encoding
  import opened Keys
  import opened Uint256
  import opened Wrappers

  const KEY_FLAG_BALANCE: U32 := 1
  const KEY_BUFFER: nat := 64

  datatype Code = Ok | BufferOverflow | NotSudt | InsufficientBalance | AmountOverflow

  function ZeroLimbs(): Limbs {
    [0, 0, 0, 0, 0, 0, 0, 0]
  }

  predicate FitsKey(addr: RegAddr) {
    4 + 8 + |addr.addr| <= KEY_BUFFER
  }

  function BalanceKey(sudt: U32, addr: RegAddr): Key
    requires FitsKey(addr)
  {
    AccountKey(sudt, LittleEndian(KEY_FLAG_BALANCE) + RegistryBytes(addr))
  }

  function SupplyKey(sudt: U32): Key {
    AccountKey(sudt, seq(32, _ => 255))
  }

  /** The bytes of a balance key, and that exactly those fit the 64-byte buffer. */
  lemma BalanceKeyBytes(sudt: U32, addr: RegAddr)
    requires |addr.addr| <= U32_MAX
    ensures var bytes := [1, 0, 0, 0] + LittleEndian(addr.regId) + LittleEndian(|addr.addr|) + addr.addr;
      && (FitsKey(addr) <==> |bytes| <= 64)
      && (FitsKey(addr) ==> BalanceKey(sudt, addr) == AccountKey(sudt, bytes))
      && SupplyKey(sudt) == AccountKey(sudt, seq(32, _ => 0xff))
  {
    assert LittleEndian(KEY_FLAG_BALANCE) == [1, 0, 0, 0];
    var id, len := LittleEndian(addr.regId), LittleEndian(|addr.addr|);
    assert [1, 0, 0, 0] + (id + (len + addr.addr)) == [1, 0, 0, 0] + id + len + addr.addr;
  }

  lemma BalanceKeyInjective(s: U32, a: RegAddr, t: U32, b: RegAddr)
    requires FitsKey(a) && FitsKey(b) && BalanceKey(s, a) == BalanceKey(t, b)
    ensures s == t && a == b
  {
    var flag := LittleEndian(KEY_FLAG_BALANCE);
    AccountKeyInjective(s, flag + RegistryBytes(a), t, flag + RegistryBytes(b));
    SplitPair(flag, RegistryBytes(a), flag, RegistryBytes(b));
    RegistryBytesInjective(a, b);
  }

  /** No balance shares its key with the total supply. */
  lemma SupplyKeyApart(s: U32, a: RegAddr, t: U32)
    requires FitsKey(a)
    ensures BalanceKey(s, a) != SupplyKey(t)
  {
    if BalanceKey(s, a) == SupplyKey(t) {
      var x: Bytes, y: Bytes := LittleEndian(KEY_FLAG_BALANCE) + RegistryBytes(a), seq(32, _ => 255);
      assert x[0] == 1 && y[0] == 255;
      AccountKeyInjective(s, x, t, y);
    }
  }

  type State = map<Key, Limbs>

  function Load(kv: State, key: Key): Limbs {
    if key in kv then kv[key] else ZeroLimbs()
  }

  function Balance(kv: State, sudt: U32, addr: RegAddr): nat
    requires FitsKey(addr)
  {
    Value(Load(kv, BalanceKey(sudt, addr)))
  }

  // ---------- Sums over holders ----------

  ghost predicate Holders(addrs: seq<RegAddr>) {
    && (forall i: nat | i < |addrs| :: FitsKey(addrs[i]))
    && (forall i: nat, j: nat | i < j < |addrs| :: addrs[i] != addrs[j])
  }

  ghost function Total(kv: State, sudt: U32, addrs: seq<RegAddr>): nat
    requires Holders(addrs)
  {
    if addrs == [] then 0
    else Total(kv, sudt, addrs[..|addrs| - 1]) + Balance(kv, sudt, addrs[|addrs| - 1])
  }

  /** Changing one balance changes the sum over any list of distinct holders by that much. */
  lemma {:induction false} TotalChange(kv: State, sudt: U32, addrs: seq<RegAddr>, addr: RegAddr, limbs: Limbs)
    requires Holders(addrs) && FitsKey(addr)
    ensures var kv' := kv[BalanceKey(sudt, addr) := limbs];
      Total(kv', sudt, addrs) ==
        if addr in addrs then Total(kv, sudt, addrs) - Balance(kv, sudt, addr) + Value(limbs)
        else Total(kv, sudt, addrs)
  {
    hide BalanceKey, Value;
    if addrs != [] {
      var last, front := addrs[|addrs| - 1], addrs[..|addrs| - 1];
      assert addrs == front + [last];
      TotalChange(kv, sudt, front, addr, limbs);
      BalanceAfter(kv, sudt, addr, limbs, last);
    }
  }

  lemma {:induction false} TotalAtLeast(kv: State, sudt: U32, addrs: seq<RegAddr>, addr: RegAddr)
    requires Holders(addrs) && addr in addrs
    ensures FitsKey(addr) && Balance(kv, sudt, addr) <= Total(kv, sudt, addrs)
  {
    var last, front := addrs[|addrs| - 1], addrs[..|addrs| - 1];
    assert addrs == front + [last];
    if last != addr {
      TotalAtLeast(kv, sudt, front, addr);
    }
  }

  lemma {:induction false} TotalAtLeastTwo(kv: State, sudt: U32, addrs: seq<RegAddr>, a: RegAddr, b: RegAddr)
    requires Holders(addrs) && a in addrs && b in addrs && a != b
    ensures FitsKey(a) && FitsKey(b)
    ensures Balance(kv, sudt, a) + Balance(kv, sudt, b) <= Total(kv, sudt, addrs)
  {
    var last, front := addrs[|addrs| - 1], addrs[..|addrs| - 1];
    assert addrs == front + [last];
    if last == a {
      TotalAtLeast(kv, sudt, front, b);
    } else if last == b {
      TotalAtLeast(kv, sudt, front, a);
    } else {
      TotalAtLeastTwo(kv, sudt, front, a, b);
    }
  }

  // ---------- Transfer ----------

  ghost predicate Debited(kv: State, sudt: U32, from: RegAddr, amount: Limbs, after: State)
    requires FitsKey(from)
  {
    exists limbs: Limbs ::
      && after == kv[BalanceKey(sudt, from) := limbs]
      && Value(limbs) + Value(amount) == Balance(kv, sudt, from)
  }

  ghost predicate Credited(kv: State, sudt: U32, to: RegAddr, amount: Limbs, after: State)
    requires FitsKey(to)
  {
    exists limbs: Limbs ::
      && after == kv[BalanceKey(sudt, to) := limbs]
      && Value(limbs) == Balance(kv, sudt, to) + Value(amount)
  }

  method Difference(a: Limbs, b: Limbs) returns (r: Limbs)
    requires Value(a) >= Value(b)
    ensures Value(r) + Value(b) == Value(a)
  {
    var rem := new U32[8];
    var borrow := UnderflowSub(a, b, rem);
    ValueBound(rem[..]);
    r := rem[..];
  }

  method Sum(a: Limbs, b: Limbs) returns (r: Option<Limbs>)
    ensures r.Some? <==> Value(a) + Value(b) < Pow(8)
    ensures r.Some? ==> Value(r.value) == Value(a) + Value(b)
  {
    var sum := new U32[8];
    var carry := OverflowAdd(a, b, sum);
    ValueBound(sum[..]);
    r := if carry != 0 then None else Some(sum[..]);
  }

  /** Only one balance changes when one key is stored. */
  lemma BalanceAfter(kv: State, sudt: U32, addr: RegAddr, limbs: Limbs, other: RegAddr)
    requires FitsKey(addr) && FitsKey(other)
    ensures Balance(kv[BalanceKey(sudt, addr) := limbs], sudt, other) ==
      if addr == other then Value(limbs) else Balance(kv, sudt, other)
  {
    hide BalanceKey, Value;
    if addr != other && BalanceKey(sudt, addr) == BalanceKey(sudt, other) {
      BalanceKeyInjective(sudt, addr, sudt, other);
    }
  }

  /** Which code a transfer returns, and what it leaves. */
  ghost predicate Transferred(sudts: set<U32>, kv: State, sudt: U32, from: RegAddr, to: RegAddr, amount: Limbs,
                              r: Code, after: State) {
    && (r == NotSudt <==> sudt !in sudts)
    && (r == InsufficientBalance <==>
          sudt in sudts && FitsKey(from) && Balance(kv, sudt, from) < Value(amount))
    && (r == Ok <==>
          && sudt in sudts && FitsKey(from) && FitsKey(to)
          && Balance(kv, sudt, from) >= Value(amount)
          && (from == to || Balance(kv, sudt, to) + Value(amount) < Pow(8)))
    && (r == AmountOverflow <==>
          && sudt in sudts && FitsKey(from) && FitsKey(to) && from != to
          && Balance(kv, sudt, from) >= Value(amount)
          && Balance(kv, sudt, to) + Value(amount) >= Pow(8))
    && (r in {NotSudt, InsufficientBalance} || !FitsKey(from) ==> after == kv)
    && (r == AmountOverflow || (r == BufferOverflow && FitsKey(from)) ==>
          FitsKey(from) && Debited(kv, sudt, from, amount, after))
    && (r == Ok ==> exists mid :: Debited(kv, sudt, from, amount, mid) && Credited(mid, sudt, to, amount, after))
  }

  class Context {
    /** Accounts that are simple UDT contracts. */
    const sudts: set<U32>
    const producer: RegAddr
    var kv: State

    constructor (sudts: set<U32>, producer: RegAddr, kv: State)
      ensures this.sudts == sudts && this.producer == producer && this.kv == kv
    {
      this.sudts, this.producer, this.kv := sudts, producer, kv;
    }

    /** On success the sender is debited and the receiver credited; the overflow error is found after
    the debit, and leaves it in place. */
    method Transfer(sudt: U32, from: RegAddr, to: RegAddr, amount: Limbs) returns (r: Code)
      modifies this
      ensures Transferred(sudts, old(kv), sudt, from, to, amount, r, kv)
    {
      hide Value, Pow, BalanceKey;
      if sudt !in sudts {
        return NotSudt;
      }
      if !FitsKey(from) {
        return BufferOverflow;
      }
      var fromBalance := Load(kv, BalanceKey(sudt, from));
      var order := Compare(fromBalance, amount);
      if order == Smaller {
        return InsufficientBalance;
      }
      var newFrom := Difference(fromBalance, amount);
      kv := kv[BalanceKey(sudt, from) := newFrom];
      ghost var mid := kv;
      assert Debited(old(kv), sudt, from, amount, mid);
      if !FitsKey(to) {
        return BufferOverflow;
      }
      BalanceAfter(old(kv), sudt, from, newFrom, to);
      ValueBound(fromBalance);
      var toBalance := Load(kv, BalanceKey(sudt, to));
      var newTo := Sum(toBalance, amount);
      if newTo.None? {
        return AmountOverflow;
      }
      kv := kv[BalanceKey(sudt, to) := newTo.value];
      assert Credited(mid, sudt, to, amount, kv);
      return Ok;
    }

    /** The fee goes to the block producer like any other transfer. */
    method PayFee(sudt: U32, from: RegAddr, amount: Limbs) returns (r: Code)
      modifies this
      ensures Transferred(sudts, old(kv), sudt, from, producer, amount, r, kv)
    {
      r := Transfer(sudt, from, producer, amount);
    }
  }

  lemma Debit(kv: State, sudt: U32, from: RegAddr, amount: Limbs, after: State, addrs: seq<RegAddr>)
    requires FitsKey(from) && Debited(kv, sudt, from, amount, after) && Holders(addrs) && from in addrs
    ensures Total(after, sudt, addrs) == Total(kv, sudt, addrs) - Value(amount)
  {
    var limbs: Limbs :| after == kv[BalanceKey(sudt, from) := limbs]
                        && Value(limbs) + Value(amount) == Balance(kv, sudt, from);
    TotalChange(kv, sudt, addrs, from, limbs);
  }

  lemma Credit(kv: State, sudt: U32, to: RegAddr, amount: Limbs, after: State, addrs: seq<RegAddr>)
    requires FitsKey(to) && Credited(kv, sudt, to, amount, after) && Holders(addrs) && to in addrs
    ensures Total(after, sudt, addrs) == Total(kv, sudt, addrs) + Value(amount)
  {
    var limbs: Limbs :| after == kv[BalanceKey(sudt, to) := limbs]
                        && Value(limbs) == Balance(kv, sudt, to) + Value(amount);
    TotalChange(kv, sudt, addrs, to, limbs);
  }

  /** A successful transfer keeps the sum over any list of distinct holders that has both parties, and
  changes no key but theirs; a transfer to oneself changes no balance at all. */
  lemma TransferConserves(kv: State, sudt: U32, from: RegAddr, to: RegAddr, amount: Limbs, mid: State, after: State,
                          addrs: seq<RegAddr>)
    requires FitsKey(from) && FitsKey(to)
    requires Debited(kv, sudt, from, amount, mid) && Credited(mid, sudt, to, amount, after)
    requires Holders(addrs) && from in addrs && to in addrs
    ensures Total(after, sudt, addrs) == Total(kv, sudt, addrs)
    ensures forall key | key != BalanceKey(sudt, from) && key != BalanceKey(sudt, to) ::
      Load(after, key) == Load(kv, key)
    ensures if from == to then Balance(after, sudt, from) == Balance(kv, sudt, from)
            else Balance(after, sudt, from) == Balance(kv, sudt, from) - Value(amount)
                 && Balance(after, sudt, to) == Balance(kv, sudt, to) + Value(amount)
  {
    hide BalanceKey, Value, Balance, Total;
    Debit(kv, sudt, from, amount, mid, addrs);
    Credit(mid, sudt, to, amount, after, addrs);
    var less: Limbs :| mid == kv[BalanceKey(sudt, from) := less]
                       && Value(less) + Value(amount) == Balance(kv, sudt, from);
    var more: Limbs :| after == mid[BalanceKey(sudt, to) := more]
                       && Value(more) == Balance(mid, sudt, to) + Value(amount);
    BalanceAfter(kv, sudt, from, less, to);
    BalanceAfter(kv, sudt, from, less, from);
    BalanceAfter(mid, sudt, to, more, from);
    BalanceAfter(mid, sudt, to, more, to);
  }

  /** After a debit the credit cannot overflow while all balances together are below 2^256. */
  lemma OverflowUnreachable(kv: State, sudt: U32, from: RegAddr, to: RegAddr, amount: Limbs, mid: State,
                            addrs: seq<RegAddr>)
    requires FitsKey(from) && FitsKey(to) && Debited(kv, sudt, from, amount, mid)
    requires Holders(addrs) && from in addrs && to in addrs && Total(kv, sudt, addrs) < Pow(8)
    ensures Balance(mid, sudt, to) + Value(amount) < Pow(8)
  {
    hide BalanceKey, Value, Balance, Total, Pow;
    var less: Limbs :| mid == kv[BalanceKey(sudt, from) := less]
                       && Value(less) + Value(amount) == Balance(kv, sudt, from);
    BalanceAfter(kv, sudt, from, less, to);
    if from == to {
      TotalAtLeast(kv, sudt, addrs, from);
    } else {
      TotalAtLeastTwo(kv, sudt, addrs, from, to);
    }
  }

  /** The total supply is never touched by a transfer. */
  lemma SupplyUntouched(kv: State, sudt: U32, from: RegAddr, to: RegAddr, amount: Limbs, mid: State, after: State,
                        token: U32)
    requires FitsKey(from) && FitsKey(to)
    requires Debited(kv, sudt, from, amount, mid) && Credited(mid, sudt, to, amount, after)
    ensures Load(after, SupplyKey(token)) == Load(kv, SupplyKey(token))
  {
    SupplyKeyApart(sudt, from, token);
    SupplyKeyApart(sudt, to, token);
  }
}
