/** The Ethereum address registry: two directions of one mapping in the storage of account 2. */
module Registry {
  import opened Encoding
  import opened Keys
  import opened Wrappers
  import opened Accounts

  const REGISTRY_ID: U32 := 2
  const SCRIPT_HASH_TO_NATIVE: Byte := 1
  const NATIVE_TO_SCRIPT_HASH: Byte := 2

  type Address = a: Bytes | |a| == 20 witness seq(20, _ => 0)

  function RegKey(flag: Byte, rest: Bytes): Key {
    AccountKey(REGISTRY_ID, ([114, 101, 103] + [flag]) + rest)
  }

  function ScriptKey(script: Word): Key {
    RegKey(SCRIPT_HASH_TO_NATIVE, script)
  }

  function AddressKey(addr: Address): Key {
    RegKey(NATIVE_TO_SCRIPT_HASH, RegistryBytes(RegAddr(REGISTRY_ID, addr)))
  }

  function AddressValue(addr: Address): Word {
    RegistryBytes(RegAddr(REGISTRY_ID, addr)) + [0, 0, 0, 0]
  }

  function ScriptOf(kv: State, addr: Address): Option<Word> {
    var v := Load(kv, AddressKey(addr));
    if v == ZeroWord() then None else Some(v)
  }

  /** A stored address longer than 20 bytes is an error, which cannot be told from a missing one here. */
  function AddressOf(kv: State, script: Word): Option<Bytes> {
    var v := Load(kv, ScriptKey(script));
    if v == ZeroWord() then None
    else
      var len := FromLittleEndian(v[4..8]);
      if len > 20 then None else Some(v[8..8 + len])
  }

  // ---------- Keys ----------

  lemma RegKeyInjective(f: Byte, x: Bytes, g: Byte, y: Bytes)
    requires RegKey(f, x) == RegKey(g, y)
    ensures f == g && x == y
  {
    var p, q: Bytes := [114, 101, 103] + [f], [114, 101, 103] + [g];
    AccountKeyInjective(REGISTRY_ID, p + x, REGISTRY_ID, q + y);
    SplitPair(p, x, q, y);
    assert p[3] == q[3];
  }

  /** The bytes of both keys and of a stored address. */
  lemma EntryBytes(script: Word, addr: Address)
    ensures ScriptKey(script) == AccountKey(2, [0x72, 0x65, 0x67, 1] + script)
    ensures AddressKey(addr) == AccountKey(2, [0x72, 0x65, 0x67, 2] + [2, 0, 0, 0] + [20, 0, 0, 0] + addr)
    ensures AddressValue(addr) == [2, 0, 0, 0] + [20, 0, 0, 0] + addr + [0, 0, 0, 0]
  {
    assert LittleEndian(2) == [2, 0, 0, 0] && LittleEndian(20) == [20, 0, 0, 0];
    assert [0x72, 0x65, 0x67] + [1] == [0x72, 0x65, 0x67, 1];
    var prefix: Bytes, two: Bytes, len: Bytes := [0x72, 0x65, 0x67, 2], [2, 0, 0, 0], [20, 0, 0, 0];
    assert [0x72, 0x65, 0x67] + [2] == prefix;
    assert prefix + (two + (len + addr)) == prefix + two + len + addr;
    assert two + (len + addr) == two + len + addr;
  }

  lemma RegistryKeys()
    ensures forall a: Address, s: Word :: AddressKey(a) != ScriptKey(s)
    ensures forall a: Address, b: Address | AddressKey(a) == AddressKey(b) :: a == b
    ensures forall s: Word, t: Word | ScriptKey(s) == ScriptKey(t) :: s == t
  {
    forall a: Address, s: Word
      ensures AddressKey(a) != ScriptKey(s)
    {
      if AddressKey(a) == ScriptKey(s) {
        RegKeyInjective(NATIVE_TO_SCRIPT_HASH, RegistryBytes(RegAddr(REGISTRY_ID, a)), SCRIPT_HASH_TO_NATIVE, s);
      }
    }
    forall a: Address, b: Address | AddressKey(a) == AddressKey(b)
      ensures a == b
    {
      var x, y := RegAddr(REGISTRY_ID, a), RegAddr(REGISTRY_ID, b);
      RegKeyInjective(NATIVE_TO_SCRIPT_HASH, RegistryBytes(x), NATIVE_TO_SCRIPT_HASH, RegistryBytes(y));
      RegistryBytesInjective(x, y);
    }
    forall s: Word, t: Word | ScriptKey(s) == ScriptKey(t)
      ensures s == t
    {
      RegKeyInjective(SCRIPT_HASH_TO_NATIVE, s, SCRIPT_HASH_TO_NATIVE, t);
    }
  }

  /** What is stored for an address reads back as that address. */
  lemma AddressRoundTrip(addr: Address)
    ensures var v := AddressValue(addr);
      v != ZeroWord() && FromLittleEndian(v[4..8]) == 20 && v[8..28] == addr
  {
    var v := AddressValue(addr);
    assert v[0] == LittleEndian(REGISTRY_ID)[0] == 2;
    assert v[4..8] == LittleEndian(20);
    LittleEndianRoundTrip(20);
    assert v[8..28] == addr;
  }

  // ---------- Registration ----------

  datatype Code = Registered | ZeroScriptHash | DuplicateMapping | AccountNotExists

  /** The new readings of both directions. */
  ghost predicate Updated(kv: State, addr: Address, script: Word, after: State) {
    && (forall a: Address :: ScriptOf(after, a) == if a == addr then Some(script) else ScriptOf(kv, a))
    && (forall s: Word :: AddressOf(after, s) ==
          if s == script then Some(addr)
          else if Some(s) == ScriptOf(kv, addr) then None
          else AddressOf(kv, s))
  }

  /** The three stores of a registration. */
  function Stored(kv: State, addr: Address, script: Word): State {
    var former := ScriptOf(kv, addr);
    var cleared := if former.Some? then kv[ScriptKey(former.value) := ZeroWord()] else kv;
    cleared[AddressKey(addr) := script][ScriptKey(script) := AddressValue(addr)]
  }

  lemma StoredUpdates(kv: State, addr: Address, script: Word)
    requires script != ZeroWord()
    ensures Updated(kv, addr, script, Stored(kv, addr, script))
  {
    hide AddressKey, ScriptKey, AddressValue;
    RegistryKeys();
    AddressRoundTrip(addr);
    var after := Stored(kv, addr, script);
    forall s: Word
      ensures AddressOf(after, s) ==
        if s == script then Some(addr) else if Some(s) == ScriptOf(kv, addr) then None else AddressOf(kv, s)
    {
      assert Load(after, ScriptKey(s)) ==
        if s == script then AddressValue(addr)
        else if Some(s) == ScriptOf(kv, addr) then ZeroWord()
        else Load(kv, ScriptKey(s));
    }
  }

  lemma StoredKeepsPlain(kv: State, addr: Address, script: Word)
    ensures forall key: Key | key.Plain? :: Load(Stored(kv, addr, script), key) == Load(kv, key)
  {
    hide AddressValue, ScriptOf;
  }

  class Context {
    var kv: State

    constructor (kv: State)
      ensures this.kv == kv
    {
      this.kv := kv;
    }

    method UpdateRegister(addr: Address, script: Word, overwrite: bool) returns (r: Code)
      modifies this
      ensures r == ZeroScriptHash <==> script == ZeroWord()
      ensures r == Registered <==>
        && script != ZeroWord() && Exists(old(kv), REGISTRY_ID)
        && (overwrite || ScriptOf(old(kv), addr).None?)
      ensures r == AccountNotExists <==> script != ZeroWord() && !Exists(old(kv), REGISTRY_ID)
      ensures r == DuplicateMapping <==>
        && script != ZeroWord() && Exists(old(kv), REGISTRY_ID)
        && !overwrite && ScriptOf(old(kv), addr).Some?
      ensures r != Registered ==> kv == old(kv)
      ensures r == Registered ==> Updated(old(kv), addr, script, kv)
      ensures forall key: Key | key.Plain? :: Load(kv, key) == Load(old(kv), key)
    {
      hide AddressKey, ScriptKey, AddressValue, Updated, Exists, ScriptOf;
      if script == ZeroWord() {
        return ZeroScriptHash;
      }
      StoredUpdates(kv, addr, script);
      StoredKeepsPlain(kv, addr, script);
      var present := Exists(kv, REGISTRY_ID);
      var former := if present then ScriptOf(kv, addr) else None;
      if former.Some? && !overwrite {
        return DuplicateMapping;
      }
      if !present {
        return AccountNotExists;
      }
      if former.Some? {
        kv := kv[ScriptKey(former.value) := ZeroWord()];
      }
      kv := kv[AddressKey(addr) := script];
      kv := kv[ScriptKey(script) := AddressValue(addr)];
      return Registered;
    }
  }

  // ---------- Both directions agree ----------

  ghost predicate Bijective(kv: State) {
    forall a: Address, s: Word :: ScriptOf(kv, a) == Some(s) <==> AddressOf(kv, s) == Some(a)
  }

  /** A registration keeps the two directions inverse exactly when the script had no address or had this
  one: nothing clears an address the script leaves behind. */
  lemma UpdateKeepsExactly(kv: State, addr: Address, script: Word, after: State)
    requires Bijective(kv) && Updated(kv, addr, script, after)
    requires forall a: Bytes | AddressOf(kv, script) == Some(a) :: |a| == 20
    ensures Bijective(after) <==> AddressOf(kv, script) in {None, Some(addr)}
  {
    hide ScriptOf, AddressOf;
    if AddressOf(kv, script) in {None, Some(addr)} {
      forall a: Address, s: Word
        ensures ScriptOf(after, a) == Some(s) <==> AddressOf(after, s) == Some(a)
      {
        assert ScriptOf(kv, a) == Some(s) <==> AddressOf(kv, s) == Some(a);
        assert ScriptOf(kv, a) == Some(script) <==> AddressOf(kv, script) == Some(a);
        assert ScriptOf(kv, addr) == Some(s) <==> AddressOf(kv, s) == Some(addr);
      }
    } else {
      var left: Address := AddressOf(kv, script).value;
      assert ScriptOf(kv, left) == Some(script);
      assert ScriptOf(after, left) == Some(script) && AddressOf(after, script) == Some(addr);
    }
  }

  /** A state in which only the registry's own account has a script hash. */
  function Unused(hash: Word): State {
    map[FieldKey(REGISTRY_ID, ACCOUNT_SCRIPT_HASH) := hash]
  }

  lemma UnusedIsEmpty(hash: Word)
    ensures forall a: Address :: ScriptOf(Unused(hash), a) == None
    ensures forall s: Word :: AddressOf(Unused(hash), s) == None
  {
    forall a: Address
      ensures ScriptOf(Unused(hash), a) == None
    {
      assert AddressKey(a) !in Unused(hash);
    }
    forall s: Word
      ensures AddressOf(Unused(hash), s) == None
    {
      assert ScriptKey(s) !in Unused(hash);
    }
  }

  /** A script registered under one address and then, without overwriting anything, under another: both
  registrations are accepted, and the first address still names the script. */
  lemma MovedScript(hash: Word, script: Word, a: Address, b: Address)
    requires hash != ZeroWord() && script != ZeroWord() && a != b
    ensures var kv := Stored(Unused(hash), a, script);
      && Bijective(kv) && Exists(kv, REGISTRY_ID)
      && ScriptOf(kv, b).None? && AddressOf(kv, script) == Some(a)
      && Updated(kv, b, script, Stored(kv, b, script))
      && !Bijective(Stored(kv, b, script))
  {
    hide AddressKey, ScriptKey, AddressValue, ScriptOf, AddressOf, Stored;
    var empty := Unused(hash);
    var kv := Stored(empty, a, script);
    UnusedIsEmpty(hash);
    StoredUpdates(empty, a, script);
    StoredKeepsPlain(empty, a, script);
    assert Bijective(empty);
    UpdateKeepsExactly(empty, a, script, kv);
    StoredUpdates(kv, b, script);
    UpdateKeepsExactly(kv, b, script, Stored(kv, b, script));
  }

  datatype Registration = Registration(addr: Address, script: Word)

  /** The states of a run of accepted registrations. */
  ghost predicate Run(states: seq<State>, ops: seq<Registration>) {
    && |states| == |ops| + 1
    && forall i: nat | i < |ops| :: Updated(states[i], ops[i].addr, ops[i].script, states[i + 1])
  }

  ghost predicate Fixed(kv: State, owner: Word -> Address) {
    forall s: Word | AddressOf(kv, s).Some? :: AddressOf(kv, s).value == owner(s)
  }

  lemma UpdateKeepsFixed(kv: State, owner: Word -> Address, addr: Address, script: Word, after: State)
    requires Bijective(kv) && Fixed(kv, owner) && Updated(kv, addr, script, after) && owner(script) == addr
    ensures Bijective(after) && Fixed(after, owner)
  {
    hide ScriptOf, AddressOf;
    UpdateKeepsExactly(kv, addr, script, after);
  }

  /** When every script fixes its address, any run of registrations and overwrites keeps the two
  directions inverse. */
  lemma {:induction false} RunKeeps(states: seq<State>, ops: seq<Registration>, owner: Word -> Address)
    requires Run(states, ops) && Bijective(states[0]) && Fixed(states[0], owner)
    requires forall i: nat | i < |ops| :: owner(ops[i].script) == ops[i].addr
    ensures Bijective(states[|ops|]) && Fixed(states[|ops|], owner)
    decreases |ops|
  {
    hide Bijective, Fixed, Updated;
    if ops != [] {
      var n := |ops| - 1;
      RunKeeps(states[..n + 1], ops[..n], owner);
      UpdateKeepsFixed(states[n], owner, ops[n].addr, ops[n].script, states[n + 1]);
    }
  }
}
