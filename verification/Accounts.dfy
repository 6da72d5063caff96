/** Account creation in the on-chain validator: ids and script hashes over the flat key space. */
module Accounts {
  import opened Encoding
  import opened Keys
  import opened Wrappers

  const MAX_SCRIPT_ENTRIES: nat := 100

  type State = map<Key, Word>

  function Load(kv: State, key: Key): Word {
    if key in kv then kv[key] else ZeroWord()
  }

  function HashOf(kv: State, id: U32): Word {
    Load(kv, FieldKey(id, ACCOUNT_SCRIPT_HASH))
  }

  function NonceOf(kv: State, id: U32): U32 {
    FromLittleEndian(Load(kv, FieldKey(id, ACCOUNT_NONCE))[..4])
  }

  /** The account id filed under a script hash; byte 4 says that there is one. */
  function IdOf(kv: State, hash: Word): Option<U32> {
    var v := Load(kv, ScriptHashToIdKey(hash));
    if v[4] == 1 then Some(FromLittleEndian(v[..4])) else None
  }

  /** `_ensure_account_exists`. */
  predicate Exists(kv: State, id: U32) {
    HashOf(kv, id) != ZeroWord()
  }

  /** Ids below the count and script hashes are inverse to each other, and no other id exists. */
  ghost predicate Inverse(kv: State, count: nat) {
    && (forall id: U32 :: Exists(kv, id) <==> id < count)
    && (forall id: U32 | id < count :: IdOf(kv, HashOf(kv, id)) == Some(id))
    && (forall hash: Word | IdOf(kv, hash).Some? ::
          IdOf(kv, hash).value < count && HashOf(kv, IdOf(kv, hash).value) == hash)
  }

  datatype Code = Ok(id: U32) | SlotsFull | NotAllowed | DuplicatedScriptHash

  datatype Entry = Entry(script: Bytes, hash: Word)

  /** What creating account `id` with this script hash stores. */
  function Created(kv: State, id: U32, hash: Word): State {
    kv[FieldKey(id, ACCOUNT_NONCE) := ZeroWord()]
      [FieldKey(id, ACCOUNT_SCRIPT_HASH) := hash]
      [ScriptHashToIdKey(hash) := LittleEndian(id) + ([1] + seq(27, _ => 0))]
  }

  lemma CreatedReads(kv: State, id: U32, hash: Word)
    ensures var kv' := Created(kv, id, hash);
      && NonceOf(kv', id) == 0
      && (forall i: U32 :: HashOf(kv', i) == if i == id then hash else HashOf(kv, i))
      && (forall i: U32 | i != id :: NonceOf(kv', i) == NonceOf(kv, i))
      && (forall h: Word :: IdOf(kv', h) == if h == hash then Some(id) else IdOf(kv, h))
  {
    var kv' := Created(kv, id, hash);
    hide FieldKey, ScriptHashToIdKey;
    KindsApart();
    FieldKeysInjective();
    ScriptKeysInjective();
    var value := LittleEndian(id) + ([1] + seq(27, _ => 0));
    assert value[..4] == LittleEndian(id) && value[4] == 1;
    LittleEndianRoundTrip(id);
  }

  lemma KindsApart()
    ensures forall i: U32, f: Byte, h: Bytes :: FieldKey(i, f) != ScriptHashToIdKey(h)
  {
  }

  lemma FieldKeysInjective()
    ensures forall i: U32, s: Byte, j: U32, t: Byte | FieldKey(i, s) == FieldKey(j, t) :: i == j && s == t
  {
    forall i: U32, s: Byte, j: U32, t: Byte | FieldKey(i, s) == FieldKey(j, t)
      ensures i == j && s == t
    {
      FieldKeyInjective(i, s, j, t);
    }
  }

  lemma ScriptKeysInjective()
    ensures forall x: Bytes, y: Bytes | ScriptHashToIdKey(x) == ScriptHashToIdKey(y) :: x == y
  {
    forall x: Bytes, y: Bytes | ScriptHashToIdKey(x) == ScriptHashToIdKey(y)
      ensures x == y
    {
      ScriptHashToIdKeyInjective(x, y);
    }
  }

  /** Creating the next account keeps the maps inverse exactly when the hash is new and not zero. */
  lemma CreateKeepsExactly(kv: State, count: U32, hash: Word)
    requires Inverse(kv, count)
    ensures Inverse(Created(kv, count, hash), count + 1) <==> IdOf(kv, hash).None? && hash != ZeroWord()
  {
    hide Created, HashOf, IdOf, NonceOf;
    var kv' := Created(kv, count, hash);
    CreatedReads(kv, count, hash);
    assert !Exists(kv, count);
    if IdOf(kv, hash).Some? {
      var taken := IdOf(kv, hash).value;
      assert HashOf(kv', taken) == hash && IdOf(kv', hash) == Some(count);
      assert !Inverse(kv', count + 1);
    } else if hash == ZeroWord() {
      assert !Exists(kv', count);
    } else {
      forall id: U32 | id < count + 1
        ensures IdOf(kv', HashOf(kv', id)) == Some(id)
      {
        if id < count {
          assert Exists(kv, id) && IdOf(kv, HashOf(kv, id)) == Some(id);
        }
      }
      forall id: U32
        ensures Exists(kv', id) <==> id < count + 1
      {
        assert Exists(kv, id) <==> id < count;
      }
      forall h: Word | IdOf(kv', h).Some?
        ensures IdOf(kv', h).value < count + 1 && HashOf(kv', IdOf(kv', h).value) == h
      {
      }
    }
  }

  class Context {
    const hasher: Bytes -> Word
    const allowed: Bytes -> bool
    var kv: State
    var count: U32
    var scripts: seq<Entry>

    ghost predicate Valid()
      reads this
    {
      && Inverse(kv, count)
      && |scripts| <= MAX_SCRIPT_ENTRIES
      && forall i: nat | i < |scripts| :: scripts[i].hash == hasher(scripts[i].script)
    }

    constructor (hasher: Bytes -> Word, allowed: Bytes -> bool, kv: State, count: U32)
      requires Inverse(kv, count)
      ensures Valid() && this.kv == kv && this.count == count && this.hasher == hasher && this.allowed == allowed
    {
      this.hasher, this.allowed, this.kv, this.count, scripts := hasher, allowed, kv, count, [];
    }

    /** The count is a 32-bit number: creating the last id wraps it. */
    method Create(script: Bytes) returns (r: Code)
      requires Valid() && hasher(script) != ZeroWord()
      modifies this
      ensures r == SlotsFull <==> |old(scripts)| == MAX_SCRIPT_ENTRIES
      ensures r == NotAllowed <==> |old(scripts)| < MAX_SCRIPT_ENTRIES && !allowed(script)
      ensures r == DuplicatedScriptHash <==>
        |old(scripts)| < MAX_SCRIPT_ENTRIES && allowed(script) && IdOf(old(kv), hasher(script)).Some?
      ensures !r.Ok? ==> unchanged(this)
      ensures r.Ok? ==>
        && r.id == old(count)
        && kv == Created(old(kv), r.id, hasher(script))
        && scripts == old(scripts) + [Entry(script, hasher(script))]
        && IdOf(kv, HashOf(kv, r.id)) == Some(r.id) && NonceOf(kv, r.id) == 0
      ensures r.Ok? && old(count) < U32_MAX ==> Valid() && count == old(count) + 1
    {
      hide Inverse, Created, IdOf, HashOf, NonceOf, FieldKey, ScriptHashToIdKey;
      if |scripts| >= MAX_SCRIPT_ENTRIES {
        return SlotsFull;
      }
      var id := count;
      if !allowed(script) {
        return NotAllowed;
      }
      var hash := hasher(script);
      var exist := IdOf(kv, hash);
      if exist.Some? {
        return DuplicatedScriptHash;
      }
      CreatedReads(kv, id, hash);
      CreateKeepsExactly(kv, id, hash);
      CreatedIs(kv, id, hash);
      kv := kv[FieldKey(id, ACCOUNT_NONCE) := ZeroWord()];
      kv := kv[FieldKey(id, ACCOUNT_SCRIPT_HASH) := hash];
      var value: Word := LittleEndian(id) + ([1] + seq(27, _ => 0));
      kv := kv[ScriptHashToIdKey(hash) := value];
      scripts := scripts + [Entry(script, hash)];
      count := (count + 1) % 0x1_0000_0000;
      return Ok(id);
    }
  }

  lemma CreatedIs(kv: State, id: U32, hash: Word)
    ensures Created(kv, id, hash) ==
      kv[FieldKey(id, ACCOUNT_NONCE) := ZeroWord()]
        [FieldKey(id, ACCOUNT_SCRIPT_HASH) := hash]
        [ScriptHashToIdKey(hash) := LittleEndian(id) + ([1] + seq(27, _ => 0))]
  {
  }

  /** A run of creations, one hash each. */
  function CreateAll(kv: State, count: nat, hashes: seq<Word>): State
    requires count + |hashes| <= U32_MAX + 1
    decreases |hashes|
  {
    if hashes == [] then kv
    else CreateAll(Created(kv, count, hashes[0]), count + 1, hashes[1..])
  }

  /** Over any run of creations of new scripts the maps stay inverse, and account `count + i` is the
  `i`-th created one. */
  lemma {:induction false} CreateAllKeeps(kv: State, count: nat, hashes: seq<Word>)
    requires count + |hashes| <= U32_MAX + 1 && Inverse(kv, count)
    requires forall i: nat | i < |hashes| :: hashes[i] != ZeroWord() && IdOf(kv, hashes[i]).None?
    requires forall i: nat, j: nat | i < j < |hashes| :: hashes[i] != hashes[j]
    ensures var kv' := CreateAll(kv, count, hashes);
      && Inverse(kv', count + |hashes|)
      && (forall i: nat | i < |hashes| :: HashOf(kv', count + i) == hashes[i])
      && (forall id: U32 | id < count :: HashOf(kv', id) == HashOf(kv, id))
    decreases |hashes|
  {
    hide Inverse, Created, IdOf, HashOf, NonceOf;
    if hashes != [] {
      var next, rest := Created(kv, count, hashes[0]), hashes[1..];
      CreatedReads(kv, count, hashes[0]);
      CreateKeepsExactly(kv, count, hashes[0]);
      CreateAllKeeps(next, count + 1, rest);
      var kv' := CreateAll(kv, count, hashes);
      forall i: nat | i < |hashes|
        ensures HashOf(kv', count + i) == hashes[i]
      {
        if i > 0 {
          assert HashOf(kv', count + 1 + (i - 1)) == rest[i - 1];
        }
      }
    }
  }
}
