/** The flat key space of the account tree.  A hashed key is its preimage: hashes are injective and
never have the shape of a plain field key. */
module Keys {
  import opened Encoding

  const ACCOUNT_KV: Byte := 0
  const ACCOUNT_NONCE: Byte := 1
  const ACCOUNT_SCRIPT_HASH: Byte := 2
  const ACCOUNT_SCRIPT_HASH_TO_ID: Byte := 3
  const DATA_HASH_PREFIX: Byte := 4

  datatype Key = Hashed(input: Bytes) | Plain(bytes: Bytes)

  /** A registry address: registry id, length and native address. */
  datatype RegAddr = RegAddr(regId: U32, addr: Bytes)

  function Typed(id: U32, kind: Byte, key: Bytes): Bytes {
    LittleEndian(id) + ([kind] + key)
  }

  function AccountKey(id: U32, key: Bytes): Key {
    Hashed(Typed(id, ACCOUNT_KV, key))
  }

  function FieldKey(id: U32, field: Byte): Key {
    Plain(LittleEndian(id) + ([field] + seq(27, _ => 0)))
  }

  function ScriptHashToIdKey(hash: Bytes): Key {
    Hashed(Typed(0, ACCOUNT_SCRIPT_HASH_TO_ID, hash))
  }

  function DataHashKey(hash: Bytes): Key {
    Hashed(Typed(0, DATA_HASH_PREFIX, hash))
  }

  function RegistryBytes(a: RegAddr): Bytes
    requires |a.addr| <= U32_MAX
  {
    LittleEndian(a.regId) + (LittleEndian(|a.addr|) + a.addr)
  }

  /** The bytes of every kind of key. */
  lemma KeyBytes(id: U32, key: Bytes, field: Byte, hash: Bytes)
    ensures AccountKey(id, key) == Hashed(LittleEndian(id) + [0] + key)
    ensures ScriptHashToIdKey(hash) == Hashed([0, 0, 0, 0, 3] + hash)
    ensures DataHashKey(hash) == Hashed([0, 0, 0, 0, 4] + hash)
    ensures var plain := FieldKey(id, field);
      && plain.Plain? && |plain.bytes| == 32
      && plain.bytes[..4] == LittleEndian(id) && plain.bytes[4] == field
      && forall i: nat | 5 <= i < 32 :: plain.bytes[i] == 0
    ensures LittleEndian(0x0403_0201) == [1, 2, 3, 4]
  {
    assert LittleEndian(0) == [0, 0, 0, 0];
    assert LittleEndian(id) + ([0] + key) == LittleEndian(id) + [0] + key;
    assert [0, 0, 0, 0] + ([3] + hash) == [0, 0, 0, 0, 3] + hash;
    assert [0, 0, 0, 0] + ([4] + hash) == [0, 0, 0, 0, 4] + hash;
  }

  lemma TypedInjective(i: U32, s: Byte, x: Bytes, j: U32, t: Byte, y: Bytes)
    requires Typed(i, s, x) == Typed(j, t, y)
    ensures i == j && s == t && x == y
  {
    SplitPair(LittleEndian(i), [s] + x, LittleEndian(j), [t] + y);
    LittleEndianInjective(i, j);
    SplitPair([s], x, [t], y);
  }

  lemma AccountKeyInjective(i: U32, x: Bytes, j: U32, y: Bytes)
    requires AccountKey(i, x) == AccountKey(j, y)
    ensures i == j && x == y
  {
    TypedInjective(i, ACCOUNT_KV, x, j, ACCOUNT_KV, y);
  }

  lemma FieldKeyInjective(i: U32, s: Byte, j: U32, t: Byte)
    requires FieldKey(i, s) == FieldKey(j, t)
    ensures i == j && s == t
  {
    SplitPair(LittleEndian(i), [s] + seq(27, _ => 0), LittleEndian(j), [t] + seq(27, _ => 0));
    LittleEndianInjective(i, j);
    assert ([s] + seq(27, _ => 0))[0] == ([t] + seq(27, _ => 0))[0];
  }

  lemma ScriptHashToIdKeyInjective(x: Bytes, y: Bytes)
    requires ScriptHashToIdKey(x) == ScriptHashToIdKey(y)
    ensures x == y
  {
    TypedInjective(0, ACCOUNT_SCRIPT_HASH_TO_ID, x, 0, ACCOUNT_SCRIPT_HASH_TO_ID, y);
  }

  /** Contract storage, account fields, the script-hash index and the data index never overlap. */
  lemma KeyKindsDisjoint(i: U32, x: Bytes, j: U32, field: Byte, y: Bytes, z: Bytes)
    ensures AccountKey(i, x) != FieldKey(j, field) && AccountKey(i, x) != ScriptHashToIdKey(y)
    ensures FieldKey(j, field) != ScriptHashToIdKey(y)
    ensures DataHashKey(z) != AccountKey(i, x) && DataHashKey(z) != FieldKey(j, field)
    ensures DataHashKey(z) != ScriptHashToIdKey(y)
  {
    if ScriptHashToIdKey(y) == AccountKey(i, x) {
      TypedInjective(0, ACCOUNT_SCRIPT_HASH_TO_ID, y, i, ACCOUNT_KV, x);
    }
    if DataHashKey(z) == AccountKey(i, x) {
      TypedInjective(0, DATA_HASH_PREFIX, z, i, ACCOUNT_KV, x);
    }
    if DataHashKey(z) == ScriptHashToIdKey(y) {
      TypedInjective(0, DATA_HASH_PREFIX, z, 0, ACCOUNT_SCRIPT_HASH_TO_ID, y);
    }
  }

  lemma RegistryBytesInjective(a: RegAddr, b: RegAddr)
    requires |a.addr| <= U32_MAX && |b.addr| <= U32_MAX && RegistryBytes(a) == RegistryBytes(b)
    ensures a == b
  {
    SplitPair(LittleEndian(a.regId), LittleEndian(|a.addr|) + a.addr,
              LittleEndian(b.regId), LittleEndian(|b.addr|) + b.addr);
    LittleEndianInjective(a.regId, b.regId);
    SplitPair(LittleEndian(|a.addr|), a.addr, LittleEndian(|b.addr|), b.addr);
  }
}
