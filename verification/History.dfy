/** The persisted account state: the current tree, and per block the values it wrote, so that a block's
state can be read later and the last block's state detached. */
module History {
  import opened Wrappers

  /** Big-endian keys compare like numbers. */
  type Key = nat
  type Value = nat

  /** `records[(n, k)]` is what block `n` last wrote under `k`; `reverse` lists the same pairs by key. */
  datatype Db = Db(tree: map<Key, Value>, records: map<(nat, Key), Value>, reverse: set<(Key, nat)>)

  /** A key that is absent or zero is not in the tree. */
  function Read(tree: map<Key, Value>, key: Key): Value {
    if key in tree then tree[key] else 0
  }

  /** The value a key had when block `n` was the last one. */
  function AtBlock(records: map<(nat, Key), Value>, n: nat, key: Key): Value {
    if (n, key) in records then records[(n, key)] else if n == 0 then 0 else AtBlock(records, n - 1, key)
  }

  ghost predicate Indexed(db: Db) {
    forall n: nat, k: Key :: (n, k) in db.records <==> (k, n) in db.reverse
  }

  /** The tree is the state at block `tip`, and no record is newer. */
  ghost predicate Inv(db: Db, tip: nat) {
    && Indexed(db)
    && (forall p | p in db.records :: p.0 <= tip)
    && (forall k: Key :: Read(db.tree, k) == AtBlock(db.records, tip, k))
  }

  // ---------- Reading ----------

  predicate NotAfter(p: (Key, nat), q: (Key, nat)) {
    p.0 < q.0 || (p.0 == q.0 && p.1 <= q.1)
  }

  /** The iterator's seek: the last pair not after the target. */
  method SeekForPrev(reverse: set<(Key, nat)>, target: (Key, nat)) returns (r: Option<(Key, nat)>)
    ensures r.Some? ==> r.value in reverse && NotAfter(r.value, target)
    ensures r.Some? ==> forall p | p in reverse && NotAfter(p, target) :: NotAfter(p, r.value)
    ensures r.None? ==> forall p | p in reverse :: !NotAfter(p, target)
  {
    var todo := reverse;
    r := None;
    while todo != {}
      invariant todo <= reverse
      invariant r.Some? ==> r.value in reverse && NotAfter(r.value, target)
      invariant r.Some? ==> forall p | p in reverse - todo && NotAfter(p, target) :: NotAfter(p, r.value)
      invariant r.None? ==> forall p | p in reverse - todo :: !NotAfter(p, target)
      decreases todo
    {
      var p :| p in todo;
      if NotAfter(p, target) && (r.None? || NotAfter(r.value, p)) {
        r := Some(p);
      }
      todo := todo - {p};
    }
  }

  /** No record of the key in a range of blocks: the value there is the one before. */
  lemma {:induction false} SameAcross(records: map<(nat, Key), Value>, m: nat, n: nat, key: Key)
    requires m <= n && forall i: nat | m < i <= n :: (i, key) !in records
    ensures AtBlock(records, n, key) == AtBlock(records, m, key)
    decreases n - m
  {
    if m < n {
      SameAcross(records, m, n - 1, key);
    }
  }

  lemma {:induction false} NeverWritten(records: map<(nat, Key), Value>, n: nat, key: Key)
    requires forall i: nat | i <= n :: (i, key) !in records
    ensures AtBlock(records, n, key) == 0
  {
    if n > 0 {
      NeverWritten(records, n - 1, key);
    }
  }

  /** One seek finds the value a key had at any earlier block. */
  method GetHistoryState(db: Db, n: nat, key: Key) returns (r: Option<Value>)
    requires Indexed(db)
    ensures (if r.Some? then r.value else 0) == AtBlock(db.records, n, key)
  {
    var prev := SeekForPrev(db.reverse, (key, n));
    if prev.None? || prev.value.0 != key {
      forall i: nat | i <= n
        ensures (i, key) !in db.records
      {
        if (i, key) in db.records {
          assert (key, i) in db.reverse && NotAfter((key, i), (key, n));
        }
      }
      NeverWritten(db.records, n, key);
      return None;
    }
    var m := prev.value.1;
    forall i: nat | m < i <= n
      ensures (i, key) !in db.records
    {
      if (i, key) in db.records {
        assert (key, i) in db.reverse && NotAfter((key, i), (key, n));
      }
    }
    SameAcross(db.records, m, n, key);
    assert (m, key) in db.records;
    return Some(db.records[(m, key)]);
  }

  // ---------- Writing ----------

  /** A write while block `n` is being attached. */
  function Write(db: Db, n: nat, key: Key, value: Value): Db {
    Db(db.tree[key := value], db.records[(n, key) := value], db.reverse + {(key, n)})
  }

  lemma {:induction false} OlderUntouched(records: map<(nat, Key), Value>, m: nat, n: nat, key: Key, value: Value,
                                          k: Key)
    requires m < n
    ensures AtBlock(records[(n, key) := value], m, k) == AtBlock(records, m, k)
    decreases m
  {
    if m > 0 {
      OlderUntouched(records, m - 1, n, key, value, k);
    }
  }

  /** A write of the next block, or again of the last one, keeps the tree at that block and leaves every
  older block's state as it was. */
  lemma WriteKeeps(db: Db, tip: nat, n: nat, key: Key, value: Value)
    requires Inv(db, tip) && tip <= n <= tip + 1
    ensures Inv(Write(db, n, key, value), n)
    ensures forall m: nat, k: Key | m < n ::
      AtBlock(Write(db, n, key, value).records, m, k) == AtBlock(db.records, m, k)
  {
    var after := Write(db, n, key, value);
    forall m: nat, k: Key | m < n
      ensures AtBlock(after.records, m, k) == AtBlock(db.records, m, k)
    {
      OlderUntouched(db.records, m, n, key, value, k);
    }
    forall k: Key
      ensures Read(after.tree, k) == AtBlock(after.records, n, k)
    {
      if k != key {
        assert (n, k) in after.records <==> (n, k) in db.records;
        assert Read(db.tree, k) == AtBlock(db.records, tip, k);
        if n > 0 {
          OlderUntouched(db.records, n - 1, n, key, value, k);
        }
      }
    }
  }

  /** A block that writes nothing. */
  lemma NextBlockKeeps(db: Db, tip: nat)
    requires Inv(db, tip)
    ensures Inv(db, tip + 1)
  {
    forall k: Key
      ensures Read(db.tree, k) == AtBlock(db.records, tip + 1, k)
    {
      assert (tip + 1, k) !in db.records;
    }
  }

  /** Attach the next block with its writes, in order: the last write of a key wins. */
  method AttachBlock(db: Db, tip: nat, writes: seq<(Key, Value)>) returns (r: Db)
    requires Inv(db, tip)
    ensures Inv(r, tip + 1)
    ensures forall m: nat, k: Key | m <= tip :: AtBlock(r.records, m, k) == AtBlock(db.records, m, k)
    ensures forall k: Key :: Read(r.tree, k) == Written(db.tree, writes, k)
  {
    r := db;
    NextBlockKeeps(db, tip);
    for i := 0 to |writes|
      invariant Inv(r, tip + 1)
      invariant forall m: nat, k: Key | m <= tip :: AtBlock(r.records, m, k) == AtBlock(db.records, m, k)
      invariant forall k: Key :: Read(r.tree, k) == Written(db.tree, writes[..i], k)
    {
      var (key, value) := writes[i];
      assert writes[..i + 1][..i] == writes[..i];
      WriteKeeps(r, tip + 1, tip + 1, key, value);
      r := Write(r, tip + 1, key, value);
    }
    assert writes[..|writes|] == writes;
  }

  /** What a key reads after a list of writes. */
  function Written(tree: map<Key, Value>, writes: seq<(Key, Value)>, key: Key): Value {
    if writes == [] then Read(tree, key)
    else if writes[|writes| - 1].0 == key then writes[|writes| - 1].1
    else Written(tree, writes[..|writes| - 1], key)
  }

  /** The last write of a key counts, and a key that is not written keeps its value. */
  lemma {:induction false} LastWriteCounts(tree: map<Key, Value>, writes: seq<(Key, Value)>, key: Key)
    ensures forall i: nat | i < |writes| && writes[i].0 == key ::
      (forall j: nat | i < j < |writes| :: writes[j].0 != key) ==> Written(tree, writes, key) == writes[i].1
    ensures (forall i: nat | i < |writes| :: writes[i].0 != key) ==> Written(tree, writes, key) == Read(tree, key)
    decreases |writes|
  {
    if writes != [] {
      LastWriteCounts(tree, writes[..|writes| - 1], key);
    }
  }

  // ---------- Detaching ----------

  function KeysOf(records: map<(nat, Key), Value>, n: nat): set<Key> {
    set p | p in records && p.0 == n :: p.1
  }

  lemma KeyListed(records: map<(nat, Key), Value>, n: nat, key: Key)
    ensures (n, key) in records <==> key in KeysOf(records, n)
  {
    if (n, key) in records {
      var p := (n, key);
      assert p in records && p.0 == n && p.1 == key;
    }
  }

  function Without(records: map<(nat, Key), Value>, n: nat): map<(nat, Key), Value> {
    map p | p in records && p.0 != n :: records[p]
  }

  lemma {:induction false} WithoutNewer(records: map<(nat, Key), Value>, m: nat, n: nat, key: Key)
    requires m < n
    ensures AtBlock(Without(records, n), m, key) == AtBlock(records, m, key)
    decreases m
  {
    if m > 0 {
      WithoutNewer(records, m - 1, n, key);
    }
  }

  /** Reset every key block `n` wrote to its value at the block before, then drop the block's records.
  For block zero "the block before" is block zero itself. */
  method DetachBlockState(db: Db, n: nat) returns (r: Db)
    requires Inv(db, n)
    ensures r.records == Without(db.records, n) && Indexed(r)
    ensures forall k: Key :: Read(r.tree, k) == AtBlock(db.records, if n == 0 then 0 else n - 1, k)
  {
    var parent := if n == 0 then 0 else n - 1;
    var keys := KeysOf(db.records, n);
    var reverted: map<Key, Value> := map[];
    var todo := keys;
    while todo != {}
      invariant todo <= keys && reverted.Keys == keys - todo
      invariant forall k | k in reverted :: reverted[k] == AtBlock(db.records, parent, k)
      decreases todo
    {
      var k :| k in todo;
      var last := GetHistoryState(db, parent, k);
      reverted := reverted[k := if last.Some? then last.value else 0];
      todo := todo - {k};
    }
    var tree := db.tree + reverted;
    r := Db(tree, Without(db.records, n), db.reverse - (set k | k in keys :: (k, n)));
    forall k: Key
      ensures Read(tree, k) == AtBlock(db.records, parent, k)
    {
      if k in keys {
        assert k in reverted;
      } else {
        assert (n, k) !in db.records by {
          KeyListed(db.records, n, k);
        }
        assert Read(tree, k) == Read(db.tree, k) == AtBlock(db.records, n, k);
      }
    }
    assert Indexed(r);
  }

  /** Detaching block `n` brings back the state of block `n - 1`, and no older state changes. */
  lemma DetachExact(db: Db, n: nat, r: Db)
    requires Inv(db, n) && n > 0
    requires r.records == Without(db.records, n) && Indexed(r)
    requires forall k: Key :: Read(r.tree, k) == AtBlock(db.records, n - 1, k)
    ensures Inv(r, n - 1)
    ensures forall m: nat, k: Key | m < n :: AtBlock(r.records, m, k) == AtBlock(db.records, m, k)
  {
    forall m: nat, k: Key | m < n
      ensures AtBlock(r.records, m, k) == AtBlock(db.records, m, k)
    {
      WithoutNewer(db.records, m, n, k);
    }
  }

  /** Why detaching stops at block one: detaching block zero would leave its values in the tree, so the
  state before it would come back exactly when the block wrote nothing but zeros. */
  lemma DetachGenesisExactly(db: Db, r: Db)
    requires Inv(db, 0) && forall k: Key :: Read(r.tree, k) == AtBlock(db.records, 0, k)
    ensures (forall k: Key :: Read(r.tree, k) == 0) <==> (forall p | p in db.records :: db.records[p] == 0)
  {
    if forall k: Key :: Read(r.tree, k) == 0 {
      forall p | p in db.records
        ensures db.records[p] == 0
      {
        assert p == (0, p.1);
        assert Read(r.tree, p.1) == 0;
      }
    }
  }

  /** Detaching one block after the other down to block `m`: the tree is the one held when `m` was the
  last block. */
  method DetachTo(db: Db, tip: nat, m: nat) returns (r: Db)
    requires Inv(db, tip) && m <= tip
    ensures Inv(r, m)
    ensures forall k: Key :: Read(r.tree, k) == AtBlock(db.records, m, k)
  {
    r := db;
    var n := tip;
    while n > m
      invariant m <= n && Inv(r, n)
      invariant forall i: nat, k: Key | i <= n :: AtBlock(r.records, i, k) == AtBlock(db.records, i, k)
    {
      var next := DetachBlockState(r, n);
      DetachExact(r, n, next);
      r, n := next, n - 1;
    }
  }

  /** Attaching any block and detaching it again changes no key. */
  method AttachAndDetach(db: Db, tip: nat, writes: seq<(Key, Value)>) returns (r: Db)
    requires Inv(db, tip)
    ensures Inv(r, tip)
    ensures forall k: Key :: Read(r.tree, k) == Read(db.tree, k)
  {
    var attached := AttachBlock(db, tip, writes);
    r := DetachBlockState(attached, tip + 1);
    DetachExact(attached, tip + 1, r);
  }
}
