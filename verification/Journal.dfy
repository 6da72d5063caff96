/** The in-memory layer of the state database: dirty maps over a base state, and a journal that undoes
writes back to a snapshot. */
module Journal {
  import opened Wrappers

  type Key = nat
  type Value = nat
  type Code = nat
  type Log = nat

  /** What has been written and not yet finalised. */
  datatype Dirty = Dirty(
    state: map<Key, Value>,
    count: Option<nat>,
    scripts: map<Key, Code>,
    data: map<Key, Code>,
    logs: seq<Log>)

  datatype Entry =
    | UpdateRaw(key: Key, prev: Option<Value>)
    | SetAccountCount(prevCount: Option<nat>)
    | InsertScript(hash: Key, prevExist: bool)
    | InsertData(hash: Key, prevExist: bool)
    | AppendLog(index: nat)

  datatype Revision = Revision(id: nat, len: nat)

  /** The finalised state underneath; absent keys read as zero. */
  datatype Base = Base(state: map<Key, Value>, count: nat, scripts: map<Key, Code>, data: map<Key, Code>)

  function Restored<V>(m: map<Key, V>, key: Key, prev: Option<V>): map<Key, V> {
    if prev.Some? then m[key := prev.value] else m - {key}
  }

  /** Undo one entry; a log entry must be the last log. */
  function UndoOne(d: Dirty, e: Entry): Dirty {
    match e
    case UpdateRaw(key, prev) => d.(state := Restored(d.state, key, prev))
    case SetAccountCount(prev) => d.(count := prev)
    case InsertScript(hash, exist) => if exist then d else d.(scripts := d.scripts - {hash})
    case InsertData(hash, exist) => if exist then d else d.(data := d.data - {hash})
    case AppendLog(_) => if d.logs == [] then d else d.(logs := d.logs[..|d.logs| - 1])
  }

  /** Undo entries, the newest first. */
  function Undo(d: Dirty, es: seq<Entry>): Dirty
    decreases |es|
  {
    if es == [] then d else Undo(UndoOne(d, es[|es| - 1]), es[..|es| - 1])
  }

  /** The assertion made when a log entry is undone. */
  predicate UndoOk(d: Dirty, e: Entry) {
    e.AppendLog? ==> |d.logs| == e.index + 1
  }

  /** No assertion fails on the way back. */
  predicate UndoSafe(d: Dirty, es: seq<Entry>)
    decreases |es|
  {
    es == [] || (UndoOk(d, es[|es| - 1]) && UndoSafe(UndoOne(d, es[|es| - 1]), es[..|es| - 1]))
  }

  lemma {:induction false} UndoConcat(d: Dirty, a: seq<Entry>, b: seq<Entry>)
    ensures Undo(d, a + b) == Undo(Undo(d, b), a)
    ensures UndoSafe(d, a + b) ==> UndoSafe(d, b) && UndoSafe(Undo(d, b), a)
    decreases |b|
  {
    if b == [] {
      assert a + b == a;
    } else {
      assert (a + b)[..|a + b| - 1] == a + b[..|b| - 1];
      UndoConcat(UndoOne(d, b[|b| - 1]), a, b[..|b| - 1]);
    }
  }

  /** Undoing a map write gives back the map. */
  lemma WriteUndone<V>(m: map<Key, V>, key: Key, v: V)
    ensures Restored(m[key := v], key, if key in m then Some(m[key]) else None) == m
  {
  }

  /** The journal only notes whether code was there before.  Undoing an insertion gives back the map exactly
  when it put nothing different in place of what was there, which holds when the key is the code's hash. */
  lemma InsertUndoneExactly(d: Dirty, hash: Key, code: Code)
    ensures UndoOne(d.(scripts := d.scripts[hash := code]), InsertScript(hash, hash in d.scripts)) == d
      <==> (hash in d.scripts ==> d.scripts[hash] == code)
  {
    var w := d.scripts[hash := code];
    if hash in d.scripts && d.scripts[hash] != code {
      assert w[hash] != d.scripts[hash];
    } else if hash in d.scripts {
      assert w == d.scripts;
    } else {
      assert w - {hash} == d.scripts;
    }
  }

  /** Snapshots are ordered, and each one's journal length leads back to what was dirty when it was
  taken. */
  ghost predicate Consistent(d: Dirty, journal: seq<Entry>, revisions: seq<Revision>, nextId: nat, saved: seq<Dirty>) {
    && UndoSafe(d, journal)
    && |saved| == |revisions|
    && (forall i: nat | i < |revisions| :: revisions[i].id < nextId && revisions[i].len <= |journal|)
    && (forall i: nat, j: nat | i < j < |revisions| ::
          revisions[i].id < revisions[j].id && revisions[i].len <= revisions[j].len)
    && (forall i: nat | i < |revisions| :: Undo(d, journal[revisions[i].len..]) == saved[i])
  }

  /** A write that the new entry undoes keeps every snapshot reachable. */
  lemma PushKeeps(d: Dirty, e: Entry, d': Dirty, journal: seq<Entry>, revisions: seq<Revision>, nextId: nat,
                  saved: seq<Dirty>)
    requires Consistent(d, journal, revisions, nextId, saved) && UndoOne(d', e) == d && UndoOk(d', e)
    ensures Consistent(d', journal + [e], revisions, nextId, saved)
  {
    assert (journal + [e])[..|journal|] == journal;
    forall i: nat | i < |revisions|
      ensures Undo(d', (journal + [e])[revisions[i].len..]) == saved[i]
    {
      var tail := journal[revisions[i].len..];
      assert (journal + [e])[revisions[i].len..] == tail + [e];
      assert (tail + [e])[..|tail|] == tail;
    }
  }

  /** Undoing back to snapshot `k` keeps the earlier ones reachable. */
  lemma RevertKeeps(d: Dirty, journal: seq<Entry>, revisions: seq<Revision>, nextId: nat, saved: seq<Dirty>, k: nat)
    requires Consistent(d, journal, revisions, nextId, saved) && k < |revisions|
    ensures revisions[k].len <= |journal| && k < |saved|
    ensures Consistent(saved[k], journal[..revisions[k].len], revisions[..k], nextId, saved[..k])
    ensures UndoSafe(d, journal[revisions[k].len..]) && Undo(d, journal[revisions[k].len..]) == saved[k]
  {
    var n := revisions[k].len;
    assert journal == journal[..n] + journal[n..];
    UndoConcat(d, journal[..n], journal[n..]);
    forall i: nat | i < k
      ensures Undo(saved[k], journal[..n][revisions[i].len..]) == saved[i]
    {
      var m := revisions[i].len;
      assert journal[m..] == journal[..n][m..] + journal[n..];
      UndoConcat(d, journal[..n][m..], journal[n..]);
    }
  }

  /** Write a dirty map over a finalised one, key by key in any order. */
  method WriteAll(base: map<Key, nat>, dirty: map<Key, nat>) returns (r: map<Key, nat>)
    ensures r == base + dirty
  {
    var todo := dirty.Keys;
    r := base;
    while todo != {}
      invariant todo <= dirty.Keys
      invariant r == base + (dirty - todo)
      decreases todo
    {
      var k :| k in todo;
      r := r[k := dirty[k]];
      todo := todo - {k};
    }
    assert dirty - {} == dirty;
  }

  lemma RevisionsFit(d: Dirty, journal: seq<Entry>, revisions: seq<Revision>, nextId: nat, saved: seq<Dirty>)
    requires Consistent(d, journal, revisions, nextId, saved)
    ensures |saved| == |revisions|
    ensures forall i: nat | i < |revisions| :: revisions[i].len <= |journal|
  {
  }

  /** Undo entry by entry from the end; no assertion on the way fails. */
  method Replay(d: Dirty, entries: seq<Entry>) returns (r: Dirty)
    requires UndoSafe(d, entries)
    ensures r == Undo(d, entries)
  {
    r := d;
    assert entries[..|entries|] == entries;
    for i := |entries| downto 0
      invariant Undo(r, entries[..i]) == Undo(d, entries)
      invariant UndoSafe(r, entries[..i])
    {
      assert entries[..i + 1][..i] == entries[..i];
      assert UndoOk(r, entries[i]);
      r := UndoOne(r, entries[i]);
    }
  }

  class StateDb {
    var base: Base
    var dirty: Dirty
    var journal: seq<Entry>
    var revisions: seq<Revision>
    var nextId: nat
    ghost var saved: seq<Dirty>

    ghost predicate Valid()
      reads this
    {
      Consistent(dirty, journal, revisions, nextId, saved)
    }

    constructor (base: Base)
      ensures Valid() && this.base == base && dirty == Dirty(map[], None, map[], map[], [])
    {
      this.base, dirty := base, Dirty(map[], None, map[], map[], []);
      journal, revisions, nextId, saved := [], [], 0, [];
    }

    function GetRaw(key: Key): Value
      reads this
    {
      if key in dirty.state then dirty.state[key] else if key in base.state then base.state[key] else 0
    }

    function GetAccountCount(): nat
      reads this
    {
      if dirty.count.Some? then dirty.count.value else base.count
    }

    function GetScript(hash: Key): Option<Code>
      reads this
    {
      if hash in dirty.scripts then Some(dirty.scripts[hash])
      else if hash in base.scripts then Some(base.scripts[hash]) else None
    }

    function GetData(hash: Key): Option<Code>
      reads this
    {
      if hash in dirty.data then Some(dirty.data[hash])
      else if hash in base.data then Some(base.data[hash]) else None
    }

    method UpdateRaw(key: Key, value: Value)
      requires Valid()
      modifies this`journal, this`dirty
      ensures Valid() && dirty == old(dirty).(state := old(dirty).state[key := value])
      ensures GetRaw(key) == value && forall k: Key | k != key :: GetRaw(k) == old(GetRaw(k))
    {
      hide Consistent;
      var e := Entry.UpdateRaw(key, if key in dirty.state then Some(dirty.state[key]) else None);
      WriteUndone(dirty.state, key, value);
      PushKeeps(dirty, e, dirty.(state := dirty.state[key := value]), journal, revisions, nextId, saved);
      journal := journal + [e];
      dirty := dirty.(state := dirty.state[key := value]);
    }

    method SetAccountCount(count: nat)
      requires Valid()
      modifies this`journal, this`dirty
      ensures Valid() && dirty == old(dirty).(count := Some(count)) && GetAccountCount() == count
    {
      hide Consistent;
      var e := Entry.SetAccountCount(dirty.count);
      PushKeeps(dirty, e, dirty.(count := Some(count)), journal, revisions, nextId, saved);
      journal := journal + [e];
      dirty := dirty.(count := Some(count));
    }

    /** The code under a hash is always the same, so inserting it again changes nothing and every snapshot
    stays reachable. */
    method InsertScript(hash: Key, script: Code)
      requires Valid()
      modifies this`journal, this`dirty
      ensures dirty == old(dirty).(scripts := old(dirty).scripts[hash := script])
      ensures GetScript(hash) == Some(script) && forall h: Key | h != hash :: GetScript(h) == old(GetScript(h))
      ensures (hash in old(dirty).scripts ==> old(dirty).scripts[hash] == script) ==> Valid()
    {
      hide Consistent;
      var e := Entry.InsertScript(hash, hash in dirty.scripts);
      InsertUndoneExactly(dirty, hash, script);
      if hash in dirty.scripts ==> dirty.scripts[hash] == script {
        PushKeeps(dirty, e, dirty.(scripts := dirty.scripts[hash := script]), journal, revisions, nextId, saved);
      }
      journal := journal + [e];
      dirty := dirty.(scripts := dirty.scripts[hash := script]);
    }

    method InsertData(hash: Key, code: Code)
      requires Valid()
      modifies this`journal, this`dirty
      ensures dirty == old(dirty).(data := old(dirty).data[hash := code])
      ensures GetData(hash) == Some(code) && forall h: Key | h != hash :: GetData(h) == old(GetData(h))
      ensures (hash in old(dirty).data ==> old(dirty).data[hash] == code) ==> Valid()
    {
      hide Consistent;
      var e := Entry.InsertData(hash, hash in dirty.data);
      if hash in dirty.data ==> dirty.data[hash] == code {
        assert hash in dirty.data ==> dirty.data[hash := code] == dirty.data;
        assert hash !in dirty.data ==> dirty.data[hash := code] - {hash} == dirty.data;
        PushKeeps(dirty, e, dirty.(data := dirty.data[hash := code]), journal, revisions, nextId, saved);
      }
      journal := journal + [e];
      dirty := dirty.(data := dirty.data[hash := code]);
    }

    method AppendLog(log: Log)
      requires Valid()
      modifies this`journal, this`dirty
      ensures Valid() && dirty == old(dirty).(logs := old(dirty).logs + [log])
    {
      hide Consistent;
      var e := Entry.AppendLog(|dirty.logs|);
      assert (dirty.logs + [log])[..|dirty.logs|] == dirty.logs;
      PushKeeps(dirty, e, dirty.(logs := dirty.logs + [log]), journal, revisions, nextId, saved);
      journal := journal + [e];
      dirty := dirty.(logs := dirty.logs + [log]);
    }

    method Snapshot() returns (id: nat)
      requires Valid()
      modifies this`revisions, this`nextId, this`saved
      ensures Valid() && id == old(nextId)
      ensures revisions == old(revisions) + [Revision(id, |journal|)] && saved == old(saved) + [dirty]
    {
      id := nextId;
      assert journal[|journal|..] == [];
      nextId := nextId + 1;
      revisions := revisions + [Revision(id, |journal|)];
      saved := saved + [dirty];
    }

    /** Binary search by id. */
    method FindRevision(id: nat) returns (r: Option<nat>)
      requires Valid()
      ensures r.Some? ==> r.value < |revisions| && revisions[r.value].id == id
      ensures r.None? ==> forall i: nat | i < |revisions| :: revisions[i].id != id
    {
      var lo, hi := 0, |revisions|;
      while lo < hi
        invariant lo <= hi <= |revisions|
        invariant forall i: nat | i < lo :: revisions[i].id < id
        invariant forall i: nat | hi <= i < |revisions| :: revisions[i].id > id
      {
        var mid := (lo + hi) / 2;
        if revisions[mid].id == id {
          return Some(mid);
        } else if revisions[mid].id < id {
          lo := mid + 1;
        } else {
          hi := mid;
        }
      }
      return None;
    }

    /** Back to a snapshot: exactly what was dirty then, whatever writes, snapshots and reverts came
    since; that snapshot and later ones are gone. */
    method Revert(id: nat) returns (ok: bool)
      requires Valid()
      modifies this`dirty, this`journal, this`revisions, this`saved
      ensures ok <==> exists k: nat :: k < |old(revisions)| && old(revisions)[k].id == id
      ensures ok ==> Valid() && exists k: nat ::
        k < |old(revisions)| && old(revisions)[k].id == id
        && dirty == old(saved)[k] && revisions == old(revisions)[..k] && saved == old(saved)[..k]
      ensures !ok ==> unchanged(this)
    {
      hide Consistent, Undo, UndoSafe;
      RevisionsFit(dirty, journal, revisions, nextId, saved);
      var found := FindRevision(id);
      if found.None? {
        return false;
      }
      var k := found.value;
      var len := revisions[k].len;
      RevertKeeps(dirty, journal, revisions, nextId, saved, k);
      var d := Replay(dirty, journal[len..]);
      dirty := d;
      journal := journal[..len];
      revisions := revisions[..k];
      saved := saved[..k];
      return true;
    }

    /** Write everything down; the order of the keys does not matter, and every read stays the same. */
    method Finalise()
      requires Valid()
      modifies this
      ensures Valid() && dirty == Dirty(map[], None, map[], map[], []) && journal == [] && revisions == []
      ensures forall k: Key :: GetRaw(k) == old(GetRaw(k)) && GetScript(k) == old(GetScript(k))
      ensures forall k: Key :: GetData(k) == old(GetData(k))
      ensures GetAccountCount() == old(GetAccountCount())
    {
      hide Consistent;
      if dirty.count.Some? {
        base := base.(count := dirty.count.value);
      }
      var state := WriteAll(base.state, dirty.state);
      var scripts := WriteAll(base.scripts, dirty.scripts);
      var data := WriteAll(base.data, dirty.data);
      base := base.(state := state, scripts := scripts, data := data);
      dirty := Dirty(map[], None, map[], map[], []);
      journal, revisions, saved := [], [], [];
      NothingSaved(dirty, nextId);
    }
  }

  lemma NothingSaved(d: Dirty, nextId: nat)
    ensures Consistent(d, [], [], nextId, [])
  {
  }
}
