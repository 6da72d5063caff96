/** Syncing with L1: find the last block L1 still knows, walk the submit transactions after it, confirm
what is already stored and replace what is not. */
module SyncL1 {
  import opened RollupTypes
  import opened Wrappers

  /** An L1 transaction that submits a block. */
  datatype Tx = Tx(id: nat, block: Block)

  /** The valid chain, the stored submit transaction of each block, and the two pointers into it. */
  datatype Store = Store(chain: seq<Block>, txs: map<nat, Tx>, submitted: NumberHash, confirmed: NumberHash)

  /** Every stored transaction submits the block it is filed under. */
  ghost predicate Filed(chain: seq<Block>, txs: map<nat, Tx>) {
    forall n | n in txs :: n < |chain| && txs[n].block == chain[n]
  }

  ghost predicate Inv(st: Store) {
    && st.chain != []
    && Linked(st.chain)
    && OnChain(st.chain, st.confirmed) && OnChain(st.chain, st.submitted)
    && st.confirmed.number <= st.submitted.number
    && (forall n: nat | n <= st.submitted.number :: n in st.txs)
    && Filed(st.chain, st.txs)
  }

  // ---------- Reverting ----------

  /** Detach the last block; a pointer moves to the parent only when it is at that very block. */
  function Detach(st: Store): Store
    requires |st.chain| > 1
  {
    var n := |st.chain| - 1;
    Store(st.chain[..n], st.txs - {n},
          if st.submitted.number == n then At(st.chain, n - 1) else st.submitted,
          if st.confirmed.number == n then At(st.chain, n - 1) else st.confirmed)
  }

  function Below(txs: map<nat, Tx>, n: nat): map<nat, Tx> {
    map k | k in txs && k <= n :: txs[k]
  }

  /** The store cut back to block `n`. */
  function Truncated(st: Store, n: nat): Store {
    if |st.chain| <= n + 1 then st
    else Store(st.chain[..n + 1], Below(st.txs, n), Lowered(st.chain, st.submitted, n),
               Lowered(st.chain, st.confirmed, n))
  }

  lemma TruncatedKeeps(st: Store, n: nat)
    requires Inv(st)
    ensures Inv(Truncated(st, n))
  {
    if |st.chain| > n + 1 {
      LinkedPrefix(st.chain, n + 1);
    }
  }

  lemma DetachKeeps(st: Store)
    requires Inv(st) && |st.chain| > 1
    ensures Inv(Detach(st))
  {
    hide Linked;
    LinkedPrefix(st.chain, |st.chain| - 1);
  }

  /** Detaching once does not change what the cut leaves. */
  lemma DetachTruncates(st: Store, n: nat)
    requires Inv(st) && |st.chain| > n + 1
    ensures Truncated(Detach(st), n) == Truncated(st, n)
  {
    hide Linked;
    var m := |st.chain| - 1;
    assert st.chain[..m][..n + 1] == st.chain[..n + 1];
    assert Below(st.txs - {m}, n) == Below(st.txs, n);
    if m == n + 1 {
      assert st.txs - {m} == Below(st.txs, n);
    }
  }

  /** The revert loop: it cuts the chain, the stored transactions and both pointers. */
  method Revert(st: Store, n: nat) returns (r: Store)
    requires Inv(st)
    ensures r == Truncated(st, n) && Inv(r)
  {
    hide Linked, Filed;
    r := st;
    while |r.chain| > n + 1
      invariant Inv(r) && Truncated(r, n) == Truncated(st, n)
      decreases |r.chain|
    {
      DetachKeeps(r);
      DetachTruncates(r, n);
      r := Detach(r);
    }
  }

  // ---------- Finding the anchor ----------

  /** The last confirmed block whose transaction L1 still has. */
  method FindAnchor(st: Store, committed: set<Tx>) returns (r: Option<nat>)
    requires Inv(st)
    ensures r.None? <==> st.confirmed.number == 0 && st.txs[0] !in committed
    ensures r.Some? ==>
      && r.value <= st.confirmed.number
      && (r.value == 0 || st.txs[r.value] in committed)
      && forall n: nat | r.value < n <= st.confirmed.number :: st.txs[n] !in committed
  {
    var n: nat := st.confirmed.number;
    while true
      invariant n <= st.confirmed.number && (n == 0 ==> st.confirmed.number == 0)
      invariant forall k: nat | n < k <= st.confirmed.number :: st.txs[k] !in committed
      decreases n
    {
      if st.txs[n] in committed {
        return Some(n);
      }
      // The counter is unsigned.
      if n == 0 {
        return None;
      }
      n := n - 1;
      if n == 0 {
        return Some(0);
      }
    }
  }

  // ---------- Walking the transactions ----------

  /** Take in a submit transaction; a block that does not follow the tip is a fork, and one that follows
  it under another number trips an assertion. */
  function Update(st: Store, tx: Tx): Option<Store>
    requires st.chain != []
  {
    var n := |st.chain|;
    if tx.block.parent == Last(st.chain).Hash() && tx.block.number == n
    then
      var nh := NumberHash(n, tx.block.Hash());
      Some(Store(st.chain + [tx.block], st.txs[n := tx], nh, nh))
    else None
  }

  lemma UpdateKeeps(st: Store, tx: Tx)
    requires st.chain != [] && Linked(st.chain) && Filed(st.chain, st.txs)
    requires (forall n: nat | n < |st.chain| :: n in st.txs) && Update(st, tx).Some?
    ensures Inv(Update(st, tx).value)
  {
    hide Linked;
    LinkedAppend(st.chain, tx.block);
  }

  function Blocks(txs: seq<Tx>): seq<Block> {
    seq(|txs|, i requires 0 <= i < |txs| => txs[i].block)
  }

  /** The transactions are the stored ones of the blocks after `anchor`. */
  ghost predicate StoredFrom(txs: map<nat, Tx>, anchor: nat, list: seq<Tx>) {
    forall n: nat | anchor < n <= anchor + |list| :: n in txs && txs[n] == list[n - anchor - 1]
  }

  /** A list of submit transactions L1 can hold after a chain: its blocks continue it. */
  ghost predicate ValidList(chain: seq<Block>, list: seq<Tx>) {
    Linked(chain + Blocks(list))
  }

  /** Where the walk stands after `done`: everything confirmed so far was stored already, or the store was
  cut and rebuilt. */
  ghost predicate Progress(base: Store, anchor: nat, done: seq<Tx>, st: Store, last: nat, reverted: bool) {
    && anchor < |base.chain|
    && if !reverted then
         st == base && last == anchor + |done| && StoredFrom(base.txs, anchor, done)
       else
         && Inv(st)
         && st.submitted == st.confirmed && st.confirmed.number == |st.chain| - 1 == anchor + |done|
         && st.chain == base.chain[..anchor + 1] + Blocks(done)
         && StoredFrom(st.txs, anchor, done)
         && !StoredFrom(base.txs, anchor, done)
  }

  lemma BlocksAppend(done: seq<Tx>, tx: Tx)
    ensures Blocks(done + [tx]) == Blocks(done) + [tx.block]
  {
  }

  /** Stored transactions name the blocks of the chain. */
  lemma StoredBlocks(st: Store, anchor: nat, done: seq<Tx>)
    requires Inv(st) && anchor < |st.chain| && StoredFrom(st.txs, anchor, done)
    ensures anchor + |done| < |st.chain|
    ensures st.chain[..anchor + |done| + 1] == st.chain[..anchor + 1] + Blocks(done)
  {
    hide Linked;
    assert done != [] ==> anchor + |done| in st.txs;
    forall i: nat | i < |done|
      ensures st.chain[anchor + 1 + i] == done[i].block
    {
      assert anchor + 1 + i in st.txs;
    }
  }

  lemma ConfirmNext(base: Store, anchor: nat, done: seq<Tx>, tx: Tx)
    requires StoredFrom(base.txs, anchor, done)
    ensures StoredFrom(base.txs, anchor, done + [tx]) <==>
      anchor + |done| + 1 in base.txs && base.txs[anchor + |done| + 1] == tx
  {
    if StoredFrom(base.txs, anchor, done + [tx]) {
      assert anchor + |done| + 1 in base.txs;
    }
  }

  lemma StoredAppend(txs: map<nat, Tx>, anchor: nat, done: seq<Tx>, tx: Tx)
    requires StoredFrom(txs, anchor, done)
    ensures StoredFrom(txs[anchor + |done| + 1 := tx], anchor, done + [tx])
  {
  }

  lemma StoredShrinks(txs: map<nat, Tx>, anchor: nat, done: seq<Tx>, tx: Tx)
    requires StoredFrom(txs, anchor, done + [tx])
    ensures StoredFrom(txs, anchor, done)
  {
  }

  /** The store right before a transaction is taken in. */
  ghost predicate Ready(base: Store, anchor: nat, done: seq<Tx>, st: Store) {
    && anchor < |base.chain|
    && st.chain == base.chain[..anchor + 1] + Blocks(done)
    && Linked(st.chain) && Filed(st.chain, st.txs)
    && (forall n: nat | n < |st.chain| :: n in st.txs)
    && StoredFrom(st.txs, anchor, done)
  }

  lemma ReadyAfterCut(base: Store, anchor: nat, done: seq<Tx>)
    requires Inv(base) && anchor <= base.submitted.number && StoredFrom(base.txs, anchor, done)
    ensures Ready(base, anchor, done, Truncated(base, anchor + |done|))
  {
    hide Linked, StoredFrom, Filed, Truncated;
    var n := anchor + |done|;
    StoredBlocks(base, anchor, done);
    TruncatedKeeps(base, n);
    CutKeepsStored(base, anchor, done);
  }

  lemma CutKeepsStored(base: Store, anchor: nat, done: seq<Tx>)
    requires Inv(base) && anchor <= base.submitted.number && StoredFrom(base.txs, anchor, done)
    requires anchor + |done| < |base.chain|
    ensures var st := Truncated(base, anchor + |done|);
      && st.chain == base.chain[..anchor + |done| + 1]
      && StoredFrom(st.txs, anchor, done)
      && forall n: nat | n < |st.chain| :: n in st.txs
  {
    hide Linked, Filed;
    assert base.chain[..|base.chain|] == base.chain;
  }

  /** Taking in the next transaction: it succeeds exactly when the block follows. */
  lemma TakeNext(base: Store, anchor: nat, done: seq<Tx>, st: Store, tx: Tx)
    requires Ready(base, anchor, done, st) && !StoredFrom(base.txs, anchor, done + [tx])
    ensures Update(st, tx).Some? <==> Linked(st.chain + [tx.block])
    ensures Update(st, tx).Some? ==> Progress(base, anchor, done + [tx], Update(st, tx).value, anchor + |done|, true)
  {
    hide Filed, StoredFrom;
    FollowsExactly(st.chain, tx.block);
    if Update(st, tx).Some? {
      UpdateKeeps(st, tx);
      BlocksAppend(done, tx);
      StoredAppend(st.txs, anchor, done, tx);
    }
  }

  lemma FollowsExactly(chain: seq<Block>, b: Block)
    requires Linked(chain) && chain != []
    ensures Linked(chain + [b]) <==> b.parent == Last(chain).Hash() && b.number == |chain|
  {
    var all := chain + [b];
    assert all[|chain|] == b && all[|chain| - 1] == Last(chain);
    if b.parent == Last(chain).Hash() && b.number == |chain| {
      LinkedAppend(chain, b);
    }
  }

  /** A transaction that does not follow makes the whole list invalid. */
  lemma NotValid(chain: seq<Block>, list: seq<Tx>, i: nat)
    requires i < |list| && !Linked(chain + Blocks(list[..i]) + [list[i].block])
    ensures !ValidList(chain, list)
  {
    hide Linked;
    var all := chain + Blocks(list);
    assert all[..|chain| + i + 1] == chain + Blocks(list[..i]) + [list[i].block];
    if Linked(all) {
      LinkedPrefix(all, |chain| + i + 1);
    }
  }

  /** The walk over the transactions after the anchor. */
  method WalkList(base: Store, anchor: nat, list: seq<Tx>) returns (r: Option<Store>)
    requires Inv(base) && anchor <= base.submitted.number
    ensures r.Some? <==> ValidList(base.chain[..anchor + 1], list)
    ensures r.Some? ==>
      && Inv(r.value)
      && r.value.submitted == r.value.confirmed && r.value.confirmed.number == anchor + |list|
      && r.value.chain[..anchor + |list| + 1] == base.chain[..anchor + 1] + Blocks(list)
      && StoredFrom(r.value.txs, anchor, list)
    ensures r.Some? && StoredFrom(base.txs, anchor, list) ==> r.value.chain == base.chain && r.value.txs == base.txs
    ensures r.Some? && !StoredFrom(base.txs, anchor, list) ==> |r.value.chain| == anchor + |list| + 1
  {
    hide Inv, Linked, Filed, StoredFrom, ValidList, Truncated;
    BaseFacts(base, anchor);
    var st, reverted := base, false;
    var last: nat := anchor;
    for i := 0 to |list|
      invariant Progress(base, anchor, list[..i], st, last, reverted)
    {
      var tx := list[i];
      ghost var done := list[..i];
      assert list[..i + 1] == done + [tx];
      if !reverted {
        ConfirmNext(base, anchor, done, tx);
        if last + 1 in st.txs && st.txs[last + 1] == tx {
          last := last + 1;
          continue;
        }
        ReadyAfterCut(base, anchor, done);
        st := Revert(st, last);
        reverted := true;
      } else {
        RebuiltIsReady(base, anchor, done, st);
        if StoredFrom(base.txs, anchor, done + [tx]) {
          StoredShrinks(base.txs, anchor, done, tx);
        }
      }
      TakeNext(base, anchor, done, st, tx);
      var next := Update(st, tx);
      if next.None? {
        NotValid(base.chain[..anchor + 1], list, i);
        return None;
      }
      st := next.value;
    }
    assert list[..|list|] == list;
    if !reverted {
      WalkedStored(base, anchor, list);
      var hash := st.chain[last].Hash();
      return Some(st.(submitted := NumberHash(last, hash), confirmed := NumberHash(last, hash)));
    }
    WalkedRebuilt(base, anchor, list, st);
    return Some(st);
  }

  lemma BaseFacts(base: Store, anchor: nat)
    requires Inv(base) && anchor <= base.submitted.number
    ensures anchor < |base.chain| && StoredFrom(base.txs, anchor, [])
  {
  }

  lemma RebuiltIsReady(base: Store, anchor: nat, done: seq<Tx>, st: Store)
    requires Progress(base, anchor, done, st, anchor + |done|, true)
    ensures Ready(base, anchor, done, st)
  {
    hide Linked, Filed, StoredFrom;
  }

  lemma WalkedStored(base: Store, anchor: nat, list: seq<Tx>)
    requires Inv(base) && anchor <= base.submitted.number && StoredFrom(base.txs, anchor, list)
    ensures anchor + |list| < |base.chain|
    ensures var n := anchor + |list|;
      && Inv(base.(submitted := At(base.chain, n), confirmed := At(base.chain, n)))
      && base.chain[..n + 1] == base.chain[..anchor + 1] + Blocks(list)
      && ValidList(base.chain[..anchor + 1], list)
  {
    hide Linked;
    StoredBlocks(base, anchor, list);
    LinkedPrefix(base.chain, anchor + |list| + 1);
  }

  lemma WalkedRebuilt(base: Store, anchor: nat, list: seq<Tx>, st: Store)
    requires anchor < |base.chain| && Inv(st) && st.chain == base.chain[..anchor + 1] + Blocks(list)
    ensures st.chain[..anchor + |list| + 1] == st.chain
    ensures ValidList(base.chain[..anchor + 1], list)
  {
  }

  // ---------- The indexer's pages ----------

  /** Drop repetitions of the transaction just before. */
  function Dedup(s: seq<Tx>): (r: seq<Tx>)
    ensures s != [] ==> r != [] && r[0] == s[0]
    ensures |r| <= |s|
  {
    if |s| <= 1 then s
    else if s[0] == s[1] then Dedup(s[1..])
    else [s[0]] + Dedup(s[1..])
  }

  /** What the walk sees: repetitions are dropped page by page, and an empty page ends it. */
  function Visited(pages: seq<seq<Tx>>): seq<Tx> {
    if pages == [] || pages[0] == [] then [] else Dedup(pages[0]) + Visited(pages[1..])
  }

  /** The transactions after the first occurrence of the anchor. */
  function After(list: seq<Tx>, anchor: Tx): seq<Tx> {
    if list == [] then [] else if list[0] == anchor then list[1..] else After(list[1..], anchor)
  }

  lemma {:induction false} AfterConcat(a: seq<Tx>, b: seq<Tx>, anchor: Tx)
    ensures After(a + b, anchor) == if anchor in a then After(a, anchor) + b else After(b, anchor)
    decreases |a|
  {
    if a == [] {
      assert a + b == b;
    } else {
      assert (a + b)[1..] == a[1..] + b;
      AfterConcat(a[1..], b, anchor);
    }
  }

  lemma {:induction false} AfterAbsent(a: seq<Tx>, anchor: Tx)
    requires anchor !in a
    ensures After(a, anchor) == []
  {
    if a != [] {
      AfterAbsent(a[1..], anchor);
    }
  }

  lemma {:induction false} VisitedAppend(pages: seq<seq<Tx>>, page: seq<Tx>)
    requires page != [] && forall i: nat | i < |pages| :: pages[i] != []
    ensures Visited(pages + [page]) == Visited(pages) + Dedup(page)
    decreases |pages|
  {
    if pages == [] {
      assert Visited([page]) == Dedup(page) + Visited([page][1..]);
      assert Dedup(page) + [] == Dedup(page);
    } else {
      assert (pages + [page])[1..] == pages[1..] + [page];
      VisitedAppend(pages[1..], page);
    }
  }

  lemma {:induction false} VisitedStops(pages: seq<seq<Tx>>, rest: seq<seq<Tx>>)
    requires forall i: nat | i < |pages| :: pages[i] != []
    requires rest == [] || rest[0] == []
    ensures Visited(pages + rest) == Visited(pages)
    decreases |pages|
  {
    if pages == [] {
      assert pages + rest == rest;
    } else {
      assert (pages + rest)[1..] == pages[1..] + rest;
      VisitedStops(pages[1..], rest);
    }
  }

  /** The transactions of one page that come after the anchor. */
  method ScanPage(txs: seq<Tx>, anchor: Tx, seen: bool) returns (found: bool, list: seq<Tx>)
    ensures found == (seen || anchor in txs)
    ensures list == if seen then txs else After(txs, anchor)
  {
    found, list := seen, [];
    for i := 0 to |txs|
      invariant found == (seen || anchor in txs[..i])
      invariant list == if seen then txs[..i] else After(txs[..i], anchor)
    {
      assert txs[..i + 1] == txs[..i] + [txs[i]];
      AfterConcat(txs[..i], [txs[i]], anchor);
      if !found {
        AfterAbsent(txs[..i], anchor);
        found := txs[i] == anchor;
      } else {
        list := list + [txs[i]];
      }
    }
    assert txs[..|txs|] == txs;
  }

  /** The page loop. */
  method Collect(pages: seq<seq<Tx>>, anchor: Tx) returns (list: seq<Tx>)
    ensures list == After(Visited(pages), anchor)
  {
    var seen := false;
    list := [];
    for i := 0 to |pages|
      invariant forall k: nat | k < i :: pages[k] != []
      invariant seen == (anchor in Visited(pages[..i]))
      invariant list == After(Visited(pages[..i]), anchor)
    {
      var objects := Dedup(pages[i]);
      assert pages == pages[..i] + pages[i..];
      if objects == [] {
        VisitedStops(pages[..i], pages[i..]);
        return;
      }
      VisitedAppend(pages[..i], pages[i]);
      assert pages[..i + 1] == pages[..i] + [pages[i]];
      AfterConcat(Visited(pages[..i]), objects, anchor);
      if !seen {
        AfterAbsent(Visited(pages[..i]), anchor);
      }
      var more;
      seen, more := ScanPage(objects, anchor, seen);
      list := list + more;
    }
    assert pages[..|pages|] == pages;
  }

  /** One sync: the anchor is found, and the transactions after it are walked. */
  method SyncOnce(st: Store, committed: set<Tx>, pages: seq<seq<Tx>>) returns (anchor: Option<nat>, r: Option<Store>)
    requires Inv(st)
    ensures anchor.None? <==> st.confirmed.number == 0 && st.txs[0] !in committed
    ensures anchor.Some? ==>
      && anchor.value <= st.confirmed.number
      && (anchor.value == 0 || st.txs[anchor.value] in committed)
      && forall n: nat | anchor.value < n <= st.confirmed.number :: st.txs[n] !in committed
    ensures anchor.Some? ==>
      && anchor.value <= st.confirmed.number
      && var list := After(Visited(pages), st.txs[anchor.value]);
        && (r.Some? <==> ValidList(st.chain[..anchor.value + 1], list))
        && (r.Some? ==>
              && Inv(r.value)
              && r.value.submitted == r.value.confirmed && r.value.confirmed.number == anchor.value + |list|
              && r.value.chain[..anchor.value + |list| + 1] == st.chain[..anchor.value + 1] + Blocks(list)
              && StoredFrom(r.value.txs, anchor.value, list)
              && if StoredFrom(st.txs, anchor.value, list) then r.value.chain == st.chain
                 else |r.value.chain| == anchor.value + |list| + 1)
    ensures anchor.None? ==> r.None?
  {
    hide ValidList, StoredFrom, Linked, Filed, Visited, After;
    anchor := FindAnchor(st, committed);
    if anchor.None? {
      return None, None;
    }
    var list := Collect(pages, st.txs[anchor.value]);
    r := WalkList(st, anchor.value, list);
  }

  // ---------- Transactions seen twice ----------

  function Flatten(pages: seq<seq<Tx>>): seq<Tx> {
    if pages == [] then [] else pages[0] + Flatten(pages[1..])
  }

  ghost predicate Distinct(s: seq<Tx>) {
    forall i: nat, j: nat | i < j < |s| :: s[i] != s[j]
  }

  /** The indexer's order: the records of one transaction are next to each other. */
  ghost predicate Contiguous(s: seq<Tx>) {
    forall i: nat, j: nat, k: nat | i < j < k < |s| && s[i] == s[k] :: s[j] == s[i]
  }

  ghost predicate NonEmpty(pages: seq<seq<Tx>>) {
    forall i: nat | i < |pages| :: pages[i] != []
  }

  /** Page `i` ends with the transaction the next page begins with. */
  ghost predicate StraddlesAt(pages: seq<seq<Tx>>, i: nat) {
    i + 1 < |pages| && pages[i] != [] && pages[i + 1] != [] && Last(pages[i]) == pages[i + 1][0]
  }

  ghost predicate NoStraddle(pages: seq<seq<Tx>>) {
    forall i: nat :: !StraddlesAt(pages, i)
  }

  lemma {:induction false} DedupConcat(a: seq<Tx>, b: seq<Tx>)
    requires a != [] && b != []
    ensures Dedup(a + b) == if Last(a) == b[0] then Dedup(a) + Dedup(b)[1..] else Dedup(a) + Dedup(b)
    decreases |a|
  {
    if |a| == 1 {
      assert (a + b)[1..] == b;
      assert (a + b)[0] == a[0] && (a + b)[1] == b[0];
      if a[0] == b[0] {
        assert Dedup(b) == [b[0]] + Dedup(b)[1..];
      }
    } else {
      assert (a + b)[1..] == a[1..] + b;
      DedupConcat(a[1..], b);
    }
  }

  lemma {:induction false} DedupEnds(s: seq<Tx>)
    requires s != []
    ensures Last(Dedup(s)) == Last(s)
    ensures forall t :: t in Dedup(s) <==> t in s
  {
    if |s| > 1 {
      DedupEnds(s[1..]);
      assert s == [s[0]] + s[1..];
    }
  }

  lemma ContiguousTail(s: seq<Tx>)
    requires s != [] && Contiguous(s)
    ensures Contiguous(s[1..])
  {
    var t := s[1..];
    forall i: nat, j: nat, k: nat | i < j < k < |t| && t[i] == t[k]
      ensures t[j] == t[i]
    {
      assert s[i + 1] == t[i] && s[j + 1] == t[j] && s[k + 1] == t[k];
    }
  }

  lemma FirstOnce(s: seq<Tx>)
    requires |s| > 1 && Contiguous(s) && s[0] != s[1]
    ensures s[0] !in s[1..]
  {
    forall k: nat | k < |s[1..]|
      ensures s[1..][k] != s[0]
    {
      assert s[1..][k] == s[k + 1];
    }
  }

  /** With each transaction's records together, dropping repetitions leaves every transaction once. */
  lemma {:induction false} DedupDistinct(s: seq<Tx>)
    requires Contiguous(s)
    ensures Distinct(Dedup(s))
    decreases |s|
  {
    if |s| > 1 {
      ContiguousTail(s);
      DedupDistinct(s[1..]);
      DedupEnds(s[1..]);
      if s[0] != s[1] {
        FirstOnce(s);
      }
    }
  }

  lemma FlattenStarts(pages: seq<seq<Tx>>)
    requires pages != [] && pages[0] != []
    ensures Flatten(pages) != [] && Flatten(pages)[0] == pages[0][0]
  {
  }

  lemma StraddleSplit(pages: seq<seq<Tx>>)
    requires |pages| > 1 && NonEmpty(pages)
    ensures NonEmpty(pages[1..])
    ensures NoStraddle(pages) ==> Last(pages[0]) != pages[1][0] && NoStraddle(pages[1..])
  {
    if NoStraddle(pages) {
      assert !StraddlesAt(pages, 0);
      forall i: nat
        ensures !StraddlesAt(pages[1..], i)
      {
        assert !StraddlesAt(pages, i + 1);
      }
    }
  }

  /** Without straddling, dropping repetitions page by page drops them all. */
  lemma {:induction false} VisitedIsDedup(pages: seq<seq<Tx>>)
    requires NonEmpty(pages) && NoStraddle(pages)
    ensures Visited(pages) == Dedup(Flatten(pages))
    decreases |pages|
  {
    if |pages| == 1 {
      assert Flatten(pages) == pages[0] + Flatten(pages[1..]) == pages[0];
      assert Visited(pages) == Dedup(pages[0]) + Visited(pages[1..]) == Dedup(pages[0]);
    } else if |pages| > 1 {
      StraddleSplit(pages);
      VisitedIsDedup(pages[1..]);
      FlattenStarts(pages[1..]);
      DedupConcat(pages[0], Flatten(pages[1..]));
    }
  }

  lemma {:induction false} VisitedConcat(a: seq<seq<Tx>>, b: seq<seq<Tx>>)
    requires NonEmpty(a)
    ensures Visited(a + b) == Visited(a) + Visited(b)
    decreases |a|
  {
    hide Dedup;
    if a == [] {
      assert a + b == b;
    } else {
      var rest := a[1..];
      assert (a + b)[1..] == rest + b && (a + b)[0] == a[0];
      VisitedConcat(rest, b);
      assert Dedup(a[0]) + (Visited(rest) + Visited(b)) == Dedup(a[0]) + Visited(rest) + Visited(b);
    }
  }

  lemma {:induction false} VisitedMembers(pages: seq<seq<Tx>>)
    requires NonEmpty(pages) && pages != []
    ensures Visited(pages) != [] && Last(Visited(pages)) == Last(Last(pages))
    ensures forall t :: t in Visited(pages) <==> t in Flatten(pages)
    decreases |pages|
  {
    DedupEnds(pages[0]);
    if |pages| > 1 {
      assert NonEmpty(pages[1..]);
      VisitedMembers(pages[1..]);
    } else {
      assert Visited(pages) == Dedup(pages[0]) + Visited(pages[1..]) == Dedup(pages[0]);
      assert Flatten(pages) == pages[0] + Flatten(pages[1..]) == pages[0];
    }
  }

  /** What is seen around a page boundary. */
  lemma SeenTwice(pages: seq<seq<Tx>>, i: nat)
    requires NonEmpty(pages) && StraddlesAt(pages, i)
    ensures var a, b := Visited(pages[..i + 1]), Visited(pages[i + 1..]);
      && Visited(pages) == a + b && a != [] && b != []
      && Last(a) == b[0] == Last(pages[i])
  {
    assert pages == pages[..i + 1] + pages[i + 1..];
    VisitedConcat(pages[..i + 1], pages[i + 1..]);
    VisitedMembers(pages[..i + 1]);
    assert pages[i + 1..][0] == pages[i + 1];
  }

  /** Every transaction is seen once exactly when none straddles two pages. */
  lemma VisitedExactly(pages: seq<seq<Tx>>)
    requires NonEmpty(pages) && Contiguous(Flatten(pages))
    ensures Distinct(Visited(pages)) <==> NoStraddle(pages)
  {
    if NoStraddle(pages) {
      VisitedIsDedup(pages);
      DedupDistinct(Flatten(pages));
    } else {
      var i: nat :| StraddlesAt(pages, i);
      SeenTwice(pages, i);
      var a, b := Visited(pages[..i + 1]), Visited(pages[i + 1..]);
      assert (a + b)[|a| - 1] == (a + b)[|a|];
    }
  }

  /** Two pages with one record each of the same transaction. */
  lemma SeenTwiceExample(t: Tx)
    ensures StraddlesAt([[t], [t]], 0) && Contiguous(Flatten([[t], [t]]))
    ensures Visited([[t], [t]]) == [t, t]
  {
    var pages := [[t], [t]];
    assert pages[1..] == [[t]] && [[t]][1..] == [];
    assert Visited([[t]]) == [t] && Flatten([[t]]) == [t];
    assert Visited(pages) == Dedup([t]) + Visited(pages[1..]);
  }

  /** Blocks of a valid list have growing numbers, so neither the anchor nor any other transaction occurs
  twice. */
  lemma ValidListDistinct(chain: seq<Block>, anchor: Tx, list: seq<Tx>)
    requires chain != [] && Last(chain) == anchor.block && ValidList(chain, list)
    ensures Distinct([anchor] + list)
  {
    var all := chain + Blocks(list);
    forall i: nat, j: nat | i < j < |list| + 1
      ensures ([anchor] + list)[i] != ([anchor] + list)[j]
    {
      var n := |chain| - 1;
      assert all[n + i] == ([anchor] + list)[i].block && all[n + j] == ([anchor] + list)[j].block;
      assert all[n + i].number == n + i && all[n + j].number == n + j;
    }
  }

  /** No transaction straddles two pages from the anchor on. */
  ghost predicate NoStraddleFrom(pages: seq<seq<Tx>>, anchor: Tx) {
    forall i: nat | StraddlesAt(pages, i) :: anchor !in Flatten(pages[..i + 1])
  }

  lemma {:induction false} AfterEnds(a: seq<Tx>, anchor: Tx)
    requires anchor in a
    ensures if After(a, anchor) == [] then Last(a) == anchor else Last(After(a, anchor)) == Last(a)
    decreases |a|
  {
    if a[0] != anchor {
      AfterEnds(a[1..], anchor);
    }
  }

  /** A transaction that straddles at or after the anchor is walked twice in a row. */
  lemma StraddleBreaks(chain: seq<Block>, anchor: Tx, pages: seq<seq<Tx>>, i: nat)
    requires NonEmpty(pages) && StraddlesAt(pages, i) && anchor in Flatten(pages[..i + 1])
    requires chain != [] && Last(chain) == anchor.block
    ensures !ValidList(chain, After(Visited(pages), anchor))
  {
    hide ValidList;
    SeenTwice(pages, i);
    var a, b := Visited(pages[..i + 1]), Visited(pages[i + 1..]);
    VisitedMembers(pages[..i + 1]);
    AfterConcat(a, b, anchor);
    AfterEnds(a, anchor);
    var list, front := After(Visited(pages), anchor), After(a, anchor);
    var k := |front|;
    assert ([anchor] + list)[k] == ([anchor] + list)[k + 1];
    if ValidList(chain, list) {
      ValidListDistinct(chain, anchor, list);
    }
  }

  lemma FirstPage(pages: seq<seq<Tx>>, i: nat, t: Tx)
    requires i < |pages| && t in pages[0]
    ensures t in Flatten(pages[..i + 1])
  {
    assert pages[..i + 1][0] == pages[0];
  }

  lemma NoStraddleTail(pages: seq<seq<Tx>>, anchor: Tx)
    requires pages != [] && NoStraddleFrom(pages, anchor)
    ensures NoStraddleFrom(pages[1..], anchor)
    ensures NonEmpty(pages) && anchor in pages[0] ==> NoStraddle(pages)
  {
    forall i: nat | StraddlesAt(pages[1..], i)
      ensures anchor !in Flatten(pages[1..][..i + 1])
    {
      assert StraddlesAt(pages, i + 1);
      assert pages[..i + 2][1..] == pages[1..][..i + 1];
    }
    if NonEmpty(pages) && anchor in pages[0] {
      forall i: nat
        ensures !StraddlesAt(pages, i)
      {
        if i < |pages| {
          FirstPage(pages, i, anchor);
        }
      }
    }
  }

  /** Straddling before the anchor does no harm. */
  lemma {:induction false} SameAfter(pages: seq<seq<Tx>>, anchor: Tx)
    requires NonEmpty(pages) && NoStraddleFrom(pages, anchor)
    ensures After(Visited(pages), anchor) == After(Dedup(Flatten(pages)), anchor)
    decreases |pages|
  {
    if pages != [] {
      var first, rest := pages[0], pages[1..];
      NoStraddleTail(pages, anchor);
      DedupEnds(first);
      if anchor in first {
        VisitedIsDedup(pages);
      } else if rest == [] {
        assert Flatten(pages) == first + Flatten(rest) == first;
        assert Visited(pages) == Dedup(first) + Visited(rest) == Dedup(first);
      } else {
        assert NonEmpty(rest);
        SameAfter(rest, anchor);
        FlattenStarts(rest);
        var d := Dedup(Flatten(rest));
        DedupConcat(first, Flatten(rest));
        AfterConcat(Dedup(first), Visited(rest), anchor);
        AfterConcat(Dedup(first), d, anchor);
        if Last(first) == rest[0][0] {
          AfterConcat(Dedup(first), d[1..], anchor);
          assert d[0] == Last(first) != anchor;
        }
      }
    }
  }

  /** When the transactions after the anchor, each taken once, are a valid list, what the walk sees is one
  exactly when no transaction straddles two pages from the anchor on. */
  lemma SyncSucceedsExactly(chain: seq<Block>, anchor: Tx, pages: seq<seq<Tx>>)
    requires NonEmpty(pages) && chain != [] && Last(chain) == anchor.block
    requires ValidList(chain, After(Dedup(Flatten(pages)), anchor))
    ensures ValidList(chain, After(Visited(pages), anchor)) <==> NoStraddleFrom(pages, anchor)
  {
    hide ValidList;
    if NoStraddleFrom(pages, anchor) {
      SameAfter(pages, anchor);
    } else {
      var i: nat :| StraddlesAt(pages, i) && anchor in Flatten(pages[..i + 1]);
      StraddleBreaks(chain, anchor, pages, i);
    }
  }

  /** The anchor's own records on two pages: nothing new is on L1, yet the walk fails. */
  lemma AnchorStraddlesExample(chain: seq<Block>, anchor: Tx)
    requires Linked(chain) && chain != [] && Last(chain) == anchor.block
    ensures ValidList(chain, After(Dedup(Flatten([[anchor], [anchor]])), anchor))
    ensures !ValidList(chain, After(Visited([[anchor], [anchor]]), anchor))
  {
    var pages := [[anchor], [anchor]];
    SeenTwiceExample(anchor);
    assert pages[..1] == [[anchor]] && Flatten(pages[..1]) == [anchor] + Flatten(pages[..1][1..]) == [anchor];
    StraddleBreaks(chain, anchor, pages, 0);
    assert pages[1..] == [[anchor]];
    assert Flatten(pages) == [anchor, anchor] && Dedup([anchor, anchor]) == [anchor];
    assert chain + Blocks([]) == chain;
  }
}
