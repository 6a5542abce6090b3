/** Two runs from a new database: a small commit that succeeds, and one of many long keys that does not end. */
module DeepRuns {
  import opened Bytes
  import opened SortedSeq
  import opened Nodes
  import opened Trees
  import opened TreeOps
  import opened TreeUpdates
  import opened BTrees
  import opened Positions
  import opened Snapshots
  import opened Conflicts
  import opened Serial
  import opened Transactions
  import opened Transfer
  import opened FileUpdates
  import opened Cursors
  import opened KVStore
  import Tables
  import TF = TreeFits

  const KEYS := 300
  const KEY_LENGTH := 240

  /** Key number `n`: its two bytes, and zeros behind them. */
  function LongKey(n: nat): (r: Bytes)
    requires n < KEYS
    ensures |r| == KEY_LENGTH && r[0] == (n / 256) as byte && r[1] == (n % 256) as byte
  {
    [(n / 256) as byte, (n % 256) as byte] + seq(KEY_LENGTH - 2, _ => 0)
  }

  lemma OtherKey(n: nat, j: nat)
    requires n < KEYS && j < KEYS && n != j
    ensures LongKey(n) != LongKey(j)
  {
    assert n == 256 * (n / 256) + n % 256 && j == 256 * (j / 256) + j % 256;
  }

  /** The first `n` keys are pending, all with the empty value. */
  ghost predicate FirstKeys(pending: map<Bytes, Bytes>, n: nat)
    requires n <= KEYS
  {
    && |pending| == n
    && forall k :: k in pending ==> pending[k] == [FLAG_UPDATED] && exists j :: 0 <= j < n && k == LongKey(j)
  }

  lemma NoKeys()
    ensures FirstKeys(PendingOf([]), 0)
  {
  }

  lemma NextKey(pending: map<Bytes, Bytes>, n: nat)
    requires n < KEYS && FirstKeys(pending, n)
    ensures LongKey(n) !in pending && FirstKeys(pending[LongKey(n) := [FLAG_UPDATED]], n + 1)
  {
    forall j | 0 <= j < n ensures LongKey(j) != LongKey(n) {
      OtherKey(n, j);
    }
    hide LongKey;
    var more := pending[LongKey(n) := [FLAG_UPDATED]];
    assert more.Keys == pending.Keys + {LongKey(n)};
    forall k | k in more ensures more[k] == [FLAG_UPDATED] && exists j :: 0 <= j < n + 1 && k == LongKey(j) {
      assert k == LongKey(n) || k in pending;
    }
  }

  lemma KeysRegular(pending: map<Bytes, Bytes>, n: nat)
    requires n <= KEYS && FirstKeys(pending, n)
    ensures RegularPending(pending, KEY_LENGTH)
  {
  }

  /** The pending entries are small. */
  lemma SmallPending(tx: KVTX, n: nat)
    requires tx.Own() && n <= KEYS && FirstKeys(PendingOf(tx.ops), n)
    ensures Small(tx.pending.View())
  {
    hide RootOK, LogOK, Flat, PendingOf, Sorted, Good, Visible, LongKey, TF.GrownOnly;
    var s := tx.pending.View();
    if tx.pending.root != 0 {
      RootFirst(tx.pending.store.ledger.pages, tx.pending.root, tx.pending.t, tx.pending.h);
      forall i | 0 <= i < |s| ensures EntrySize(s[i]) <= 256 {
        if i > 0 {
          PendingEntry(tx.pending.t, tx.pending.h, tx.pending.store.ledger.pages, tx.pending.root, i);
        }
      }
    }
  }

  lemma RootFirst(pages: map<nat, Node>, root: nat, t: Tree, h: nat)
    requires RootOK(pages, root, t, h)
    ensures Flat(t) != [] && EntrySize(Flat(t)[0]) == 14
  {
    SentinelFirst(t, h, pages, root);
    hide Flat, Good;
  }

  /** Some entry behind the turn changes the empty map. */
  lemma TurnModifies(tx: KVTX, n: nat)
    requires tx.Own() && tx.pending.root != 0 && tx.pending.h >= 2 && n <= KEYS && FirstKeys(PendingOf(tx.ops), n)
    ensures Revisits(tx.pending.t, map[])
  {
    hide RootOK, LogOK, Flat, PendingOf, Good, Visible, Turn;
    InsideTurn(tx.pending);
    var i := Turn(tx.pending.t);
    PendingEntry(tx.pending.t, tx.pending.h, tx.pending.store.ledger.pages, tx.pending.root, i);
    assert Modifies(map[], Flat(tx.pending.t)[i].key, Flat(tx.pending.t)[i].val);
  }

  /** The transaction has inserted the first `n` keys into an empty database. */
  ghost predicate Inserted(tx: KVTX, n: nat)
    requires n <= KEYS
    reads tx, tx.pending, tx.pending.store, tx.snapshot, tx.snapshot.store,
      (if tx.snapshot.store.base == null then {} else {tx.snapshot.store.base})`file
  {
    && tx.Own() && tx.snapshot.Readable() && SnapMap(tx.snap) == map[]
    && FirstKeys(PendingOf(tx.ops), n) && tx.Sees().Keys == PendingOf(tx.ops).Keys
  }

  /** One more insertion; there is always room. */
  method InsertKey(tx: KVTX, n: nat)
    requires n < KEYS && Inserted(tx, n)
    modifies tx`arrays, tx`deps, tx`ops, tx`updateAttempted
    modifies tx.pending, tx.pending.store`mem, tx.pending.store`page, tx.pending.store`free, tx.pending.store`ledger
    ensures Inserted(tx, n + 1)
  {
    hide KVTX.Own, BTree.Readable, PendingOf, FirstKeys, KVTX.Sees, SmallCase, KVTX.Known, KVTX.Live, BTree.RoomFor, SnapMap;
    NextKey(PendingOf(tx.ops), n);
    SmallPending(tx, n);
    Fits(tx.pending.View(), n);
    Tables.Apart(tx);
    var res, added, prev := tx.Update(LongKey(n), [], Upsert);
  }

  lemma Fits(s: seq<Entry>, n: nat)
    requires Small(s) && n < KEYS
    ensures SmallCase(s, LongKey(n), [FLAG_UPDATED]) && [FLAG_UPDATED] + [] == [FLAG_UPDATED]
  {
  }

  method InsertAll(tx: KVTX)
    requires Inserted(tx, 0)
    modifies tx`arrays, tx`deps, tx`ops, tx`updateAttempted
    modifies tx.pending, tx.pending.store`mem, tx.pending.store`page, tx.pending.store`free, tx.pending.store`ledger
    ensures Inserted(tx, KEYS)
  {
    hide Inserted;
    for n := 0 to KEYS
      invariant Inserted(tx, n)
    {
      InsertKey(tx, n);
    }
  }

  lemma StartEmpty(tx: KVTX)
    requires tx.Own() && tx.snapshot.Readable() && tx.ops == [] && tx.Sees() == map[]
    ensures Inserted(tx, 0)
  {
    NoKeys();
    hide KVTX.Own, BTree.Readable, SnapMap, FirstKeys;
    assert PendingOf([]) == map[];
  }

  /** What the commit finds: regular data, and a deep tree with something to find again. */
  lemma AllInserted(tx: KVTX)
    requires Inserted(tx, KEYS)
    ensures tx.Own() && |PendingOf(tx.ops)| == KEYS && RegularPending(PendingOf(tx.ops), KEY_LENGTH) && Regular([], KEY_LENGTH)
    ensures tx.pending.root != 0 && tx.pending.h >= 2 && Revisits(tx.pending.t, SnapMap(tx.snap))
  {
    hide KVTX.Own, BTree.Readable, PendingOf, KVTX.Sees, SnapMap, Revisits, LongKey;
    KeysRegular(PendingOf(tx.ops), KEYS);
    tx.Deep(KEY_LENGTH, 17);
    TurnModifies(tx, KEYS);
  }

  /** The pending tree of one update is a single leaf. */
  lemma OneUpdate(ops: seq<Op>, key: Bytes, val: Bytes)
    requires 0 < |key| && 14 + |key| + |val| <= 256 && PendingOf(ops) == map[key := [FLAG_UPDATED] + val]
    ensures RegularPending(PendingOf(ops), |key|) && Regular([], |key|)
  {
  }

  /** A small update has room in the pending tree of a transaction that has not written anything. */
  lemma NothingPending(tx: KVTX, key: Bytes, val: Bytes)
    requires tx.Own() && PendingOf(tx.ops) == map[] && 0 < |key| && 14 + |key| + |val| <= 255
    ensures SmallCase(tx.pending.View(), key, [FLAG_UPDATED] + val)
  {
    hide RootOK, LogOK, Flat, PendingOf, Sorted, Good, Visible, TF.GrownOnly;
    var s := tx.pending.View();
    if tx.pending.root != 0 {
      RootFirst(tx.pending.store.ledger.pages, tx.pending.root, tx.pending.t, tx.pending.h);
      forall i | 0 <= i < |s| ensures EntrySize(s[i]) <= 256 {
        if i > 0 {
          PendingEntry(tx.pending.t, tx.pending.h, tx.pending.store.ledger.pages, tx.pending.root, i);
          assert false;
        }
      }
    }
  }

  lemma OneLevel(tx: KVTX, key: Bytes, val: Bytes)
    requires tx.Own() && PendingOf(tx.ops) == map[key := [FLAG_UPDATED] + val] && |key| <= 300
    ensures tx.pending.root != 0 ==> tx.pending.h < 2
  {
    hide RootOK, LogOK, Flat, Sorted, Good, Visible, TF.KeySpace, PendingOf;
    var s := tx.pending.View();
    if tx.pending.root != 0 {
      OneWrite(key, val);
      RootGood(tx.pending.store.ledger.pages, tx.pending.root, tx.pending.t, tx.pending.h);
      SentinelFirst(tx.pending.t, tx.pending.h, tx.pending.store.ledger.pages, tx.pending.root);
      forall i | 0 <= i < |s| ensures s[i].key == [] || s[i].key in PendingOf([SetKey(key, val)]) {
        ViewKeys(s, i);
      }
      PendingSpace(s, [SetKey(key, val)]);
    }
  }

  lemma OneWrite(key: Bytes, val: Bytes)
    ensures PendingOf([SetKey(key, val)]) == map[key := [FLAG_UPDATED] + val] && WriteSpace([SetKey(key, val)]) == 14 + |key|
  {
    assert [SetKey(key, val)][..0] == [];
  }

  /** The first update of a transaction on an empty database. */
  method FirstUpdate(tx: KVTX, key: Bytes, val: Bytes)
    requires Inserted(tx, 0) && 0 < |key| && 14 + |key| + |val| <= 255
    modifies tx`arrays, tx`deps, tx`ops, tx`updateAttempted
    modifies tx.pending, tx.pending.store`mem, tx.pending.store`page, tx.pending.store`free, tx.pending.store`ledger
    ensures tx.Own() && tx.Sees() == map[key := val] && SnapMap(tx.snap) == map[]
    ensures RegularPending(PendingOf(tx.ops), |key|) && Regular([], |key|) && (tx.pending.root != 0 ==> tx.pending.h < 2)
  {
    hide KVTX.Own, BTree.Readable, PendingOf, KVTX.Sees, SmallCase, KVTX.Known, KVTX.Live, BTree.RoomFor, SnapMap, Regular, RegularPending;
    NothingPending(tx, key, val);
    Tables.Apart(tx);
    var res, added, prev := tx.Update(key, val, Upsert);
    OneUpdate(tx.ops, key, val);
    OneLevel(tx, key, val);
  }

  /** The first update of a new database, committed without a failing call, is there. */
  method FirstCommit(key: Bytes, val: Bytes) returns (kv: KV, out: CommitOut)
    requires 0 < |key| && 14 + |key| + |val| <= 255
    ensures out.CommitOK? && kv.Valid() && kv.Contents() == map[key := val]
  {
    hide KV.Valid, KVTX.Own, BTree.Readable, PendingOf, Regular, RegularPending, Revisits, Legal, Run, Inserted, SnapMap, FileEnd, Stopped;
    kv := new KV.New();
    var tx := kv.Begin();
    StartEmpty(tx);
    FirstUpdate(tx, key, val);
    NoHistory(kv.cc.history, tx.version, tx.Deps());
    out := kv.Commit(tx, NO_FAULTS, |key|);
  }

  /**
   * In a new database, a transaction that inserts 300 keys of 240 bytes succeeds with every insertion, and then its
   * commit fails the loop's assertion.
   */
  method LongCommit(faults: Faults) returns (kv: KV, tx: KVTX, out: CommitOut)
    ensures out.LoopFails? && |PendingOf(tx.ops)| == KEYS
  {
    hide KV.Valid, KVTX.Own, BTree.Readable, PendingOf, KVTX.Sees, Regular, RegularPending, Revisits, Legal, Run, Inserted, SnapMap;
    kv := new KV.New();
    tx := kv.Begin();
    StartEmpty(tx);
    InsertAll(tx);
    AllInserted(tx);
    NoHistory(kv.cc.history, tx.version, tx.Deps());
    out := kv.Commit(tx, faults, KEY_LENGTH);
  }

  lemma NoHistory(history: seq<CommittedTX>, version: nat, deps: seq<KeyRange>)
    ensures history == [] ==> !Conflicting(history, version, deps)
  {
  }
}
