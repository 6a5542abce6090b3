/** What Begin, Commit and Abort keep, as predicates and steps on values. */
module Commits {
  import opened Bytes
  import opened Nodes
  import opened Trees
  import opened TreeOps
  import opened PageState
  import opened PageSteps
  import opened Epochs
  import opened BTrees
  import opened DiskModel
  import opened Snapshots
  import opened Readers
  import opened FileUpdates
  import opened Conflicts
  import opened Serial
  import opened Transactions
  import opened Transfer
  import PS = PageStore

  // ---- the parts of the invariant ----

  /** Concurrency control: the current version, the versions of ongoing transactions, committed changes. */
  datatype Control = Control(version: nat, ongoing: seq<nat>, history: seq<CommittedTX>)

  /**
   * `snaps`: the tree of each version in use. `other`: what the file may hold instead of the current
   * version after a failed update. `journal`: the committed updating transactions, from the map
   * `origin`; `points`: how many of them each version in use includes.
   */
  datatype Memo = Memo(
    snaps: map<nat, Snap>, other: Committed, origin: map<Bytes, Bytes>, journal: seq<seq<Op>>, points: map<nat, nat>)

  /** The store between page operations, with every version in use readable and guarded. */
  ghost predicate StoreOK(s: State, snaps: map<nat, Snap>, version: nat, cur: Snap) {
    AtRest(s) && SnapsOK(s, snaps, version) && snaps[version] == cur && s.inUse == SnapPages(cur)
  }

  /** `txs` are the ongoing transactions, each with its version and its tree. */
  ghost predicate LiveOK(txs: seq<KVTX>, ongoing: seq<nat>, snaps: map<nat, Snap>, store: PS.PageStore) {
    && |txs| == |ongoing|
    && (forall i :: 0 <= i < |txs| ==>
          && txs[i].version == ongoing[i] && ongoing[i] in snaps && snaps[ongoing[i]] == txs[i].snap
          && txs[i].snapshot.store.base == store)
    && (forall i, j :: 0 <= i < j < |txs| ==> txs[i] != txs[j])
  }

  /** The history knows every change that an ongoing transaction has not seen. */
  ghost predicate Logged(cc: Control, snaps: map<nat, Snap>) {
    && HistoryOK(cc.history, cc.version) && cc.version in snaps
    && (forall i :: 0 <= i < |cc.ongoing| ==>
          && cc.ongoing[i] in snaps && Unbroken(cc.history, cc.ongoing[i], cc.version)
          && Sufficient(cc.history, cc.ongoing[i], SnapMap(snaps[cc.ongoing[i]]), SnapMap(snaps[cc.version])))
  }

  /** The same at the end of a commit, whose writes are recorded only if other transactions are ongoing. */
  ghost predicate LoggedMany(cc: Control, snaps: map<nat, Snap>) {
    && HistoryOK(cc.history, cc.version) && cc.version in snaps
    && (|cc.ongoing| > 1 ==> Logged(cc, snaps))
  }

  /** The process reads what it wrote, and after a crash the file holds `cur` or `other`. */
  ghost predicate Durable(disk: Disk, file: map<nat, Page>, failed: bool, cur: Committed, other: Committed) {
    && file == Seen(disk).pages
    && (!failed ==> disk.dirty == [])
    && (cur.sn.root != 0 ==>
          && CommittedOK(other) && other.sn.root != 0 && Recoverable(disk, OnDisk(cur), OnDisk(other))
          && (!failed ==> OnDisk(other) == OnDisk(cur) && SnapMap(other.sn) == SnapMap(cur.sn)))
  }

  /** The current map, and the map of every version in use, come from a serial run of committed transactions. */
  ghost predicate Serialized(memo: Memo, version: nat) {
    && SerialRun(memo.origin, memo.journal)
    && version in memo.snaps && SnapMap(memo.snaps[version]) == RunAll(memo.origin, memo.journal)
    && (forall v :: v in memo.snaps ==>
          v in memo.points && memo.points[v] <= |memo.journal|
          && SnapMap(memo.snaps[v]) == RunAll(memo.origin, memo.journal[..memo.points[v]]))
  }

  /** `txs'` are the transactions `txs` without `tx`. */
  ghost predicate Without(txs: seq<KVTX>, txs': seq<KVTX>, tx: KVTX) {
    && |txs'| == |txs| - 1
    && (forall t | t in txs' :: t in txs && t != tx)
    && (forall t | t in txs && t != tx :: t in txs')
  }

  ghost function InUse(ongoing: seq<nat>, version: nat): set<nat> {
    {version} + set v | v in ongoing
  }

  // ---- the end of a transaction ----

  lemma LiveReadable(s: State, snaps: map<nat, Snap>, version: nat, cur: Snap, v: nat)
    requires StoreOK(s, snaps, version, cur) && Idle(s) && v in snaps
    ensures SnapStored(PS.NodesIn(s.file), snaps[v]) && SnapStored(s.pages, snaps[v])
  {
    hide Idle, SnapPages, SnapStored;
    RestNumbers(s);
    ReadableFile(s, snaps[v]);
  }

  lemma Member(txs: seq<KVTX>, ongoing: seq<nat>, snaps: map<nat, Snap>, store: PS.PageStore, tx: KVTX) returns (j: nat)
    requires LiveOK(txs, ongoing, snaps, store) && tx in txs
    ensures |txs| == |ongoing| && j < |txs| && txs[j] == tx && ongoing[j] == tx.version
    ensures tx.version in ongoing && tx.version in snaps && snaps[tx.version] == tx.snap
    ensures tx.snapshot.store.base == store
  {
    j :| 0 <= j < |txs| && txs[j] == tx;
  }

  /** Remove entry `j`; the slot `idx` of the version list goes to the transaction that was listed there. */
  ghost function Drop1(txs: seq<KVTX>, j: nat, idx: nat): seq<KVTX>
    requires j < |txs| && idx < |txs|
  {
    txs[j := txs[idx]][..idx] + txs[j := txs[idx]][idx + 1..]
  }

  /** Where entry `k` was before. */
  ghost function Source(j: nat, idx: nat, k: nat): nat {
    var k' := if k < idx then k else k + 1;
    if k' == j then idx else k'
  }

  lemma LiveLess(txs: seq<KVTX>, ongoing: seq<nat>, snaps: map<nat, Snap>, store: PS.PageStore, j: nat, idx: nat)
    requires LiveOK(txs, ongoing, snaps, store) && j < |txs| && idx < |txs| && ongoing[idx] == txs[j].version
    ensures LiveOK(Drop1(txs, j, idx), ongoing[..idx] + ongoing[idx + 1..], snaps, store)
    ensures Without(txs, Drop1(txs, j, idx), txs[j])
  {
    var txs', ongoing' := Drop1(txs, j, idx), ongoing[..idx] + ongoing[idx + 1..];
    forall k: nat | k < |txs'|
      ensures Source(j, idx, k) < |txs| && Source(j, idx, k) != j
      ensures txs'[k] == txs[Source(j, idx, k)] && ongoing'[k] == ongoing[Source(j, idx, k)]
    {
    }
    hide Drop1;
    forall t | t in txs && t != txs[j] ensures t in txs' {
      var i :| 0 <= i < |txs| && txs[i] == t;
      var i' := if i == idx then j else i;
      var k := if i' < idx then i' else i' - 1;
      assert t == txs'[k];
    }
  }

  /** Only what is on disk of the current version matters. */
  lemma DurableSame(disk: Disk, file: map<nat, Page>, failed: bool, c: Committed, c': Committed, other: Committed)
    requires Durable(disk, file, failed, c, other) && OnDisk(c') == OnDisk(c) && c'.sn == c.sn
    ensures Durable(disk, file, failed, c', other)
  {
  }

  lemma LiveRestricted(txs: seq<KVTX>, ongoing: seq<nat>, snaps: map<nat, Snap>, store: PS.PageStore, version: nat)
    requires LiveOK(txs, ongoing, snaps, store)
    ensures LiveOK(txs, ongoing, Restrict(snaps, InUse(ongoing, version)), store)
  {
    forall i | 0 <= i < |ongoing| ensures ongoing[i] in InUse(ongoing, version) {
    }
  }

  lemma Finalized(s: State, snaps: map<nat, Snap>, version: nat, cur: Snap, ongoing: seq<nat>, oldest: nat)
    requires StoreOK(s, snaps, version, cur) && Oldest(oldest, ongoing, version)
    ensures var snaps' := Restrict(snaps, InUse(ongoing, version));
            var s' := Released(s, snaps', oldest);
            && Idle(s') && StoreOK(s', snaps', version, cur) && version in snaps'
            && OnDisk(Committed(s', cur, version)) == OnDisk(Committed(s, cur, version))
  {
    hide SnapStored, SnapPages, Core;
    RestNumbers(s);
    var live := InUse(ongoing, version);
    var snaps' := Restrict(snaps, live);
    var s' := Released(s, snaps', oldest);
    FinalSnaps(s, snaps, version, live, oldest);
    RestNumbers(s');
    forall p | p in s.inUse && p in s.pages ensures p in s'.pages {
      assert version in snaps' && p in SnapPages(snaps'[version]);
    }
    assert VersionOf(s', cur.root, version).nodes == VersionOf(s, cur.root, version).nodes;
  }

  lemma LoggedHistory(cc: Control, snaps: map<nat, Snap>)
    requires LoggedMany(cc, snaps)
    ensures HistoryOK(cc.history, cc.version)
  {
  }

  lemma LoggedLess(cc: Control, snaps: map<nat, Snap>, idx: nat, ongoing: seq<nat>, history: seq<CommittedTX>, oldest: nat)
    requires LoggedMany(cc, snaps) && idx < |cc.ongoing| && ongoing == cc.ongoing[..idx] + cc.ongoing[idx + 1..]
    requires Oldest(oldest, ongoing, cc.version)
    requires HistoryOK(history, cc.version)
    requires forall v, k :: oldest <= v && Recorded(cc.history, v, k) ==> Recorded(history, v, k)
    requires forall u :: oldest <= u && Unbroken(cc.history, u, cc.version) ==> Unbroken(history, u, cc.version)
    ensures Logged(Control(cc.version, ongoing, history), Restrict(snaps, InUse(ongoing, cc.version)))
    ensures LoggedMany(Control(cc.version, ongoing, history), Restrict(snaps, InUse(ongoing, cc.version)))
  {
    hide HistoryOK, SnapMap, Recorded, SameAt, Unbroken;
    var snaps' := Restrict(snaps, InUse(ongoing, cc.version));
    forall i | 0 <= i < |ongoing|
      ensures ongoing[i] in snaps' && Unbroken(history, ongoing[i], cc.version)
      ensures Sufficient(history, ongoing[i], SnapMap(snaps'[ongoing[i]]), SnapMap(snaps'[cc.version]))
    {
      assert ongoing[i] == cc.ongoing[if i < idx then i else i + 1];
      assert ongoing[i] in InUse(ongoing, cc.version);
    }
  }

  lemma SerializedLess(memo: Memo, snaps: map<nat, Snap>, version: nat)
    requires Serialized(memo, version) && version in snaps
    requires forall v :: v in snaps ==> v in memo.snaps && snaps[v] == memo.snaps[v]
    ensures Serialized(memo.(snaps := snaps), version)
  {
    hide SnapMap, RunAll, SerialRun;
  }

  /** The free list's limits, which the meta record does not hold. */
  ghost predicate SameBounds(s0: State, s: State) {
    s.maxSeq == s0.maxSeq && s.maxVer == s0.maxVer && s.curVer == s0.curVer
  }

  lemma WorkingBounds(s0: State, s: State)
    requires Working(s0, s)
    ensures SameBounds(s0, s) && s0.updates == map[] && s0.nappend == 0
  {
    hide Numbers, Domain, Slots, Links, Available, Versions, TreePages, Partition;
  }

  lemma BoundsKept(s0: State, s: State, s': State)
    requires SameBounds(s0, s) && s'.maxSeq == s.maxSeq && s'.maxVer == s.maxVer && s'.curVer == s.curVer
    ensures SameBounds(s0, s')
  {
  }

  lemma AllSafeLast(moments: seq<Disk>, cur: Version, other: Version, next: Version)
    requires moments != [] && AllSafe(moments[..|moments| - 1], cur, other, next)
    requires var d := moments[|moments| - 1]; Safe(d, cur, other) || Safe(d, cur, cur) || Safe(d, cur, next)
    ensures AllSafe(moments, cur, other, next)
  {
    AllSafeMore(moments[..|moments| - 1], moments[|moments| - 1], cur, other, next);
    assert moments == moments[..|moments| - 1] + [moments[|moments| - 1]];
  }

  lemma MetaInVersion(s: State, root: nat, version: nat)
    ensures VersionOf(s, root, version).meta == MetaOf(s, root, version)
  {
  }

  /** The state after all pages are written. */
  lemma Flushed(s0: State, s: State, root: nat)
    requires Working(s0, s) && root in s.inUse
    ensures var s' := Flush(s); Core(s') && AtRest(s') && s'.flushed >= 3
  {
    hide Numbers, Domain, Slots, Links, Available, Versions, TreePages, Partition;
    ThreePages(s, root);
    FlushKeeps(s);
    FlushAttached(s);
    hide Core;
  }

  lemma FlushAttached(s: State)
    requires Attached(s)
    ensures Attached(Flush(s))
  {
  }

  lemma PartialStart(s0: State, s: State)
    requires Working(s0, s)
    ensures s.file == s0.file && Partial(s0.file, s.updates, s.updates.Keys, s.file)
  {
    hide Domain, Slots, Links, Available, Versions, TreePages, Partition, Numbers;
  }

  lemma SameFlush(s0: State, s: State, file: map<nat, Page>)
    requires s.file == s0.file && file == s0.file + s.updates && file + s.updates == file
    ensures Flush(s.(file := file)) == Flush(s)
  {
  }

  lemma NewSound(sn: Snap)
    requires sn.root == 0
    ensures var s, c, d := NewState(), Control(0, [], []), Disk(Image(map[1 := ZERO], NoMeta), []);
            var memo := Memo(map[0 := sn], Committed(s, sn, 0), map[], [], map[0 := 0]);
            && Idle(s) && StoreOK(s, memo.snaps, 0, sn) && Logged(c, memo.snaps) && SnapMap(sn) == map[]
            && Durable(d, map[1 := ZERO], false, Committed(s, sn, 0), memo.other) && Serialized(memo, 0)
  {
    NewIdle();
    EmptyVisible();
    hide Core;
  }

  lemma CurrentReadable(s: State, snaps: map<nat, Snap>, version: nat, cur: Snap)
    requires StoreOK(s, snaps, version, cur) && Idle(s)
    ensures SnapStored(PS.NodesIn(s.file), cur) && version in snaps && snaps[version] == cur
  {
    hide Idle, SnapPages;
    RestNumbers(s);
    ReadableFile(s, cur);
  }

  lemma SnapshotView(tree: BTree, tx: KVTX)
    requires tx.snapshot.store.base == tree.store && tx.snapshot.root == tx.snap.root
    requires tx.snapshot.t == tx.snap.t && tx.snapshot.h == tx.snap.h
    requires SnapStored(PS.NodesIn(tree.store.file), tx.snap)
    ensures tx.snapshot.Readable() && tx.snapshot.Contents() == SnapMap(tx.snap)
  {
    hide RootOK, PS.NodesIn;
  }

  lemma LiveMore(txs: seq<KVTX>, ongoing: seq<nat>, snaps: map<nat, Snap>, store: PS.PageStore, tx: KVTX)
    requires LiveOK(txs, ongoing, snaps, store) && tx !in txs
    requires tx.version in snaps && snaps[tx.version] == tx.snap && tx.snapshot.store.base == store
    ensures LiveOK(txs + [tx], ongoing + [tx.version], snaps, store)
  {
  }

  lemma LoggedMore(cc: Control, snaps: map<nat, Snap>)
    requires Logged(cc, snaps)
    ensures Logged(cc.(ongoing := cc.ongoing + [cc.version]), snaps)
    ensures LoggedMany(cc.(ongoing := cc.ongoing + [cc.version]), snaps)
  {
    hide SnapMap, HistoryOK;
    var cc' := cc.(ongoing := cc.ongoing + [cc.version]);
    forall i | 0 <= i < |cc'.ongoing|
      ensures cc'.ongoing[i] in snaps && Unbroken(cc'.history, cc'.ongoing[i], cc'.version)
      ensures Sufficient(cc'.history, cc'.ongoing[i], SnapMap(snaps[cc'.ongoing[i]]), SnapMap(snaps[cc'.version]))
    {
      if i < |cc.ongoing| {
        assert cc'.ongoing[i] == cc.ongoing[i];
      }
    }
  }

  // ---- a commit, step by step ----

  lemma CommitStart(a0: State, snaps: map<nat, Snap>, v: nat, cur: Snap)
    requires StoreOK(SetVer(a0, v), snaps, v, cur) && Idle(SetVer(a0, v))
    ensures Idle(SetVer(a0, v + 1)) && StoreOK(SetVer(a0, v + 1), snaps, v, cur)
    ensures SetVer(SetVer(a0, v + 1), v) == SetVer(a0, v)
  {
    hide SnapPages, SnapStored;
    ItemVersions(SetVer(a0, v), snaps, v);
    SnapsCurVer(SetVer(a0, v), snaps, v, v + 1);
    hide Core, SnapsOK;
    assert SetVer(SetVer(a0, v), v + 1) == SetVer(a0, v + 1);
  }

  lemma ItemVersions(s: State, snaps: map<nat, Snap>, v: nat)
    requires Core(s) && SnapsOK(s, snaps, v)
    ensures Numbers(s) && forall i :: s.headSeq <= i < s.tailSeq ==> s.qver[i] <= v
  {
    hide Domain, Slots, Links, Available, Versions, TreePages, Partition, SinceStart;
  }

  /** The tree of the current version on its idle store. */
  lemma TreeReady(tree: BTree)
    requires !tree.store.inMemory && tree.store.base == null && Idle(tree.store.Abs())
    requires SnapStored(tree.store.ledger.pages, Snap(tree.root, tree.t, tree.h))
    requires tree.store.ledger.inUse == SnapPages(Snap(tree.root, tree.t, tree.h))
    ensures tree.Valid()
  {
    hide Core, RootOK;
  }

  lemma StoreFacts(s: State, snaps: map<nat, Snap>, v: nat, cur: Snap)
    requires StoreOK(s, snaps, v, cur)
    ensures SnapStored(s.pages, cur) && s.inUse == SnapPages(cur) && v in snaps && snaps[v] == cur
  {
    hide Core, SnapStored, SnapPages;
    RestNumbers(s);
  }

  lemma WorkingNow(s0: State, tree: BTree)
    requires Idle(s0) && tree.Valid() && !tree.store.inMemory && tree.store.ledger.start == s0.start
    ensures Working(s0, tree.store.Abs())
    ensures tree.store.Abs().inUse == SnapPages(Snap(tree.root, tree.t, tree.h))
    ensures SnapStored(tree.store.Abs().pages, Snap(tree.root, tree.t, tree.h))
  {
    hide Core, RootOK;
  }

  /** A transaction that passed the conflict check is as good as run on the current map. */
  lemma CheckedTx(m: map<Bytes, Bytes>, now: map<Bytes, Bytes>, ops: seq<Op>, deps: seq<KeyRange>, attempted: bool,
                  history: seq<CommittedTX>, v: nat)
    requires LogOK(m, ops, deps, attempted) && Sufficient(history, v, m, now)
    requires attempted ==> !Conflicting(history, v, deps)
    ensures Unconflicted(PendingOf(ops), m, now)
    ensures Overlay(now, PendingOf(ops)) == Run(now, ops)
    ensures attempted ==> Legal(now, ops)
    ensures !attempted ==> Run(now, ops) == now
  {
    hide Sufficient, Conflicting, SameAt, Compare, Legal, PendingOf, Overlay, Run, FlagOK;
    PendingFlags(ops);
    RunIsOverlay(now, ops);
    if attempted {
      NoConflictSame(history, v, deps, m, now);
      PendingRead(ops, deps);
      SameAnswers(m, now, ops, deps);
    } else {
      OverlayNone(now);
    }
  }

  lemma OverlayNone(m: map<Bytes, Bytes>)
    ensures Overlay(m, map[]) == m
  {
  }

  /** A root page stands for one map only. */
  lemma SameRoot(pages0: map<nat, Node>, pages: map<nat, Node>, sn0: Snap, sn: Snap)
    requires SnapStored(pages0, sn0) && SnapStored(pages, sn) && Grows(pages0, pages) && sn0.root == sn.root
    ensures SnapMap(sn0) == SnapMap(sn)
  {
    hide Visible, Flat;
    if sn.root != 0 {
      SnapGrows(pages0, pages, sn0);
      UniqueTree(pages, sn0.t, sn0.h, sn.t, sn.h);
    }
  }

  ghost function NextSnaps(snaps: map<nat, Snap>, v: nat, sn: Snap): map<nat, Snap> {
    snaps[v + 1 := sn]
  }

  /** The new version as the file will hold it. */
  ghost function NextVersion(s: State, snaps: map<nat, Snap>, v: nat, sn: Snap): Committed {
    Committed(Released(Flush(s), Restrict(NextSnaps(snaps, v, sn), InUse([], v + 1)), v + 1), sn, v + 1)
  }

  lemma NextStored(s0: State, s: State, snaps: map<nat, Snap>, v: nat, cur: Snap, sn: Snap)
    requires Working(s0, s) && StoreOK(s0, snaps, v, cur) && s0.curVer == v + 1
    requires s.inUse == SnapPages(sn) && SnapStored(s.pages, sn) && Grows(s0.pages, s.pages) && sn.root != 0
    ensures var s', snaps' := Flush(s), NextSnaps(snaps, v, sn);
            && StoreOK(s', snaps', v + 1, sn) && SetVer(s', v + 1) == s'
            && CommittedOK(NextVersion(s, snaps, v, sn)) && OnDisk(NextVersion(s, snaps, v, sn)) == VersionOf(s', sn.root, v + 1)
  {
    hide Core, SnapStored, SnapPages, Attached, Idle;
    var s', snaps' := Flush(s), NextSnaps(snaps, v, sn);
    RootUsed(s, sn);
    Flushed(s0, s, sn.root);
    RestNumbers(s0);
    CommitSnaps(s0, s, snaps, v, sn);
    SameLimits(s0, s);
    Finalized(s', snaps', v + 1, sn, [], v + 1);
    NextOK(s', snaps', v + 1, sn);
  }

  lemma RootUsed(s: State, sn: Snap)
    requires s.inUse == SnapPages(sn) && sn.root != 0
    ensures sn.root in s.inUse
  {
  }

  lemma NextOK(s': State, snaps: map<nat, Snap>, v: nat, sn: Snap)
    requires var r := Released(s', Restrict(snaps, InUse([], v)), v); Idle(r) && StoreOK(r, Restrict(snaps, InUse([], v)), v, sn)
    ensures CommittedOK(Committed(Released(s', Restrict(snaps, InUse([], v)), v), sn, v))
  {
    var r := Released(s', Restrict(snaps, InUse([], v)), v);
    hide Core, SnapPages, SnapStored;
    RestNumbers(r);
  }

  /** The store after a failed update: as before, whatever has reached the file. */
  lemma Undone(s0: State, s: State, file: map<nat, Page>, snaps: map<nat, Snap>, v: nat, cur: Snap)
    requires Working(s0, s) && PartlyWritten(s0, s, file) && StoreOK(s0, snaps, v, cur)
    ensures var s' := SetVer(Revert(s0, file), v);
            && Idle(s') && StoreOK(s', snaps, v, cur)
            && OnDisk(Committed(s', cur, v)) == VersionOf(s0, cur.root, v)
  {
    RevertKeeps(s0, s, file);
    hide SnapPages, SnapStored;
    ItemVersions(s0, snaps, v);
    RevertSnaps(s0, file, snaps, v);
    SnapsCurVer(Revert(s0, file), snaps, v, v);
    hide Core, SnapsOK;
  }

  lemma RevertSnaps(s0: State, file: map<nat, Page>, snaps: map<nat, Snap>, v: nat)
    requires Numbers(s0) && Numbers(Revert(s0, file)) && SnapsOK(s0, snaps, v)
    ensures SnapsOK(Revert(s0, file), snaps, v)
  {
    hide SnapPages, SnapStored;
    forall u, i | u in snaps && s0.headSeq <= i < s0.tailSeq ensures Guarded(Revert(s0, file), snaps[u], u, i) {
      assert Guarded(s0, snaps[u], u, i);
    }
  }

  lemma LiveCommit(txs: seq<KVTX>, ongoing: seq<nat>, snaps: map<nat, Snap>, store: PS.PageStore, v: nat, sn: Snap)
    requires LiveOK(txs, ongoing, snaps, store) && v + 1 !in snaps
    ensures LiveOK(txs, ongoing, NextSnaps(snaps, v, sn), store)
  {
  }

  lemma NewVersion(s: State, snaps: map<nat, Snap>, v: nat, cur: Snap)
    requires StoreOK(s, snaps, v, cur)
    ensures forall u :: u in snaps ==> u <= v
  {
    hide Core, SnapPages, SnapStored;
    RestNumbers(s);
  }

  /** The history after a commit. */
  ghost function NextHistory(history: seq<CommittedTX>, v: nat, writes: seq<KeyRange>): seq<CommittedTX> {
    if writes == [] then history else history + [CommittedTX(v, writes)]
  }

  lemma LoggedCommit(cc: Control, snaps: map<nat, Snap>, sn: Snap, writes: seq<KeyRange>)
    requires Logged(cc, snaps) && ByStart(writes) && forall u :: u in snaps ==> u <= cc.version
    requires |cc.ongoing| > 1 ==> RecordsDiff(writes, SnapMap(snaps[cc.version]), SnapMap(sn)) && writes != []
    ensures LoggedMany(Control(cc.version + 1, cc.ongoing, NextHistory(cc.history, cc.version + 1, writes)), NextSnaps(snaps, cc.version, sn))
  {
    hide SnapMap, ByStart, Sufficient, Unbroken, RecordsDiff;
    var v := cc.version + 1;
    var history, snaps' := NextHistory(cc.history, v, writes), NextSnaps(snaps, cc.version, sn);
    if |cc.ongoing| > 1 {
      forall i | 0 <= i < |cc.ongoing|
        ensures cc.ongoing[i] in snaps' && Unbroken(history, cc.ongoing[i], v)
        ensures Sufficient(history, cc.ongoing[i], SnapMap(snaps'[cc.ongoing[i]]), SnapMap(snaps'[v]))
      {
        var u := cc.ongoing[i];
        UnbrokenNext(cc.history, u, cc.version, CommittedTX(v, writes));
        SufficientNext(cc.history, u, SnapMap(snaps[u]), SnapMap(snaps[cc.version]), SnapMap(sn), v, writes);
      }
    }
  }

  lemma SufficientNext(history: seq<CommittedTX>, u: nat, before: map<Bytes, Bytes>, mid: map<Bytes, Bytes>, now: map<Bytes, Bytes>,
                       v: nat, writes: seq<KeyRange>)
    requires Sufficient(history, u, before, mid) && u < v && RecordsDiff(writes, mid, now)
    ensures Sufficient(NextHistory(history, v, writes), u, before, now)
  {
    if writes == [] {
      forall k | !SameAt(before, now, k) ensures Recorded(history, u, k) {
        assert Point(k) !in writes && SameAt(mid, now, k);
        assert !SameAt(before, mid, k);
      }
    } else {
      SufficientMore(history, u, before, mid, now, CommittedTX(v, writes));
    }
  }

  lemma SerializedCommit(memo: Memo, v: nat, sn: Snap, ops: seq<Op>)
    requires Serialized(memo, v) && v + 1 !in memo.snaps
    requires Legal(SnapMap(memo.snaps[v]), ops) && SnapMap(sn) == Run(SnapMap(memo.snaps[v]), ops)
    ensures Serialized(memo.(snaps := NextSnaps(memo.snaps, v, sn), journal := memo.journal + [ops],
                             points := memo.points[v + 1 := |memo.journal| + 1]), v + 1)
  {
    hide SnapMap, RunAll, SerialRun, Run, Legal;
    var memo' := memo.(snaps := NextSnaps(memo.snaps, v, sn), journal := memo.journal + [ops],
                       points := memo.points[v + 1 := |memo.journal| + 1]);
    RunAllMore(memo.origin, memo.journal, ops);
    forall u | u in memo'.snaps
      ensures u in memo'.points && memo'.points[u] <= |memo'.journal|
      ensures SnapMap(memo'.snaps[u]) == RunAll(memo'.origin, memo'.journal[..memo'.points[u]])
    {
      if u == v + 1 {
        assert memo'.journal[..|memo'.journal|] == memo'.journal;
      } else {
        assert memo'.journal[..memo.points[u]] == memo.journal[..memo.points[u]];
      }
    }
  }

  /** A transaction without net effect. */
  lemma SerializedSame(memo: Memo, v: nat, ops: seq<Op>)
    requires Serialized(memo, v)
    requires Legal(SnapMap(memo.snaps[v]), ops) && Run(SnapMap(memo.snaps[v]), ops) == SnapMap(memo.snaps[v])
    ensures Serialized(memo.(journal := memo.journal + [ops]), v)
  {
    hide SnapMap, RunAll, SerialRun, Run, Legal;
    RunAllMore(memo.origin, memo.journal, ops);
    forall u | u in memo.snaps ensures (memo.journal + [ops])[..memo.points[u]] == memo.journal[..memo.points[u]] {
    }
  }

  // ---- crashes ----

  /** Whatever subset of the unsynced writes survives, opening the file gives the map `a` or the map `b`. */
  ghost predicate Recovers(d: Disk, a: map<Bytes, Bytes>, b: map<Bytes, Bytes>) {
    forall mask: seq<bool> :: |mask| == |d.dirty| ==>
      Opens(Survive(d.synced, d.dirty, mask), a) || Opens(Survive(d.synced, d.dirty, mask), b)
  }

  /** A crash at any moment recovers the map `old_`, or one of `other` and `new_`. */
  ghost predicate MomentsOK(moments: seq<Disk>, old_: map<Bytes, Bytes>, other: map<Bytes, Bytes>, new_: map<Bytes, Bytes>) {
    forall i :: 0 <= i < |moments| ==> Recovers(moments[i], old_, other) || Recovers(moments[i], old_, new_)
  }

  lemma NothingYet(old_: map<Bytes, Bytes>, other: map<Bytes, Bytes>, new_: map<Bytes, Bytes>)
    ensures MomentsOK([], old_, other, new_)
  {
  }

  lemma RecoverableOpens(d: Disk, a: Committed, b: Committed)
    requires Recoverable(d, OnDisk(a), OnDisk(b)) && CommittedOK(a) && CommittedOK(b) && a.sn.root != 0 && b.sn.root != 0
    ensures Recovers(d, SnapMap(a.sn), SnapMap(b.sn))
  {
    hide Recoverable, CommittedOK, Loads, SnapMap, Survive, OnDisk;
    forall mask: seq<bool> | |mask| == |d.dirty|
      ensures Opens(Survive(d.synced, d.dirty, mask), SnapMap(a.sn)) || Opens(Survive(d.synced, d.dirty, mask), SnapMap(b.sn))
    {
      CrashLoads(d, OnDisk(a), OnDisk(b), mask);
    }
  }

  lemma RecoversEither(d: Disk, a: map<Bytes, Bytes>, b: map<Bytes, Bytes>)
    requires Recovers(d, a, a)
    ensures Recovers(d, a, b)
  {
    hide Opens, Survive;
  }

  /** Every moment of the update recovers the old map, or one of the two others. */
  lemma MomentsRecover(moments: seq<Disk>, cur: Committed, other: Committed, next: Committed)
    requires AllSafe(moments, OnDisk(cur), OnDisk(other), OnDisk(next))
    requires CommittedOK(cur) && CommittedOK(other) && CommittedOK(next)
    requires cur.sn.root != 0 && other.sn.root != 0 && next.sn.root != 0
    ensures MomentsOK(moments, SnapMap(cur.sn), SnapMap(other.sn), SnapMap(next.sn))
  {
    hide Recoverable, CommittedOK, SnapMap, VersionOf;
    forall i | 0 <= i < |moments|
      ensures Recovers(moments[i], SnapMap(cur.sn), SnapMap(other.sn)) || Recovers(moments[i], SnapMap(cur.sn), SnapMap(next.sn))
    {
      MomentRecovers(moments[i], cur, other, next);
    }
  }

  lemma MomentRecovers(d: Disk, cur: Committed, other: Committed, next: Committed)
    requires Safe(d, OnDisk(cur), OnDisk(other)) || Safe(d, OnDisk(cur), OnDisk(cur)) || Safe(d, OnDisk(cur), OnDisk(next))
    requires CommittedOK(cur) && CommittedOK(other) && CommittedOK(next)
    requires cur.sn.root != 0 && other.sn.root != 0 && next.sn.root != 0
    ensures Recovers(d, SnapMap(cur.sn), SnapMap(other.sn)) || Recovers(d, SnapMap(cur.sn), SnapMap(next.sn))
  {
    hide Recoverable, CommittedOK, SnapMap, Recovers;
    if Safe(d, OnDisk(cur), OnDisk(other)) {
      RecoverableOpens(d, cur, other);
    } else if Safe(d, OnDisk(cur), OnDisk(next)) {
      RecoverableOpens(d, cur, next);
    } else {
      RecoverableOpens(d, cur, cur);
      RecoversEither(d, SnapMap(cur.sn), SnapMap(next.sn));
    }
  }

  // ---- durability ----

  /** The number of the next version is not on disk. */
  lemma VersionSame(a: State, v1: nat, v2: nat, root: nat, version: nat)
    ensures VersionOf(SetVer(a, v1), root, version) == VersionOf(SetVer(a, v2), root, version)
    ensures VersionOf(SetVer(a, v1), root, version).meta == MetaOf(a, root, version)
  {
  }

  lemma DurableFacts(disk: Disk, file: map<nat, Page>, failed: bool, cur: Committed, other: Committed)
    requires Durable(disk, file, failed, cur, other)
    ensures Safe(disk, OnDisk(cur), OnDisk(other)) && (!failed ==> Safe(disk, OnDisk(cur), OnDisk(cur)))
    ensures file == Seen(disk).pages
    ensures cur.sn.root != 0 ==> CommittedOK(other) && other.sn.root != 0
  {
    hide Recoverable, CommittedOK, SnapMap;
  }

  lemma DurableDone(disk: Disk, file: map<nat, Page>, cur: Committed, next: Committed)
    requires file == Seen(disk).pages && disk.dirty == [] && CommittedOK(next) && next.sn == cur.sn && cur.sn.root != 0
    requires OnDisk(cur) == OnDisk(next) && Recoverable(disk, OnDisk(next), OnDisk(next))
    ensures Durable(disk, file, false, cur, next)
  {
    hide Recoverable, CommittedOK, SnapMap;
  }

  /** What the file may hold after a failed update: the old version, or the one that was being written. */
  ghost function OtherAfter(disk: Disk, cur: Committed, next: Committed): Committed {
    if Safe(disk, OnDisk(cur), OnDisk(next)) then next else cur
  }

  lemma DurableReverted(disk: Disk, file: map<nat, Page>, old_: Committed, cur: Committed, next: Committed)
    requires file == Seen(disk).pages && CommittedOK(next) && CommittedOK(old_) && next.sn.root != 0 && old_.sn == cur.sn
    requires OnDisk(cur) == OnDisk(old_) && (Safe(disk, OnDisk(old_), OnDisk(old_)) || Safe(disk, OnDisk(old_), OnDisk(next)))
    ensures Durable(disk, file, true, cur, OtherAfter(disk, old_, next))
  {
    hide Recoverable, CommittedOK, SnapMap;
  }

  lemma CommittedNow(a: State, snaps: map<nat, Snap>, v: nat, cur: Snap)
    requires StoreOK(SetVer(a, v), snaps, v, cur) && Idle(SetVer(a, v))
    ensures CommittedOK(Committed(SetVer(a, v), cur, v))
  {
    hide Core, SnapStored, SnapPages;
    RestNumbers(SetVer(a, v));
  }

  lemma NoMoments(cur: Version, other: Version, next: Version)
    ensures AllSafe([], cur, other, next)
  {
  }

  lemma NextRoot(s: State, snaps: map<nat, Snap>, v: nat, sn: Snap)
    ensures NextVersion(s, snaps, v, sn).sn == sn && NextVersion(s, snaps, v, sn).version == v + 1
  {
  }

  lemma UnrevertedRecovers(d: Disk, cur: Committed, other: Committed)
    requires Safe(d, OnDisk(cur), OnDisk(other)) && CommittedOK(cur) && CommittedOK(other)
    requires cur.sn.root != 0 && other.sn.root != 0
    ensures Recovers(d, SnapMap(cur.sn), SnapMap(other.sn))
  {
    hide Recoverable, CommittedOK, SnapMap, Recovers;
    RecoverableOpens(d, cur, other);
  }

  /** Everything the update of the file needs to know. */
  lemma PublishStart(a0: State, s: State, snaps: map<nat, Snap>, v: nat, sn0: Snap, sn: Snap,
                     disk: Disk, file: map<nat, Page>, failed: bool, other: Committed)
    requires Idle(SetVer(a0, v)) && StoreOK(SetVer(a0, v), snaps, v, sn0)
    requires Working(SetVer(a0, v + 1), s) && Grows(a0.pages, s.pages)
    requires SnapStored(s.pages, sn) && s.inUse == SnapPages(sn) && sn.root != 0
    requires Durable(disk, file, failed, Committed(SetVer(a0, v), sn0, v), other)
    ensures var s0, cur, next := SetVer(a0, v + 1), Committed(SetVer(a0, v), sn0, v), NextVersion(s, snaps, v, sn);
            && CommittedOK(cur) && CommittedOK(next) && sn.root in s.inUse && next.sn == sn && file == Seen(disk).pages
            && VersionOf(s0, sn0.root, v) == OnDisk(cur) && VersionOf(Flush(s), sn.root, v + 1) == OnDisk(next)
            && StoreOK(Flush(s), NextSnaps(snaps, v, sn), v + 1, sn) && SetVer(Flush(s), v + 1) == Flush(s)
            && Safe(disk, OnDisk(cur), OnDisk(other)) && (!failed ==> Safe(disk, OnDisk(cur), OnDisk(cur)))
            && AllSafe([], OnDisk(cur), OnDisk(other), OnDisk(next))
            && (sn0.root != 0 ==> CommittedOK(other) && other.sn.root != 0)
            && MetaOf(s0, sn0.root, v) == MetaOf(a0, sn0.root, v)
  {
    hide Idle, StoreOK, Durable, Working, Grows, SnapStored, SnapPages, SnapMap, Safe, VersionOf, AllSafe, Flush, CommittedOK, NextSnaps, NextVersion;
    CommitStart(a0, snaps, v, sn0);
    CommittedNow(a0, snaps, v, sn0);
    VersionSame(a0, v, v + 1, sn0.root, v);
    DurableFacts(disk, file, failed, Committed(SetVer(a0, v), sn0, v), other);
    RootUsed(s, sn);
    NextStored(SetVer(a0, v + 1), s, snaps, v, sn0, sn);
    NextRoot(s, snaps, v, sn);
    NoMoments(OnDisk(Committed(SetVer(a0, v), sn0, v)), OnDisk(other), OnDisk(NextVersion(s, snaps, v, sn)));
  }

  lemma PublishMoments(moments: seq<Disk>, d: Disk, cur: Committed, other: Committed, next: Committed, unreverted: bool)
    requires AllSafe(moments, OnDisk(cur), OnDisk(other), OnDisk(next)) && CommittedOK(cur) && CommittedOK(next) && next.sn.root != 0
    requires cur.sn.root != 0 ==> CommittedOK(other) && other.sn.root != 0
    requires unreverted ==> Safe(d, OnDisk(cur), OnDisk(other))
    ensures cur.sn.root != 0 ==> MomentsOK(moments, SnapMap(cur.sn), SnapMap(other.sn), SnapMap(next.sn))
    ensures cur.sn.root != 0 && unreverted ==> Recovers(d, SnapMap(cur.sn), SnapMap(other.sn))
  {
    hide AllSafe, CommittedOK, Recovers, SnapMap, Safe;
    if cur.sn.root != 0 {
      MomentsRecover(moments, cur, other, next);
      if unreverted {
        UnrevertedRecovers(d, cur, other);
      }
    }
  }

  lemma PublishUndone(a0: State, s: State, snaps: map<nat, Snap>, v: nat, sn0: Snap, next: Committed, disk: Disk, file: map<nat, Page>)
    requires Idle(SetVer(a0, v)) && StoreOK(SetVer(a0, v), snaps, v, sn0)
    requires Working(SetVer(a0, v + 1), s) && PartlyWritten(SetVer(a0, v + 1), s, file)
    requires file == Seen(disk).pages && CommittedOK(next) && next.sn.root != 0
    requires var cur := OnDisk(Committed(SetVer(a0, v), sn0, v)); Safe(disk, cur, cur) || Safe(disk, cur, OnDisk(next))
    ensures var s', cur := SetVer(Revert(SetVer(a0, v + 1), file), v), Committed(SetVer(a0, v), sn0, v);
            && Idle(s') && StoreOK(s', snaps, v, sn0)
            && Durable(disk, file, true, Committed(s', sn0, v), OtherAfter(disk, cur, next))
  {
    hide Idle, StoreOK, Durable, Working, PartlyWritten, SnapMap, Safe, VersionOf, Revert, CommittedOK, OtherAfter;
    var cur := Committed(SetVer(a0, v), sn0, v);
    CommitStart(a0, snaps, v, sn0);
    CommittedNow(a0, snaps, v, sn0);
    VersionSame(a0, v, v + 1, sn0.root, v);
    Undone(SetVer(a0, v + 1), s, file, snaps, v, sn0);
    DurableReverted(disk, file, cur, Committed(SetVer(Revert(SetVer(a0, v + 1), file), v), sn0, v), next);
  }

  lemma CurrentSnap(s: State, snaps: map<nat, Snap>, v: nat, cur: Snap)
    requires StoreOK(s, snaps, v, cur)
    ensures v in snaps && snaps[v] == cur
  {
    hide Core, SnapStored, SnapPages;
    RestNumbers(s);
  }

  lemma DurableRecovers(disk: Disk, file: map<nat, Page>, failed: bool, cur: Committed, other: Committed)
    requires Durable(disk, file, failed, cur, other) && CommittedOK(cur)
    ensures cur.sn.root != 0 ==> Recovers(disk, SnapMap(cur.sn), SnapMap(other.sn))
  {
    hide Recoverable, CommittedOK, SnapMap, Recovers, VersionOf;
    if cur.sn.root != 0 {
      RecoverableOpens(disk, cur, other);
    }
  }

  lemma SerializedOther(memo: Memo, other: Committed, v: nat)
    requires Serialized(memo, v)
    ensures Serialized(memo.(other := other), v)
  {
    hide SnapMap, RunAll, SerialRun;
  }

  lemma LoggedOne(cc: Control, snaps: map<nat, Snap>, j: nat)
    requires Logged(cc, snaps) && j < |cc.ongoing|
    ensures HistoryOK(cc.history, cc.version) && Unbroken(cc.history, cc.ongoing[j], cc.version)
  {
  }

  lemma EqualMaps(m: map<Bytes, Bytes>, m': map<Bytes, Bytes>)
    requires forall k :: SameAt(m, m', k)
    ensures m == m'
  {
    assert forall k :: k in m ==> SameAt(m, m', k);
    assert forall k :: k in m' ==> SameAt(m, m', k);
  }

  /** Which items are blocked when `maxVer` is the oldest version in use. */
  lemma OldestHolds(s: State, snaps: map<nat, Snap>, version: nat, cur: Snap, ongoing: seq<nat>)
    requires StoreOK(s, snaps, version, cur) && Idle(s) && Oldest(s.maxVer, ongoing, version)
    ensures Numbers(s) && s.maxSeq == s.tailSeq
    ensures forall i :: s.headSeq <= i < s.tailSeq ==> (s.maxVer < s.qver[i] <==> exists u :: u in ongoing && u < s.qver[i])
  {
    hide Core, SnapPages, SnapStored;
    RestNumbers(s);
    forall i | s.headSeq <= i < s.tailSeq ensures s.maxVer < s.qver[i] <==> exists u :: u in ongoing && u < s.qver[i] {
      assert s.qver[i] <= version;
      if s.maxVer < s.qver[i] {
        assert s.maxVer in ongoing;
      }
    }
  }

  /** Where two maps differ, something is recorded. */
  lemma SomethingRecorded(writes: seq<KeyRange>, m: map<Bytes, Bytes>, m': map<Bytes, Bytes>)
    requires m != m'
    ensures RecordsDiff(writes, m, m') ==> writes != []
  {
    if forall k :: SameAt(m, m', k) {
      EqualMaps(m, m');
    }
  }

  lemma LoggedStill(cc: Control, snaps: map<nat, Snap>)
    requires Logged(cc, snaps)
    ensures LoggedMany(cc, snaps)
  {
  }

  lemma SameRecords(writes: seq<KeyRange>, sorted: seq<KeyRange>, m: map<Bytes, Bytes>, m': map<Bytes, Bytes>)
    requires multiset(sorted) == multiset(writes)
    ensures RecordsDiff(sorted, m, m') == RecordsDiff(writes, m, m')
  {
    hide SameAt;
    SameElements(sorted, writes);
  }

  lemma NoRanges()
    ensures ByStart([])
  {
  }

  lemma InstallStart(a0: State, snaps: map<nat, Snap>, v: nat, cur: Snap, disk: Disk, file: map<nat, Page>, failed: bool, other: Committed)
    requires StoreOK(SetVer(a0, v), snaps, v, cur) && Idle(SetVer(a0, v))
    requires Durable(disk, file, failed, Committed(SetVer(a0, v), cur, v), other)
    ensures cur.root != 0 ==> Recovers(disk, SnapMap(cur), SnapMap(other.sn))
    ensures v in snaps && snaps[v] == cur && forall u :: u in snaps ==> u <= v
    ensures SetVer(SetVer(a0, v + 1), v) == SetVer(a0, v)
  {
    hide StoreOK, Idle, Durable, Recovers, SnapMap, CommittedOK;
    CommittedNow(a0, snaps, v, cur);
    DurableRecovers(disk, file, failed, Committed(SetVer(a0, v), cur, v), other);
    CurrentSnap(SetVer(a0, v), snaps, v, cur);
    NewVersion(SetVer(a0, v), snaps, v, cur);
  }

  // ---- opening a file ----

  /** The checks that opening a file makes on its meta record. */
  predicate MetaFits(meta: Meta, filePages: nat) {
    && 0 < meta.flushed <= filePages
    && 0 < meta.root < meta.flushed
    && 0 < meta.headPage < meta.flushed
    && 0 < meta.tailPage < meta.flushed
  }

  /** A file that holds a whole version passes the checks. */
  lemma LoadedFits(img: Image, filePages: nat, c: Committed)
    requires CommittedOK(c) && c.sn.root != 0 && Loads(img, OnDisk(c))
    requires forall p :: p in img.pages ==> p < filePages
    ensures MetaFits(OnDisk(c).meta, filePages)
  {
    RootInside(c);
    RootUsed(c.s, c.sn);
    hide Slots, Links, Available, Versions, TreePages, SinceStart, PageFits, SnapPages, SnapStored;
    Roles(c.s, c.sn.root);
    ListPageRole(c.s, c.s.headSeq / CAP);
    ListPageRole(c.s, |c.s.chain| - 1);
    assert c.s.flushed - 1 in img.pages;
  }

  /** The ledger of a file that has just been opened. */
  ghost function OpenLedger(c: Committed): Ledger {
    Ledger(c.s.chain, c.s.qptr, c.s.qver, c.s.pages, {}, c.s.inUse, multiset{}, multiset{}, c.s.start)
  }

  ghost function OpenMemo(c: Committed, s: State): Memo {
    Memo(map[c.version := c.sn], Committed(s, c.sn, c.version), SnapMap(c.sn), [], map[c.version := 0])
  }

  /** The state after opening a file. */
  lemma OpenState(img: Image, c: Committed, a: State)
    requires CommittedOK(c) && c.sn.root != 0 && Loads(img, OnDisk(c))
    requires SetVer(a, c.version) == SetVer(Reopened(c, img.pages), c.version)
    ensures var s := SetVer(a, c.version);
            && Idle(s) && StoreOK(s, map[c.version := c.sn], c.version, c.sn)
            && CommittedOK(Committed(s, c.sn, c.version)) && OnDisk(Committed(s, c.sn, c.version)) == OnDisk(c)
  {
    var s, r := SetVer(a, c.version), Reopened(c, img.pages);
    hide Core, SnapPages, SnapStored, ImageFits;
    ReopenKeeps(c, img.pages);
    RestNumbers(c.s);
    SetVerKeeps(r, c.version);
    RestNumbers(s);
    forall i | s.headSeq <= i < s.tailSeq ensures Guarded(s, c.sn, c.version, i) {
      NotQueued(s, c.sn, i);
    }
    assert OnDisk(Committed(s, c.sn, c.version)).nodes == OnDisk(c).nodes;
  }

  lemma NotQueued(s: State, sn: Snap, i: nat)
    requires Core(s) && Numbers(s) && s.inUse == SnapPages(sn) && s.headSeq <= i < s.tailSeq
    ensures s.qptr[i] !in SnapPages(sn)
  {
    hide Domain, Slots, Links, Available, Versions, TreePages, SinceStart, SnapPages;
    QueueRole(s, i);
  }

  lemma OpenSound(img: Image, c: Committed, s: State)
    requires CommittedOK(Committed(s, c.sn, c.version)) && OnDisk(Committed(s, c.sn, c.version)) == OnDisk(c)
    requires c.sn.root != 0 && Loads(img, OnDisk(c))
    ensures var memo := OpenMemo(c, s);
            && Durable(Disk(img, []), img.pages, false, Committed(s, c.sn, c.version), memo.other)
            && Logged(Control(c.version, [], []), memo.snaps) && LoggedMany(Control(c.version, [], []), memo.snaps)
            && Serialized(memo, c.version)
  {
    hide CommittedOK, VersionOf, SnapMap, ImageFits;
    Settled(Disk(img, []), OnDisk(c), OnDisk(c));
  }

  /** What opening reads from the meta record and puts into the store, as a state. */
  lemma OpenedIs(c: Committed, file: map<nat, Page>, free: FreeList, page: PageInfo)
    requires CommittedOK(c)
    requires var m := OnDisk(c).meta;
             page == PageInfo(m.flushed, 0, map[]) && free == FreeList(m.headPage, m.headSeq, m.tailPage, m.tailSeq, 0, 0, 0)
    ensures SetVer(Restart(Whole(file, page, free, OpenLedger(c)), OnDisk(c).nodes, c.version), c.version)
            == SetVer(Reopened(c, file), c.version)
  {
    hide Core, SnapPages, SnapStored;
  }

  lemma StoreAbs(store: PS.PageStore)
    ensures store.Abs() == Whole(store.file, store.page, store.free, store.ledger)
  {
  }

  lemma NoTransactions(snaps: map<nat, Snap>, store: PS.PageStore)
    ensures LiveOK([], [], snaps, store)
    ensures 0 in snaps ==> LoggedMany(Control(0, [], []), snaps)
  {
  }

  // ---- pages ----

  lemma ConservedIn(s: State, snaps: map<nat, Snap>, v: nat, cur: Snap, p: nat)
    requires StoreOK(s, snaps, v, cur)
    ensures Numbers(s) && SnapPages(cur)[p] + multiset(ListPages(s))[p] + multiset(Queue(s))[p] == if 1 <= p < s.flushed then 1 else 0
  {
    hide Domain, Slots, Links, Available, Versions, TreePages, SinceStart, SnapPages, SnapStored, Partition;
    Roles(s, p);
  }

  lemma ReaderPageIn(s: State, snaps: map<nat, Snap>, v: nat, cur: Snap, u: nat, p: nat)
    requires StoreOK(s, snaps, v, cur) && u in snaps && p in SnapPages(snaps[u])
    ensures p in SnapPages(cur) ||
            exists i :: s.headSeq <= i < |s.qver| && i < |s.qptr| && s.qptr[i] == p && u < s.qver[i] && s.maxVer < s.qver[i]
  {
    hide Slots, Links, Versions, SinceStart, SnapPages, SnapStored, Partition, Domain;
    PagesStored(s.pages, snaps[u]);
    Roles(s, p);
    FrozenNotListed(s, p);
    if p !in SnapPages(cur) {
      assert p in Queue(s);
      var k :| 0 <= k < |Queue(s)| && Queue(s)[k] == p;
      assert Guarded(s, snaps[u], u, s.headSeq + k);
    }
  }

  lemma FrozenNotListed(s: State, p: nat)
    requires Core(s) && p in s.pages
    ensures Numbers(s) && p !in multiset(ListPages(s)) && 1 <= p < End(s)
  {
    hide Slots, Links, Versions, SinceStart, Partition, Domain;
    forall k | 0 <= k < |ListPages(s)| ensures ListPages(s)[k] != p {
      assert !Frozen(s, s.chain[s.headSeq / CAP + k]);
    }
  }
}
