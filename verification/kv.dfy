/** The key-value store: Begin, Commit and Abort over one file. */
module KVStore {
  import opened Bytes
  import opened Nodes
  import opened Trees
  import opened TreeOps
  import opened PageState
  import opened PageSteps
  import opened Epochs
  import opened BTrees
  import opened DiskModel
  import opened Snapshots
  import opened Readers
  import opened FileUpdates
  import opened Conflicts
  import opened Serial
  import opened Slices
  import opened Transactions
  import opened Transfer
  import opened Commits
  import opened Histories
  import PS = PageStore
  import TF = TreeFits

  /** How the update of the file ended. `Unreverted`: the meta record could not be rewritten. */
  datatype UpdateOut = Done | Reverted | Unreverted

  /** How an update of the file ends that has to write `n` pages. */
  ghost function UpdateResult(failed: bool, faults: Faults, n: nat): UpdateOut {
    if failed && faults.Unsettled() then Unreverted
    else if faults.Hits(n) then Reverted
    else Done
  }

  /**
   * How a commit ended. The last four end the run. `Stuck`: the file and the memory disagree. `NoSpace`: a node
   * overflowed its page. `LoopFails`, `LoopForever`: the loop over the pending updates does not end, because
   * their tree is too deep.
   */
  datatype CommitOut = CommitOK | ConflictError | WriteError | Stuck | NoSpace | LoopFails | LoopForever

  /** What a commit reports of the update of the file. */
  function Reported(out: UpdateOut): CommitOut {
    match out
    case Done => CommitOK
    case Reverted => WriteError
    case Unreverted => Stuck
  }

  /** The commit has got as far as the file. */
  predicate Attempted(out: CommitOut) {
    out.CommitOK? || out.WriteError? || out.Stuck?
  }

  /**
   * How a commit ends at the file: without a change nothing is written; otherwise the outcome follows from the
   * failing calls. `was`, `now`: has the last update failed? `steps`: how many calls have succeeded.
   */
  ghost predicate FileEnd(out: CommitOut, changed: bool, faults: Faults, was: bool, now: bool, batch: nat, steps: nat) {
    if !Attempted(out) then now == was
    else if !changed then out.CommitOK? && now == was && steps == 0
    else
      && out == Reported(UpdateResult(was, faults, batch)) && now == !out.CommitOK?
      && (out.CommitOK? ==> steps == batch + 3 + if was then 2 else 0)
  }

  /** The transaction is over and the database can go on. */
  predicate GoesOn(out: CommitOut) {
    out.CommitOK? || out.ConflictError? || out.WriteError?
  }

  class KV {
    const tree: BTree
    var disk: Disk
    var failed: bool  // did the last update fail?
    var cc: Control
    ghost var memo: Memo
    ghost var txs: seq<KVTX>
    ghost var moments: seq<Disk>  // the states the file went through in the last commit
    ghost var batch: nat  // how many pages the last update of the file had to write

    ghost function Cur(): Snap
      reads tree
    {
      Snap(tree.root, tree.t, tree.h)
    }

    /** The page store; the number of the next version is set when a commit begins. */
    ghost function Pages(): State
      reads this`cc, tree.store
    {
      SetVer(tree.store.Abs(), cc.version)
    }

    /** The map that the next transaction will see. */
    ghost function Contents(): map<Bytes, Bytes>
      reads tree
    {
      SnapMap(Cur())
    }

    ghost predicate Sound()
      reads this`disk, this`failed, this`cc, this`memo, this`txs, tree, tree.store
    {
      && !tree.store.inMemory && tree.store.base == null
      && StoreOK(Pages(), memo.snaps, cc.version, Cur())
      && LiveOK(txs, cc.ongoing, memo.snaps, tree.store)
      && LoggedMany(cc, memo.snaps)
      && Durable(disk, tree.store.file, failed, Committed(Pages(), Cur(), cc.version), memo.other)
      && Serialized(memo, cc.version) && Traced(memo, cc.version, cc.history)
    }

    /** Between two calls of Begin, Commit and Abort. */
    ghost predicate Valid()
      reads this`disk, this`failed, this`cc, this`memo, this`txs, tree, tree.store
    {
      && Sound() && Idle(Pages()) && Logged(cc, memo.snaps)
      && Tidy(tree.store.free.maxVer, cc.ongoing, cc.version, cc.history)
    }

    /** Create a database file. */
    constructor New()
      ensures Valid() && tree.root == 0 && Contents() == map[] && cc == Control(0, [], []) && txs == []
      ensures fresh(tree) && fresh(tree.store)
    {
      hide Idle, StoreOK, Durable, Serialized, Traced, LiveOK, RunAll, SerialRun, SnapMap, HistoryOK, LoggedMany, Logged;
      var store := new PS.PageStore.OnFile(map[1 := ZERO], PageInfo(2, 0, map[]), FreeList(1, 0, 1, 0, 0, 0, 0), NewLedger());
      tree := new BTree.Snapshot(store, 0, Leaf([]), 0);
      disk, failed, cc := Disk(Image(map[1 := ZERO], NoMeta), []), false, Control(0, [], []);
      var sn := Snap(0, Leaf([]), 0);
      memo := Memo(map[0 := sn], Committed(NewState(), sn, 0), map[], [], map[0 := 0]);
      txs, moments := [], [];
      NewSound(sn);
      TracedNone(Memo(map[0 := sn], Committed(NewState(), sn, 0), map[], [], map[0 := 0]), 0);
      NoTransactions(map[0 := sn], store);
    }

    /**
     * Take the meta record of a file over. If the file holds the version `c`, which is what a crash leaves
     * behind, this is a valid database with the map of that version.
     */
    constructor Open(img: Image, ghost c: Committed)
      requires img.meta.SomeMeta?
      ensures CommittedOK(c) && c.sn.root != 0 && Loads(img, OnDisk(c)) ==>
                Valid() && Contents() == SnapMap(c.sn) && cc == Control(c.version, [], []) && txs == []
      ensures fresh(tree) && fresh(tree.store)
    {
      hide Idle, StoreOK, Durable, Serialized, Traced, RunAll, SerialRun, SnapMap, HistoryOK, CommittedOK, ImageFits,
        Logged, LoggedMany, Reopened, Restart, SetVer, PS.PageStore.Abs, VersionOf;
      var meta := img.meta.meta;
      ghost var held := CommittedOK(c) && c.sn.root != 0 && Loads(img, OnDisk(c));
      var store := new PS.PageStore.OnFile(
        img.pages, PageInfo(meta.flushed, 0, map[]), FreeList(meta.headPage, meta.headSeq, meta.tailPage, meta.tailSeq, 0, 0, 0),
        OpenLedger(c));
      if held {
        MetaInVersion(c.s, c.sn.root, c.version);
        OpenedIs(c, img.pages, store.free, store.page);
        StoreAbs(store);
      }
      store.SetMaxVer(meta.version, OnDisk(c).nodes);
      if held {
        OpenState(img, c, store.Abs());
      }
      tree := new BTree.Snapshot(store, meta.root, c.sn.t, c.sn.h);
      disk, failed, cc := Disk(img, []), false, Control(meta.version, [], []);
      memo := OpenMemo(c, SetVer(store.Abs(), meta.version));
      txs, moments := [], [];
      if held {
        OpenSound(img, c, SetVer(store.Abs(), meta.version));
        TracedNone(OpenMemo(c, SetVer(store.Abs(), meta.version)), meta.version);
      }
    }

    /**
     * Open a file of `size` bytes: a new database if it is empty, an error, here null, if the size or the meta
     * record is wrong, and otherwise what the meta record says.
     */
    static method OpenFile(img: Image, size: nat, ghost c: Committed) returns (kv: KV?)
      ensures kv != null ==> fresh(kv) && fresh(kv.tree) && fresh(kv.tree.store)
      ensures size == 0 ==> kv != null && kv.Valid() && kv.Contents() == map[]
      ensures size != 0 ==>
                (kv != null <==>
                 && size % PAGE == 0 && img.meta.SomeMeta?
                 && var m := img.meta.meta;
                    0 < m.flushed <= size / PAGE && 0 < m.root < m.flushed && 0 < m.headPage < m.flushed && 0 < m.tailPage < m.flushed)
      ensures size != 0 && size % PAGE == 0 && CommittedOK(c) && c.sn.root != 0 && Loads(img, OnDisk(c))
              && (forall p :: p in img.pages ==> p < size / PAGE) ==>
                kv != null && kv.Valid() && kv.Contents() == SnapMap(c.sn)
    {
      hide Idle, StoreOK, Durable, Serialized, Traced, RunAll, SerialRun, SnapMap, HistoryOK, CommittedOK, ImageFits, VersionOf, KV.Valid;
      if size == 0 {
        kv := new KV.New();
        return;
      }
      if size % PAGE != 0 || img.meta.NoMeta? {
        return null;
      }
      if CommittedOK(c) && c.sn.root != 0 && Loads(img, OnDisk(c)) && forall p :: p in img.pages ==> p < size / PAGE {
        LoadedFits(img, size / PAGE, c);
      }
      if !MetaFits(img.meta.meta, size / PAGE) {
        return null;
      }
      kv := new KV.Open(img, c);
    }

    /** A transaction on the current version. */
    method Begin() returns (tx: KVTX)
      requires Valid()
      modifies this`cc, this`txs
      ensures Valid() && fresh(tx) && fresh(tx.pending) && fresh(tx.pending.store) && fresh(tx.snapshot)
      ensures tx.Own() && tx.snapshot.Readable() && !tx.done && tx.ops == [] && tx.Sees() == Contents()
      ensures txs == old(txs) + [tx] && cc == old(cc).(ongoing := old(cc.ongoing) + [cc.version])
    {
      hide StoreOK, LiveOK, Logged, LoggedMany, Durable, Serialized, Traced, Idle, SnapPages, Visible, RootOK, PS.NodesIn, BTree.Readable, KVTX.Own, KVTX.Sees,
        SnapMap, PS.PageStore.Inv, BTree.Valid;
      CurrentReadable(Pages(), memo.snaps, cc.version, Cur());
      var view := new PS.PageStore.View(tree.store);
      var snapshot := new BTree.Snapshot(view, tree.root, tree.t, tree.h);
      tx := new KVTX(cc.version, snapshot, Cur());
      LiveMore(txs, cc.ongoing, memo.snaps, tree.store, tx);
      LoggedMore(cc, memo.snaps);
      SnapshotView(tree, tx);
      cc := cc.(ongoing := cc.ongoing + [cc.version]);
      txs := txs + [tx];
    }

    // ---- the file ----

    /** One write; on an error nothing is written. */
    method Pwrite(w: Write, fault: bool) returns (err: bool)
      modifies this`disk, this`moments
      ensures err == fault
      ensures err ==> disk == old(disk) && moments == old(moments)
      ensures !err ==> disk == Issue(old(disk), w) && moments == old(moments) + [disk]
    {
      err := fault;
      if !fault {
        disk := Issue(disk, w);
        moments := moments + [disk];
      }
    }

    /** One fsync; after an error the writes are still unsynced. */
    method Fsync(fault: bool) returns (err: bool)
      modifies this`disk, this`moments
      ensures err == fault
      ensures err ==> disk == old(disk) && moments == old(moments)
      ensures !err ==> disk == Synced(old(disk)) && moments == old(moments) + [disk]
    {
      err := fault;
      if !fault {
        disk := Synced(disk);
        moments := moments + [disk];
      }
    }

    method SaveMeta() returns (meta: Meta)
      ensures meta == MetaOf(tree.store.Abs(), tree.root, cc.version)
    {
      var page, free := tree.store.page, tree.store.free;
      return Meta(tree.root, page.flushed, free.headPage, free.headSeq, free.tailPage, free.tailSeq, cc.version);
    }

    /** Write the updated pages, in any order; the first error stops the loop. */
    method WritePages(faults: Faults, ghost s0: State, ghost root: nat, ghost version: nat, ghost other: Version, ghost next: Version)
      returns (err: bool)
      requires Working(s0, tree.store.Abs()) && tree.store.file == Seen(disk).pages
      requires var cur := VersionOf(s0, root, version); Safe(disk, cur, cur) && AllSafe(moments, cur, other, next)
      modifies this`disk, this`moments, tree.store`file, tree.store`page, tree.store`ledger
      ensures tree.store.file == Seen(disk).pages && PartlyWritten(s0, old(tree.store.Abs()), tree.store.file)
      ensures var cur := VersionOf(s0, root, version); Safe(disk, cur, cur) && AllSafe(moments, cur, other, next)
      ensures !err ==> tree.store.Abs() == Flush(old(tree.store.Abs()))
      ensures err <==> faults.mmap || faults.HitsPage(|old(tree.store.page.updates)|)
      ensures !err ==> |moments| == |old(moments)| + |old(tree.store.page.updates)|
    {
      hide Idle, Core, Safe, Partial, PartlyWritten, VersionOf, AllSafe, Attached, Faults.HitsPage;
      NoHit(faults);
      ghost var s, file0 := tree.store.Abs(), tree.store.file;
      ghost var cur := VersionOf(s0, root, version);
      var left := tree.store.page.updates.Keys;
      PartialStart(s0, s);
      if faults.mmap {
        PartialPartly(s0, s, left, tree.store.file);
        return true;
      }
      var n := 0;
      while left != {}
        invariant tree.store.page == old(tree.store.page) && tree.store.ledger == old(tree.store.ledger)
        invariant Partial(s0.file, s.updates, left, tree.store.file) && left <= s.updates.Keys
        invariant tree.store.file == Seen(disk).pages && Safe(disk, cur, cur) && AllSafe(moments, cur, other, next)
        invariant |moments| == |old(moments)| + n && n + |left| == |s.updates| && !faults.HitsPage(n)
        decreases |left|
      {
        var ptr :| ptr in left;
        PageWritten(disk, s0, s, root, version, ptr);
        PartialStep(s0.file, s.updates, left, tree.store.file, ptr);
        PartialPartly(s0, s, left, tree.store.file);
        NextHit(faults, n);
        err := Pwrite(PutPage(ptr, tree.store.page.updates[ptr]), n in faults.pages);
        if err {
          HitLater(faults, n + 1, |s.updates|);
          return;
        }
        tree.store.WriteBack(ptr);
        AllSafeLast(moments, cur, other, next);
        left, n := left - {ptr}, n + 1;
      }
      PartialPartly(s0, s, left, tree.store.file);
      PartialEnd(s0.file, s.updates, tree.store.file);
      tree.store.Written();
      SameFlush(s0, s, tree.store.file);
      err := false;
    }

    /** Pages, fsync, meta record, fsync. */
    method UpdateFile(faults: Faults, ghost s0: State, ghost root: nat, ghost version: nat, ghost other: Version) returns (err: bool)
      requires Working(s0, tree.store.Abs()) && tree.store.file == Seen(disk).pages && tree.root in tree.store.ledger.inUse
      requires var cur, next := VersionOf(s0, root, version), VersionOf(Flush(tree.store.Abs()), tree.root, cc.version);
               Safe(disk, cur, cur) && AllSafe(moments, cur, other, next)
      modifies this`disk, this`moments, tree.store`file, tree.store`page, tree.store`ledger
      ensures tree.store.file == Seen(disk).pages && PartlyWritten(s0, old(tree.store.Abs()), tree.store.file)
      ensures var cur, next := VersionOf(s0, root, version), VersionOf(Flush(old(tree.store.Abs())), tree.root, cc.version);
              && AllSafe(moments, cur, other, next) && (Safe(disk, cur, cur) || Safe(disk, cur, next))
              && (!err ==> disk.dirty == [] && Recoverable(disk, next, next))
      ensures !err ==> tree.store.Abs() == Flush(old(tree.store.Abs()))
      ensures err <==> faults.Hits(|old(tree.store.page.updates)|)
      ensures !err ==> |moments| == |old(moments)| + |old(tree.store.page.updates)| + 3
    {
      hide Idle, Core, Safe, PartlyWritten, VersionOf, AllSafe, Attached, Recoverable, Flush, ImageFits, Faults.HitsPage;
      ghost var s := tree.store.Abs();
      ghost var cur, next := VersionOf(s0, root, version), VersionOf(Flush(s), tree.root, cc.version);
      err := WritePages(faults, s0, root, version, other, next);
      if err {
        return;
      }
      Flushed(s0, s, tree.root);
      PagesSynced(disk, cur, tree.store.Abs(), tree.root, cc.version);
      err := Fsync(faults.sync1);
      if err {
        return;
      }
      AllSafeLast(moments, cur, other, next);
      MetaWritten(disk, cur, next);
      var meta := SaveMeta();
      assert meta == next.meta by { MetaInVersion(Flush(s), tree.root, cc.version); }
      err := Pwrite(PutMeta(meta), faults.root);
      if err {
        return;
      }
      AllSafeLast(moments, cur, other, next);
      err := Fsync(faults.sync2);
      if !err {
        AllSafeLast(moments, cur, other, next);
      }
    }

    /** Restore root, page count, free list and version from a saved meta record, and drop the updates. */
    method LoadMeta(meta: Meta, ghost s0: State, ghost sn0: Snap)
      requires meta == MetaOf(s0, sn0.root, meta.version) && s0.updates == map[] && s0.nappend == 0
      requires SameBounds(s0, tree.store.Abs())
      modifies this`cc, tree, tree.store`page, tree.store`free, tree.store`ledger
      ensures tree.store.Abs() == Revert(s0, tree.store.file) && Cur() == sn0
      ensures cc == old(cc).(version := meta.version)
    {
      tree.root := meta.root;
      tree.t, tree.h := sn0.t, sn0.h;
      cc := cc.(version := meta.version);
      tree.store.Rollback(meta.flushed, meta.headPage, meta.headSeq, meta.tailPage, meta.tailSeq, s0);
    }

    /**
     * Settle the meta record if the last update failed, then write the new version; on an error go
     * back to the old one. Without the meta record rewritten, nothing is rolled back.
     */
    method UpdateOrRevert(meta: Meta, faults: Faults, ghost s0: State, ghost sn0: Snap, ghost other: Version) returns (out: UpdateOut)
      requires Working(s0, tree.store.Abs()) && tree.store.file == Seen(disk).pages && tree.root in tree.store.ledger.inUse
      requires meta == MetaOf(s0, sn0.root, meta.version)
      requires var cur := VersionOf(s0, sn0.root, meta.version);
               && Safe(disk, cur, other) && (!failed ==> Safe(disk, cur, cur))
               && AllSafe(moments, cur, other, VersionOf(Flush(tree.store.Abs()), tree.root, cc.version))
      modifies this`disk, this`moments, this`failed, this`cc, tree, tree.store
      ensures tree.store.file == Seen(disk).pages
      ensures var cur, next := VersionOf(s0, sn0.root, meta.version), VersionOf(Flush(old(tree.store.Abs())), old(tree.root), old(cc.version));
              && AllSafe(moments, cur, other, next)
              && (out.Done? ==> disk.dirty == [] && Recoverable(disk, next, next))
              && (out.Reverted? ==> Safe(disk, cur, cur) || Safe(disk, cur, next))
              && (out.Unreverted? ==> Safe(disk, cur, other))
      ensures out == UpdateResult(old(failed), faults, |old(tree.store.page.updates)|)
      ensures out.Done? ==> |moments| == |old(moments)| + |old(tree.store.page.updates)| + 3 + if old(failed) then 2 else 0
      ensures out.Unreverted? ==> old(failed) && (faults.rewrite || faults.resync) && failed
      ensures out.Done? ==> !failed && tree.store.Abs() == Flush(old(tree.store.Abs())) && Cur() == old(Cur()) && cc == old(cc)
      ensures out.Reverted? ==>
                && failed && Cur() == sn0 && cc == old(cc).(version := meta.version)
                && PartlyWritten(s0, old(tree.store.Abs()), tree.store.file) && tree.store.Abs() == Revert(s0, tree.store.file)
    {
      hide Idle, Core, Safe, PartlyWritten, VersionOf, AllSafe, Attached, Recoverable, Flush, Revert, SameBounds, Faults.Hits;
      ghost var s := tree.store.Abs();
      ghost var cur, next := VersionOf(s0, sn0.root, meta.version), VersionOf(Flush(s), tree.root, cc.version);
      WorkingBounds(s0, s);
      MetaInVersion(s0, sn0.root, meta.version);
      if failed {
        var settled := SettleMeta(meta, faults, cur, other, next);
        if !settled {
          return Unreverted;
        }
      }
      var err := UpdateFile(faults, s0, sn0.root, meta.version, other);
      if err {
        failed := true;
        BoundsKept(s0, s, tree.store.Abs());
        LoadMeta(meta, s0, sn0);
        return Reverted;
      }
      out := Done;
    }

    /** The last update failed: make the meta record in the file match the one in memory. */
    method SettleMeta(meta: Meta, faults: Faults, ghost cur: Version, ghost other: Version, ghost next: Version) returns (ok: bool)
      requires meta == cur.meta && Safe(disk, cur, other) && AllSafe(moments, cur, other, next) && failed
      modifies this`disk, this`moments, this`failed
      ensures ok <==> !faults.rewrite && !faults.resync
      ensures ok ==> |moments| == |old(moments)| + 2
      ensures Seen(disk).pages == old(Seen(disk).pages) && AllSafe(moments, cur, other, next) && Safe(disk, cur, other)
      ensures if ok then !failed && Safe(disk, cur, cur) else failed
    {
      hide Safe, AllSafe;
      Rewritten(disk, cur, other);
      var err := Pwrite(PutMeta(meta), faults.rewrite);
      if err {
        return false;
      }
      AllSafeLast(moments, cur, other, next);
      err := Fsync(faults.resync);
      if err {
        return false;
      }
      AllSafeLast(moments, cur, other, next);
      failed := false;
      ok := true;
    }

    /** An ongoing transaction can read its snapshot, whatever has been committed since it began. */
    lemma SnapshotStable(tx: KVTX)
      requires Valid() && tx in txs && tx.Own()
      ensures tx.snapshot.Readable() && tx.snapshot.Contents() == SnapMap(tx.snap)
      ensures SnapStored(tree.store.ledger.pages, tx.snap)
    {
      hide StoreOK, Logged, LoggedMany, Durable, Serialized, Traced, Idle, SnapPages, RootOK, PS.NodesIn, BTree.Readable, SnapStored, SnapMap,
        PS.PageStore.Inv, BTree.Valid;
      LiveReadable(Pages(), memo.snaps, cc.version, Cur(), tx.version);
      SnapshotView(tree, tx);
    }

    /** The end of a transaction: release what only it could still read. */
    method TxFinalize(tx: KVTX)
      requires Sound() && tx in txs
      modifies this`cc, this`txs, this`memo, tree.store`free, tree.store`ledger
      ensures Valid() && cc.version == old(cc.version)
      ensures Without(old(txs), txs, tx)
      ensures memo == old(memo).(snaps := Restrict(old(memo.snaps), InUse(cc.ongoing, cc.version)))
      ensures tree.store.ledger.pages == KeepFor(old(tree.store.ledger.pages), memo.snaps)
    {
      hide StoreOK, LiveOK, Logged, LoggedMany, Durable, Serialized, Traced, Idle, SnapPages, RootOK, SnapStored, SnapMap, Without, Oldest, Unbroken, Recorded;
      ghost var s, snaps, c := Pages(), memo.snaps, cc;
      ghost var j := Member(txs, cc.ongoing, snaps, tree.store, tx);
      var idx := Index(cc.ongoing, tx.version);
      txs := Drop1(txs, j, idx);
      LiveLess(old(txs), cc.ongoing, snaps, tree.store, j, idx);
      var ongoing := cc.ongoing[..idx] + cc.ongoing[idx + 1..];
      var oldest := OldestVersion(ongoing, cc.version);
      ghost var snaps' := Restrict(snaps, InUse(ongoing, cc.version));
      LiveRestricted(txs, ongoing, snaps, tree.store, cc.version);
      Finalized(s, snaps, cc.version, Cur(), ongoing, oldest);
      tree.store.SetMaxVer(oldest, KeepFor(s.pages, snaps'));
      LoggedHistory(cc, snaps);
      var history := TrimHistory(cc.history, oldest, cc.version);
      LoggedLess(cc, snaps, idx, ongoing, history, oldest);
      TracedLess(memo, cc.version, cc.history, memo.(snaps := snaps'), history);
      cc := Control(cc.version, ongoing, history);
      memo := memo.(snaps := snaps');
      SerializedLess(old(memo), snaps', cc.version);
      assert Pages() == Released(s, snaps', oldest);
      DurableSame(disk, tree.store.file, failed, Committed(s, Cur(), cc.version), Committed(Pages(), Cur(), cc.version), memo.other);
    }

    /** Start the next version and carry the pending updates over to the current tree. */
    method Apply(tx: KVTX, capture: bool, ghost len: nat) returns (res: Transferred, writes: seq<KeyRange>)
      requires Valid() && tx.pending.Valid() && tx.pending.Grown() && tx.pending.store.inMemory
      requires tx.snapshot.Readable() && tx.snapshot.store.base != null
      requires Unconflicted(tx.pending.Contents(), tx.snapshot.Contents(), Contents())
      modifies tree, tree.store`mem, tree.store`page, tree.store`free, tree.store`ledger
      ensures res.AssertFails? || res.Endless? <==> !res.NoPage? && tx.pending.root != 0 && tx.pending.h >= 2
      ensures res.AssertFails? ==> Revisits(tx.pending.t, old(tx.snapshot.Contents()))
      ensures res.Endless? ==> !Revisits(tx.pending.t, old(tx.snapshot.Contents()))
      ensures !res.NoPage? ==> Working(SetVer(old(tree.store.Abs()), cc.version + 1), tree.store.Abs())
      ensures !res.NoPage? ==> SnapStored(tree.store.ledger.pages, Cur()) && tree.store.ledger.inUse == SnapPages(Cur())
      ensures !res.NoPage? ==> Grows(old(tree.store.ledger.pages), tree.store.ledger.pages)
      ensures !res.NoPage? ==> Contents() == Overlay(old(Contents()), tx.pending.Contents())
      ensures !res.NoPage? && capture ==> RecordsDiff(writes, old(Contents()), Contents())
      ensures !res.NoPage? && !capture ==> writes == []
      ensures !res.NoPage? && Contents() == old(Contents()) ==> tree.root == old(tree.root)
      ensures !res.NoPage? && tree.root != old(tree.root) ==> tree.root != 0
      ensures !res.NoPage? && tree.root == old(tree.root) ==>
                Cur() == old(Cur()) && tree.store.Abs() == SetVer(old(tree.store.Abs()), cc.version + 1) && writes == []
      ensures res.NoPage? ==> Stopped(tree, old(Contents()), tx.pending.View())
      ensures Regular(old(SnapView(Cur())), len) && RegularPending(tx.pending.Contents(), len) ==> !res.NoPage?
    {
      hide StoreOK, LiveOK, Logged, LoggedMany, Durable, Serialized, Traced, Idle, SnapPages, RootOK, SnapStored, Visible, Flat, BTree.Valid, BTree.Readable,
        Regular, RegularPending, Unconflicted, RecordsDiff, Overlay, Grows, Working, Revisits, TF.GrownOnly, Stopped;
      ghost var a0, sn0, pages0 := tree.store.Abs(), Cur(), tree.store.ledger.pages;
      ghost var s0 := SetVer(a0, cc.version + 1);
      CommitStart(a0, memo.snaps, cc.version, Cur());
      StoreFacts(s0, memo.snaps, cc.version, Cur());
      tree.store.SetCurVer(cc.version + 1);
      TreeReady(tree);
      res, writes := TransferAll(tree, tx.pending, tx.snapshot, capture, len);
      if !res.NoPage? {
        WorkingNow(s0, tree);
        if tree.root == sn0.root {
          SameRoot(pages0, tree.store.ledger.pages, sn0, Cur());
        }
      }
    }

    /** Write the new version to the file; if that fails, go back to the old one. */
    method Publish(meta: Meta, faults: Faults, ghost a0: State, ghost sn0: Snap) returns (out: UpdateOut)
      requires tree.root != 0 && moments == [] && meta == MetaOf(a0, sn0.root, cc.version)
      requires Idle(SetVer(a0, cc.version)) && StoreOK(SetVer(a0, cc.version), memo.snaps, cc.version, sn0)
      requires Durable(disk, tree.store.file, failed, Committed(SetVer(a0, cc.version), sn0, cc.version), memo.other)
      requires Working(SetVer(a0, cc.version + 1), tree.store.Abs()) && Grows(a0.pages, tree.store.ledger.pages)
      requires SnapStored(tree.store.ledger.pages, Cur()) && tree.store.ledger.inUse == SnapPages(Cur())
      modifies this`disk, this`moments, this`batch, this`failed, this`cc, this`memo, tree, tree.store
      ensures memo == old(memo).(other := memo.other)
      ensures batch == |old(tree.store.page.updates)| && out == UpdateResult(old(failed), faults, batch)
      ensures failed == !out.Done? && (out.Done? ==> |moments| == batch + 3 + if old(failed) then 2 else 0)
      ensures out.Done? ==>
                && cc == old(cc).(version := old(cc.version) + 1) && Cur() == old(Cur())
                && StoreOK(Pages(), NextSnaps(memo.snaps, old(cc.version), Cur()), cc.version, Cur())
      ensures out.Reverted? ==> cc == old(cc) && Cur() == sn0 && Idle(Pages()) && StoreOK(Pages(), memo.snaps, cc.version, sn0)
      ensures out.Unreverted? ==> old(failed) && (faults.rewrite || faults.resync)
      ensures !out.Unreverted? ==> Durable(disk, tree.store.file, failed, Committed(Pages(), Cur(), cc.version), memo.other)
      ensures sn0.root != 0 ==> MomentsOK(moments, SnapMap(sn0), SnapMap(old(memo.other.sn)), SnapMap(old(Cur())))
      ensures sn0.root != 0 && out.Unreverted? ==> Recovers(disk, SnapMap(sn0), SnapMap(old(memo.other.sn)))
    {
      hide Idle, StoreOK, Durable, Working, Grows, SnapStored, SnapPages, SnapMap, Safe, PartlyWritten, VersionOf, AllSafe, Recoverable, Flush, Revert, CommittedOK,
        Recovers, OtherAfter, NextSnaps, NextVersion, UpdateResult;
      ghost var v, s, sn, d0 := cc.version, tree.store.Abs(), Cur(), disk;
      ghost var s0 := SetVer(a0, v + 1);
      ghost var cur, other, next := Committed(SetVer(a0, v), sn0, v), memo.other, NextVersion(s, memo.snaps, v, sn);
      PublishStart(a0, s, memo.snaps, v, sn0, sn, disk, tree.store.file, failed, other);
      cc := cc.(version := cc.version + 1);
      batch := |tree.store.page.updates|;
      out := UpdateOrRevert(meta, faults, s0, sn0, OnDisk(other));
      PublishMoments(moments, disk, cur, other, next, out.Unreverted?);
      if out.Done? {
        memo := memo.(other := next);
        DurableDone(disk, tree.store.file, Committed(Pages(), Cur(), cc.version), next);
      } else if out.Reverted? {
        memo := memo.(other := OtherAfter(disk, cur, next));
        PublishUndone(a0, s, memo.snaps, v, sn0, next, disk, tree.store.file);
      }
    }

    /** Sort the dependency ranges and look for newer writes inside them. */
    method CheckConflicts(tx: KVTX) returns (conflict: bool)
      requires Valid() && tx in txs && tx.Own()
      modifies tx`arrays
      ensures multiset(tx.Deps()) == multiset(old(tx.Deps())) && (tx.updateAttempted ==> ByStart(tx.Deps()))
      ensures conflict <==> tx.updateAttempted && Conflicting(cc.history, tx.version, old(tx.Deps()))
      ensures conflict <==> tx.updateAttempted && Touched(memo, tx.version, cc.version, old(tx.Deps()))
      ensures !conflict ==>
                && Unconflicted(PendingOf(tx.ops), SnapMap(tx.snap), Contents())
                && Overlay(Contents(), PendingOf(tx.ops)) == Run(Contents(), tx.ops)
                && if tx.updateAttempted then Legal(Contents(), tx.ops) else Run(Contents(), tx.ops) == Contents()
    {
      hide StoreOK, Durable, Serialized, Traced, Idle, SnapPages, RootOK, SnapMap, Visible, BTree.Valid, Conflicting, HistoryOK, Sufficient, ByStart,
        Overlay, PendingOf, Run, Legal, Unconflicted, LogOK;
      ghost var j := Member(txs, cc.ongoing, memo.snaps, tree.store, tx);
      CurrentSnap(Pages(), memo.snaps, cc.version, Cur());
      LoggedOne(cc, memo.snaps, j);
      ConflictExact(memo, cc.version, cc.history, tx.version, tx.Deps());
      conflict := false;
      if tx.updateAttempted {
        var sorted;
        sorted, conflict := DetectConflicts(cc.history, tx.version, tx.Deps(), cc.version);
        SameLength(sorted, tx.Deps());
        ReorderedReads(tx.arrays, tx.deps, sorted);
        tx.arrays := Reordered(tx.arrays, tx.deps, sorted);
      }
      if !conflict {
        CheckedTx(SnapMap(tx.snap), Contents(), tx.ops, old(tx.Deps()), tx.updateAttempted, cc.history, tx.version);
      }
    }

    /**
     * Commit a transaction. A commit can only run out of page space on irregular data, it only gets stuck if
     * the last update failed and the meta record cannot be rewritten now, and its loop only fails to end if
     * the pending tree has three or more levels; the file is then as it was.
     */
    method Commit(tx: KVTX, faults: Faults, ghost len: nat) returns (out: CommitOut)
      requires Valid() && tx in txs && tx.Own() && !tx.done
      modifies this, tree, tree.store, tx`done, tx`arrays
      ensures tx.done
      ensures out == ConflictError <==> old(tx.updateAttempted) && Conflicting(old(cc.history), tx.version, old(tx.Deps()))
      ensures out == ConflictError <==> old(tx.updateAttempted) && Touched(old(memo), tx.version, old(cc.version), old(tx.Deps()))
      ensures GoesOn(out) ==> Valid() && Without(old(txs), txs, tx)
      ensures out.LoopFails? || out.LoopForever? <==>
                !out.ConflictError? && !out.NoSpace? && tx.pending.root != 0 && tx.pending.h >= 2
      ensures out.LoopFails? ==> Revisits(tx.pending.t, SnapMap(tx.snap))
      ensures out.LoopForever? ==> !Revisits(tx.pending.t, SnapMap(tx.snap))
      ensures out.CommitOK? ==> Contents() == Run(old(Contents()), tx.ops)
      ensures out.CommitOK? && tx.updateAttempted ==> Legal(old(Contents()), tx.ops) && memo.journal == old(memo.journal) + [tx.ops]
      ensures !(out.CommitOK? && tx.updateAttempted) && GoesOn(out) ==>
                Contents() == old(Contents()) && memo.journal == old(memo.journal)
      ensures out.CommitOK? ==> cc.version == old(cc.version) + if Contents() == old(Contents()) then 0 else 1
      ensures out.ConflictError? || out.WriteError? ==> cc.version == old(cc.version)
      ensures memo.origin == old(memo.origin)
      ensures old(tree.root) != 0 ==>
                MomentsOK(moments, old(Contents()), SnapMap(old(memo.other.sn)), Run(old(Contents()), tx.ops))
      ensures old(tree.root) != 0 && !GoesOn(out) ==> Recovers(disk, old(Contents()), SnapMap(old(memo.other.sn)))
      ensures !GoesOn(out) && !out.Stuck? ==> disk == old(disk) && moments == []
      ensures out.Stuck? ==> old(failed) && (faults.rewrite || faults.resync)
      ensures FileEnd(out, Run(old(Contents()), tx.ops) != old(Contents()), faults, old(failed), failed, batch, |moments|)
      ensures out.CommitOK? && Run(old(Contents()), tx.ops) == old(Contents()) ==> disk == old(disk)
      ensures faults == NO_FAULTS ==> !out.WriteError? && !out.Stuck?
      ensures out.NoSpace? ==> Stopped(tree, old(Contents()), tx.pending.View())
      ensures out.NoSpace? ==> !(Regular(old(SnapView(Cur())), len) && RegularPending(PendingOf(tx.ops), len))
    {
      hide StoreOK, LiveOK, Logged, LoggedMany, Durable, Serialized, Traced, Idle, SnapPages, RootOK, SnapMap, Visible, BTree.Valid, Conflicting, HistoryOK,
        Overlay, PendingOf, Run, Legal, Unconflicted, LogOK, BTree.Readable, SnapStored, Working, Grows, Regular, RegularPending, RecordsDiff,
        Recovers, Without, MomentsOK, PS.PageStore.Inv, BTree.Contents, KV.Valid, KV.Sound, KV.Pages, PS.PageStore.Abs, Revisits, KVTX.Own, BTree.Grown,
        FileEnd, Touched, Stopped, ByStart, RangesOf, SnapView;
      OwnParts(tx);
      tx.done := true;
      moments := [];
      NothingYet(Contents(), SnapMap(memo.other.sn), Run(Contents(), tx.ops));
      SnapshotStable(tx);
      ValidParts();
      var conflict := CheckConflicts(tx);
      if conflict {
        NotAttempted(ConflictError, Run(old(Contents()), tx.ops) != old(Contents()), faults, failed, batch);
        TxFinalize(tx);
        return ConflictError;
      }
      out := Install(tx, faults, len);
      if out.CommitOK? || out.WriteError? {
        TxFinalize(tx);
      }
    }

    /** What the commit needs of the transaction. */
    lemma OwnParts(tx: KVTX)
      requires tx.Own()
      ensures tx.pending.Valid() && tx.pending.Grown() && tx.pending.store.inMemory && tx.snapshot.store.base != null
      ensures tx.pending.Contents() == PendingOf(tx.ops) && tx.snapshot.Contents() == SnapMap(tx.snap)
    {
      hide LogOK, PendingOf, Visible, RootOK, PS.PageStore.Inv, TF.GrownOnly;
    }

    lemma NotAttempted(out: CommitOut, changed: bool, faults: Faults, was: bool, batch: nat)
      requires !Attempted(out)
      ensures FileEnd(out, changed, faults, was, was, batch, 0)
    {
    }

    /** An update of the file in which no call fails is done. */
    lemma Faultless(was: bool)
      ensures forall n: nat :: UpdateResult(was, NO_FAULTS, n) == Done
    {
    }

    lemma PagesNow()
      ensures Pages() == SetVer(tree.store.Abs(), cc.version) && tree.store.Abs().pages == tree.store.ledger.pages
    {
    }

    lemma ValidParts()
      requires Valid()
      ensures Sound() && !tree.store.inMemory && tree.store.base == null
      ensures Idle(Pages()) && StoreOK(Pages(), memo.snaps, cc.version, Cur()) && LiveOK(txs, cc.ongoing, memo.snaps, tree.store)
      ensures Durable(disk, tree.store.file, failed, Committed(Pages(), Cur(), cc.version), memo.other)
      ensures Serialized(memo, cc.version) && Logged(cc, memo.snaps) && LoggedMany(cc, memo.snaps)
      ensures Traced(memo, cc.version, cc.history)
    {
      hide StoreOK, LiveOK, Logged, LoggedMany, Durable, Serialized, Traced, Idle;
    }

    lemma SoundParts()
      requires !tree.store.inMemory && tree.store.base == null
      requires StoreOK(Pages(), memo.snaps, cc.version, Cur()) && LiveOK(txs, cc.ongoing, memo.snaps, tree.store)
      requires Durable(disk, tree.store.file, failed, Committed(Pages(), Cur(), cc.version), memo.other)
      requires Serialized(memo, cc.version) && LoggedMany(cc, memo.snaps) && Traced(memo, cc.version, cc.history)
      ensures Sound()
    {
      hide StoreOK, LiveOK, Logged, LoggedMany, Durable, Serialized, Traced;
    }

    /** Carry the updates over, write the file, record the written keys. */
    method Install(tx: KVTX, faults: Faults, ghost len: nat) returns (out: CommitOut)
      requires Valid() && tx in txs && moments == []
      requires tx.pending.Valid() && tx.pending.Grown() && tx.pending.store.inMemory
      requires tx.snapshot.Readable() && tx.snapshot.store.base != null
      requires Unconflicted(tx.pending.Contents(), tx.snapshot.Contents(), Contents())
      requires Overlay(Contents(), tx.pending.Contents()) == Run(Contents(), tx.ops)
      requires if tx.updateAttempted then Legal(Contents(), tx.ops) else Run(Contents(), tx.ops) == Contents()
      modifies this`disk, this`moments, this`batch, this`failed, this`cc, this`memo, tree, tree.store
      ensures !out.ConflictError?
      ensures FileEnd(out, Run(old(Contents()), tx.ops) != old(Contents()), faults, old(failed), failed, batch, |moments|)
      ensures out.CommitOK? && Run(old(Contents()), tx.ops) == old(Contents()) ==> disk == old(disk)
      ensures faults == NO_FAULTS ==> !out.WriteError? && !out.Stuck?
      ensures out.CommitOK? || out.WriteError? ==> Sound()
      ensures out.LoopFails? || out.LoopForever? <==> !out.NoSpace? && tx.pending.root != 0 && tx.pending.h >= 2
      ensures out.LoopFails? ==> Revisits(tx.pending.t, old(tx.snapshot.Contents()))
      ensures out.LoopForever? ==> !Revisits(tx.pending.t, old(tx.snapshot.Contents()))
      ensures out.CommitOK? ==> Contents() == Run(old(Contents()), tx.ops)
      ensures memo.journal == if out.CommitOK? && tx.updateAttempted then old(memo.journal) + [tx.ops] else old(memo.journal)
      ensures memo.origin == old(memo.origin)
      ensures out.CommitOK? ==> cc.version == old(cc.version) + if Contents() == old(Contents()) then 0 else 1
      ensures out.WriteError? ==> cc.version == old(cc.version) && Contents() == old(Contents())
      ensures old(tree.root) != 0 ==>
                MomentsOK(moments, old(Contents()), SnapMap(old(memo.other.sn)), Run(old(Contents()), tx.ops))
      ensures old(tree.root) != 0 && !GoesOn(out) ==> Recovers(disk, old(Contents()), SnapMap(old(memo.other.sn)))
      ensures !GoesOn(out) && !out.Stuck? ==> disk == old(disk) && moments == []
      ensures out.Stuck? ==> old(failed) && (faults.rewrite || faults.resync)
      ensures out.NoSpace? ==> Stopped(tree, old(Contents()), tx.pending.View())
      ensures out.NoSpace? ==> !(Regular(old(SnapView(Cur())), len) && RegularPending(tx.pending.Contents(), len))
    {
      hide StoreOK, LiveOK, Logged, LoggedMany, Durable, Serialized, Traced, Idle, SnapPages, RootOK, SnapMap, Visible, BTree.Valid,
        Overlay, Run, Legal, Unconflicted, BTree.Readable, SnapStored, Working, Grows, Regular, RegularPending, RecordsDiff,
        Recovers, MomentsOK, NextSnaps, PS.PageStore.Inv, BTree.Contents, KV.Valid, KV.Sound, KV.Pages, PS.PageStore.Abs, Revisits, TF.GrownOnly,
        FileEnd, Stopped, SetVer, MetaOf, LiveOK, BTree.Grown, SnapView;
      ValidParts();
      PagesNow();
      ghost var a0, sn0 := tree.store.Abs(), Cur();
      InstallStart(a0, memo.snaps, cc.version, sn0, disk, tree.store.file, failed, memo.other);
      NothingYet(SnapMap(sn0), SnapMap(memo.other.sn), Run(SnapMap(sn0), tx.ops));
      var meta := SaveMeta();
      var root := tree.root;
      var res, writes := Apply(tx, |cc.ongoing| > 1, len);
      if !res.Complete? {
        NotAttempted(if res.NoPage? then NoSpace else if res.AssertFails? then LoopFails else LoopForever,
                     Run(SnapMap(sn0), tx.ops) != SnapMap(sn0), faults, failed, batch);
        return if res.NoPage? then NoSpace else if res.AssertFails? then LoopFails else LoopForever;
      }
      ContentsNow();
      assert tree.root != root <==> SnapMap(Cur()) != SnapMap(sn0);
      assert SnapMap(Cur()) == Run(SnapMap(sn0), tx.ops);
      out := Persist(tx, faults, meta, root, writes, a0, sn0);
    }

    /** Write the new version to the file if there is one, and record the written keys. */
    method Persist(tx: KVTX, faults: Faults, meta: Meta, root: nat, writes: seq<KeyRange>, ghost a0: State, ghost sn0: Snap)
      returns (out: CommitOut)
      requires !tree.store.inMemory && tree.store.base == null && moments == []
      requires meta == MetaOf(a0, sn0.root, cc.version) && root == sn0.root
      requires Idle(SetVer(a0, cc.version)) && StoreOK(SetVer(a0, cc.version), memo.snaps, cc.version, sn0)
      requires Durable(disk, tree.store.file, failed, Committed(SetVer(a0, cc.version), sn0, cc.version), memo.other)
      requires LiveOK(txs, cc.ongoing, memo.snaps, tree.store) && Serialized(memo, cc.version)
      requires Logged(cc, memo.snaps) && LoggedMany(cc, memo.snaps) && Traced(memo, cc.version, cc.history)
      requires Working(SetVer(a0, cc.version + 1), tree.store.Abs()) && Grows(a0.pages, tree.store.ledger.pages)
      requires SnapStored(tree.store.ledger.pages, Cur()) && tree.store.ledger.inUse == SnapPages(Cur())
      requires if tree.root == root then Cur() == sn0 && tree.store.Abs() == SetVer(a0, cc.version + 1) && writes == []
               else tree.root != 0 && SnapMap(Cur()) != SnapMap(sn0)
      requires Contents() == Run(SnapMap(sn0), tx.ops)
      requires if tx.updateAttempted then Legal(SnapMap(sn0), tx.ops) else Run(SnapMap(sn0), tx.ops) == SnapMap(sn0)
      requires if |cc.ongoing| > 1 then RecordsDiff(writes, SnapMap(sn0), Contents()) else writes == []
      modifies this`disk, this`moments, this`batch, this`failed, this`cc, this`memo, tree, tree.store
      ensures out.CommitOK? || out.WriteError? || out.Stuck?
      ensures FileEnd(out, old(tree.root) != root, faults, old(failed), failed, batch, |moments|)
      ensures old(tree.root) != root ==> batch == |old(tree.store.page.updates)|
      ensures out.CommitOK? && old(tree.root) == root ==> disk == old(disk)
      ensures faults == NO_FAULTS ==> out.CommitOK?
      ensures !out.Stuck? ==> Sound()
      ensures out.CommitOK? ==> Contents() == old(Contents())
      ensures memo.journal == if out.CommitOK? && tx.updateAttempted then old(memo.journal) + [tx.ops] else old(memo.journal)
      ensures memo.origin == old(memo.origin)
      ensures out.CommitOK? ==> cc.version == old(cc.version) + if old(tree.root) == root then 0 else 1
      ensures out.WriteError? ==> cc.version == old(cc.version) && Contents() == SnapMap(sn0)
      ensures root != 0 ==> MomentsOK(moments, SnapMap(sn0), SnapMap(old(memo.other.sn)), old(Contents()))
      ensures root != 0 && out.Stuck? ==> Recovers(disk, SnapMap(sn0), SnapMap(old(memo.other.sn)))
      ensures out.Stuck? ==> old(failed) && (faults.rewrite || faults.resync)
    {
      hide StoreOK, LiveOK, Logged, LoggedMany, Durable, Serialized, Traced, Idle, SnapPages, RootOK, SnapMap, Visible, BTree.Valid,
        Overlay, Run, Legal, BTree.Readable, SnapStored, Working, Grows, RecordsDiff,
        Recovers, MomentsOK, NextSnaps, PS.PageStore.Inv, BTree.Contents, KV.Sound, KV.Pages, PS.PageStore.Abs, UpdateResult;
      ghost var memo0, cc0, snaps, other := memo, cc, memo.snaps, memo.other;
      ContentsNow();
      PagesNow();
      InstallStart(a0, snaps, cc.version, sn0, disk, tree.store.file, failed, other);
      NothingYet(SnapMap(sn0), SnapMap(other.sn), Contents());
      Faultless(failed);
      if tree.root != root {
        var update := Publish(meta, faults, a0, sn0);
        SerializedOther(memo0, memo.other, cc0.version);
        TracedLess(memo0, cc0.version, cc0.history, memo, cc0.history);
        ContentsNow();
        if update.Unreverted? {
          return Stuck;
        }
        if update.Reverted? {
          SoundParts();
          return WriteError;
        }
      }
      PagesNow();
      RecordCommit(tx, writes, cc0, snaps, sn0);
      ContentsNow();
      out := CommitOK;
    }

    lemma ContentsNow()
      ensures Contents() == SnapMap(Cur())
    {
    }

    /** Save the written keys for later conflict checks. */
    method RecordCommit(tx: KVTX, writes: seq<KeyRange>, ghost cc0: Control, ghost snaps: map<nat, Snap>, ghost sn0: Snap)
      requires memo.snaps == snaps && LiveOK(txs, cc.ongoing, snaps, tree.store) && !tree.store.inMemory && tree.store.base == null
      requires SnapMap(Cur()) == Run(SnapMap(sn0), tx.ops)
      requires if tx.updateAttempted then Legal(SnapMap(sn0), tx.ops) else cc == cc0
      requires Durable(disk, tree.store.file, failed, Committed(Pages(), Cur(), cc.version), memo.other)
      requires Serialized(memo, cc0.version) && Logged(cc0, snaps) && Traced(memo, cc0.version, cc0.history)
      requires cc0.version in snaps && snaps[cc0.version] == sn0 && forall u :: u in snaps ==> u <= cc0.version
      requires if |cc.ongoing| > 1 then RecordsDiff(writes, SnapMap(sn0), SnapMap(Cur())) else writes == []
      requires if cc == cc0 then StoreOK(Pages(), snaps, cc.version, Cur()) && writes == [] && Cur() == sn0
               else cc == cc0.(version := cc0.version + 1) && StoreOK(Pages(), NextSnaps(snaps, cc0.version, Cur()), cc.version, Cur())
                    && SnapMap(Cur()) != SnapMap(sn0)
      modifies this`cc, this`memo
      ensures Sound() && cc.version == old(cc.version) && cc.ongoing == old(cc.ongoing)
      ensures memo.journal == if tx.updateAttempted then old(memo.journal) + [tx.ops] else old(memo.journal)
      ensures memo.origin == old(memo.origin)
    {
      hide StoreOK, LiveOK, Logged, LoggedMany, Durable, Serialized, SnapMap, Run, Legal, RecordsDiff, NextSnaps, ByStart, HistoryOK, Traced;
      var sorted := [];
      NoRanges();
      if |writes| > 0 {
        sorted := SortRanges(writes);
        cc := cc.(history := cc.history + [CommittedTX(cc.version, sorted)]);
      }
      if cc == cc0 {
        LoggedStill(cc, snaps);
        if tx.updateAttempted {
          SerializedSame(memo, cc.version, tx.ops);
          TracedMore(memo, cc.version, cc.history, tx.ops, memo.(journal := memo.journal + [tx.ops]));
          memo := memo.(journal := memo.journal + [tx.ops]);
        }
      } else {
        SameRecords(writes, sorted, SnapMap(sn0), SnapMap(Cur()));
        LiveCommit(txs, cc.ongoing, snaps, tree.store, cc0.version, Cur());
        SomethingRecorded(sorted, SnapMap(sn0), SnapMap(Cur()));
        LoggedCommit(cc0, snaps, Cur(), sorted);
        SerializedCommit(memo, cc0.version, Cur(), tx.ops);
        ghost var memo' := memo.(snaps := NextSnaps(snaps, cc0.version, Cur()), journal := memo.journal + [tx.ops],
                                 points := memo.points[cc.version := |memo.journal| + 1]);
        TracedCommit(memo, cc0.version, cc0.history, tx.ops, memo', sorted);
        memo := memo';
      }
    }

    /** Give up a transaction. */
    method Abort(tx: KVTX)
      requires Valid() && tx in txs && !tx.done
      modifies this`cc, this`txs, this`memo, tree.store`free, tree.store`ledger, tx`done
      ensures Valid() && tx.done && Contents() == old(Contents()) && cc.version == old(cc.version)
      ensures Without(old(txs), txs, tx)
    {
      hide KV.Valid, KV.Sound, KV.Pages, SnapMap, Without, KVTX.Own;
      ValidSound();
      tx.done := true;
      TxFinalize(tx);
    }

    lemma ValidSound()
      requires Valid()
      ensures Sound()
    {
    }

    // ---- what holds between any two calls ----

    /**
     * The current map is the result of running the committed updating transactions one after the
     * other, each with all its reads right, and every ongoing transaction reads the result of some
     * first part of that run.
     */
    lemma Serializable(tx: KVTX)
      requires Valid()
      ensures SerialRun(memo.origin, memo.journal) && Contents() == RunAll(memo.origin, memo.journal)
      ensures tx in txs ==> exists n :: 0 <= n <= |memo.journal| && SnapMap(tx.snap) == RunAll(memo.origin, memo.journal[..n])
    {
      hide StoreOK, Durable, Traced, Idle, SnapMap, RunAll, SerialRun, Logged, LoggedMany;
      CurrentSnap(Pages(), memo.snaps, cc.version, Cur());
      if tx in txs {
        ghost var j := Member(txs, cc.ongoing, memo.snaps, tree.store, tx);
        assert memo.points[tx.version] <= |memo.journal|;
      }
    }

    /** Every key on which the current map differs from a transaction's snapshot is recorded as a newer write. */
    lemma ChangeRecorded(tx: KVTX, k: Bytes)
      requires Valid() && tx in txs && !SameAt(SnapMap(tx.snap), Contents(), k)
      ensures Recorded(cc.history, tx.version, k)
    {
      hide StoreOK, Durable, Idle, SnapMap, Serialized, Traced, HistoryOK, Recorded;
      ghost var j := Member(txs, cc.ongoing, memo.snaps, tree.store, tx);
      CurrentSnap(Pages(), memo.snaps, cc.version, Cur());
      assert Sufficient(cc.history, cc.ongoing[j], SnapMap(memo.snaps[cc.ongoing[j]]), SnapMap(memo.snaps[cc.version]));
    }

    /** A crash now, and opening the file again, gives the current map, or that of a failed last update. */
    lemma CrashNow()
      requires Valid() && tree.root != 0
      ensures Recovers(disk, Contents(), SnapMap(memo.other.sn))
      ensures !failed ==> SnapMap(memo.other.sn) == Contents()
    {
      hide StoreOK, Idle, SnapMap, Serialized, Traced, Logged, LoggedMany, LiveOK, Recoverable, CommittedOK, VersionOf, Recovers;
      CommittedNow(tree.store.Abs(), memo.snaps, cc.version, Cur());
      DurableRecovers(disk, tree.store.file, failed, Committed(Pages(), Cur(), cc.version), memo.other);
    }

    /** Every page behind the meta page has exactly one role: tree page, list page, or queued free page. */
    lemma PagesConserved(p: nat)
      requires Valid()
      ensures SnapPages(Cur())[p] + multiset(ListPages(Pages()))[p] + multiset(Queue(Pages()))[p]
              == if 1 <= p < tree.store.page.flushed then 1 else 0
    {
      hide Durable, Serialized, Traced, Logged, LoggedMany, LiveOK;
      ConservedIn(Pages(), memo.snaps, cc.version, Cur(), p);
    }

    /**
     * A queued page is held back exactly while some ongoing transaction began before the page was released, and
     * the allocator gets nothing exactly if all queued pages are held back.
     */
    lemma QueueOpen()
      requires Valid()
      ensures var s := Pages();
              && Numbers(s) && s.maxSeq == s.tailSeq
              && (forall i :: s.headSeq <= i < s.tailSeq ==> (s.maxVer < s.qver[i] <==> exists u :: u in cc.ongoing && u < s.qver[i]))
              && (PS.NothingFree(s) <==> forall i :: s.headSeq <= i < s.tailSeq ==> exists u :: u in cc.ongoing && u < s.qver[i])
    {
      hide Durable, Serialized, Traced, Logged, LoggedMany, LiveOK;
      OldestHolds(Pages(), memo.snaps, cc.version, Cur(), cc.ongoing);
    }

    /** With no transaction ongoing every queued page may be taken. */
    lemma AllOpen()
      requires Valid() && cc.ongoing == []
      ensures Numbers(Pages()) && (PS.NothingFree(Pages()) <==> Pages().headSeq == Pages().tailSeq)
    {
      hide KV.Valid;
      QueueOpen();
      if Pages().headSeq < Pages().tailSeq {
        assert !(Pages().maxVer < Pages().qver[Pages().headSeq]);
      }
    }

    /** What the history holds: for each entry exactly the keys that its version changed. */
    lemma HistoryExact(e: CommittedTX, tx: KVTX)
      requires Valid()
      ensures e in cc.history ==> EntryExact(memo, e)
      ensures MapAt(memo, cc.version) == Contents() && (tx in txs ==> MapAt(memo, tx.version) == SnapMap(tx.snap))
    {
      hide StoreOK, Durable, Idle, SnapMap, RunAll, SerialRun, Logged, LoggedMany, EntryExact;
      CurrentSnap(Pages(), memo.snaps, cc.version, Cur());
      if tx in txs {
        ghost var j := Member(txs, cc.ongoing, memo.snaps, tree.store, tx);
        assert tx.version in memo.snaps;
      }
      assert cc.version in memo.snaps;
    }

    /**
     * A page that an ongoing transaction may read is still in the current tree, or it waits in the
     * free list with a greater version, out of reach of the allocator.
     */
    lemma ReaderPage(tx: KVTX, p: nat)
      requires Valid() && tx in txs && p in SnapPages(tx.snap)
      ensures p in SnapPages(Cur()) ||
              exists i :: Pages().headSeq <= i < |Pages().qver| && i < |Pages().qptr| && Pages().qptr[i] == p
                          && tx.version < Pages().qver[i] && Pages().maxVer < Pages().qver[i]
    {
      hide Durable, Serialized, Traced, Logged, LoggedMany, StoreOK, Idle, SnapPages;
      ghost var j := Member(txs, cc.ongoing, memo.snaps, tree.store, tx);
      ReaderPageIn(Pages(), memo.snaps, cc.version, Cur(), tx.version, p);
    }
  }

  /** `slices.Index`: the first position of `v`. */
  method Index(s: seq<nat>, v: nat) returns (idx: nat)
    requires v in s
    ensures idx < |s| && s[idx] == v
  {
    idx := 0;
    while s[idx] != v
      invariant idx < |s| && v in s[idx..]
      decreases |s| - idx
    {
      idx := idx + 1;
    }
  }
}
