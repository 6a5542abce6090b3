/** The two-phase update of the file, step by step: what each write and each fsync keeps. */
module FileUpdates {
  import opened PageState
  import opened Epochs
  import opened DiskModel
  import opened Snapshots

  /** Which of the calls to the operating system fail; of the page writes those numbered in `pages`. */
  datatype Faults = Faults(rewrite: bool, resync: bool, mmap: bool, pages: set<nat>, sync1: bool, root: bool, sync2: bool) {
    /** One of the first `n` page writes fails. */
    ghost predicate HitsPage(n: nat) {
      exists i :: i in pages && i < n
    }

    /** An update of the file that writes `n` pages meets a failing call. */
    ghost predicate Hits(n: nat) {
      mmap || HitsPage(n) || sync1 || root || sync2
    }

    /** The meta record of a failed update cannot be rewritten. */
    ghost predicate Unsettled() {
      rewrite || resync
    }
  }

  lemma NoHit(faults: Faults)
    ensures !faults.HitsPage(0)
  {
  }

  lemma NextHit(faults: Faults, n: nat)
    ensures faults.HitsPage(n + 1) <==> faults.HitsPage(n) || n in faults.pages
  {
  }

  lemma HitLater(faults: Faults, n: nat, m: nat)
    requires faults.HitsPage(n) && n <= m
    ensures faults.HitsPage(m)
  {
  }

  /** No call fails. */
  const NO_FAULTS := Faults(false, false, false, {}, false, false, false)

  /** A database that has a committed version is recoverable; before that there is nothing to recover. */
  ghost predicate Safe(d: Disk, a: Version, b: Version) {
    a.meta.root != 0 ==> Recoverable(d, a, b)
  }

  /** Whatever moment a crash picks, the file holds `cur`, or one of `other` and `next`. */
  ghost predicate AllSafe(moments: seq<Disk>, cur: Version, other: Version, next: Version) {
    forall i :: 0 <= i < |moments| ==> Safe(moments[i], cur, other) || Safe(moments[i], cur, cur) || Safe(moments[i], cur, next)
  }

  lemma AllSafeMore(moments: seq<Disk>, d: Disk, cur: Version, other: Version, next: Version)
    requires AllSafe(moments, cur, other, next)
    requires Safe(d, cur, other) || Safe(d, cur, cur) || Safe(d, cur, next)
    ensures AllSafe(moments + [d], cur, other, next)
  {
    hide Safe;
  }

  /** Rewriting the meta record that memory has, and syncing it, settles an unknown file. */
  lemma Rewritten(d: Disk, cur: Version, other: Version)
    requires Safe(d, cur, other)
    ensures var d1 := Issue(d, PutMeta(cur.meta));
            && Safe(d1, cur, other) && Safe(Synced(d1), cur, other) && Safe(Synced(d1), cur, cur)
            && Synced(d1).dirty == [] && Seen(d1).pages == Seen(d).pages && Seen(Synced(d1)).pages == Seen(d).pages
  {
    hide ImageFits, PageFits;
    var w := PutMeta(cur.meta);
    var d1 := Issue(d, w);
    SeenMeta(d, w);
    if cur.meta.root != 0 {
      IssueSafe(d, cur, other, w);
      SyncSafe(d1, cur, other);
      hide Recoverable;
      FitsBoth(Synced(d1), cur, other);
      Settled(Synced(d1), cur, cur);
    }
  }

  lemma FitsBoth(d: Disk, a: Version, b: Version)
    requires Recoverable(d, a, b)
    ensures ImageFits(a, d.synced.pages) && ImageFits(b, d.synced.pages)
  {
  }

  // ---- phase 1: the pages ----

  /** The updates outside `left` have reached the file. */
  ghost predicate Partial(file0: map<nat, Page>, updates: map<nat, Page>, left: set<nat>, file: map<nat, Page>) {
    && left <= updates.Keys
    && (forall p :: p in file <==> p in file0 || (p in updates && p !in left))
    && (forall p :: p in file ==> file[p] == if p in updates && p !in left then updates[p] else file0[p])
  }

  lemma PartialStep(file0: map<nat, Page>, updates: map<nat, Page>, left: set<nat>, file: map<nat, Page>, ptr: nat)
    requires Partial(file0, updates, left, file) && ptr in left
    ensures Partial(file0, updates, left - {ptr}, file[ptr := updates[ptr]])
  {
  }

  lemma PartialEnd(file0: map<nat, Page>, updates: map<nat, Page>, file: map<nat, Page>)
    requires Partial(file0, updates, {}, file)
    ensures file == file0 + updates && file + updates == file
  {
  }

  lemma PartialPartly(s0: State, s: State, left: set<nat>, file: map<nat, Page>)
    requires Partial(s0.file, s.updates, left, file)
    ensures PartlyWritten(s0, s, file)
  {
  }

  /** Writing a pending page cannot hurt the last version. */
  lemma PageWritten(d: Disk, s0: State, s: State, root: nat, version: nat, ptr: nat)
    requires Working(s0, s) && ptr in s.updates
    requires Safe(d, VersionOf(s0, root, version), VersionOf(s0, root, version))
    ensures var d1 := Issue(d, PutPage(ptr, s.updates[ptr]));
            && Safe(d1, VersionOf(s0, root, version), VersionOf(s0, root, version))
            && Seen(d1).pages == Seen(d).pages[ptr := s.updates[ptr]]
  {
    var cur, w := VersionOf(s0, root, version), PutPage(ptr, s.updates[ptr]);
    SeenIssue(d, w);
    OldFits(s0, s, root, version, ptr);
    hide Working, PageFits, Recoverable;
    if root != 0 {
      IssueSafe(d, cur, cur, w);
    }
  }

  // ---- phase 2: the meta record ----

  /** After the first fsync the file holds the old version and, but for the meta record, the new one. */
  lemma PagesSynced(d: Disk, cur: Version, s: State, root: nat, version: nat)
    requires Safe(d, cur, cur)
    requires Core(s) && s.updates == map[] && s.nappend == 0 && s.flushed >= 3 && s.file == Seen(d).pages
    ensures var next := VersionOf(s, root, version);
            && Safe(Synced(d), cur, cur) && Safe(Synced(d), cur, next) && Synced(d).dirty == []
            && Seen(Synced(d)) == Seen(d) && ImageFits(next, Seen(d).pages)
  {
    var next := VersionOf(s, root, version);
    FileFits(s, root, version);
    hide ImageFits, Core, VersionOf, Harmless;
    if cur.meta.root != 0 {
      SyncSafe(d, cur, cur);
      Settled(Synced(d), cur, next);
    }
  }

  lemma MetaWritten(d: Disk, cur: Version, next: Version)
    requires Safe(d, cur, next) && d.dirty == [] && ImageFits(next, Seen(d).pages)
    ensures var d1 := Issue(d, PutMeta(next.meta));
            && Safe(d1, cur, next) && Seen(d1).pages == Seen(d).pages
            && Safe(Synced(d1), cur, next) && Recoverable(Synced(d1), next, next) && Synced(d1).dirty == []
            && Seen(Synced(d1)).pages == Seen(d).pages
  {
    hide ImageFits, PageFits;
    var w := PutMeta(next.meta);
    var d1 := Issue(d, w);
    SeenMeta(d, w);
    if cur.meta.root != 0 {
      IssueSafe(d, cur, next, w);
      SyncSafe(d1, cur, next);
    }
    Settled(Synced(d1), next, next);
  }

  /** A tree page besides the list page: the file has at least three pages. */
  lemma ThreePages(s: State, root: nat)
    requires Core(s) && root in s.inUse
    ensures End(s) >= 3
  {
    hide Domain, Slots, Links, Available, Versions, SinceStart, TreePages;
    Roles(s, root);
    ListPageRole(s, |s.chain| - 1);
  }
}
