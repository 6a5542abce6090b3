/**
 * The versions that ongoing transactions read: their pages stay in the file, out of the reach of
 * the allocator, for as long as the transaction is ongoing.
 */
module Readers {
  import opened SortedSeq
  import opened Nodes
  import opened Trees
  import opened TreeOps
  import opened PageState
  import opened PageSteps
  import opened Epochs
  import opened BTrees
  import opened DiskModel
  import opened Snapshots
  import PS = PageStore

  /** `snaps`: the tree of every version that somebody reads, and of the current version. */
  ghost predicate SnapsOK(s: State, snaps: map<nat, Snap>, version: nat)
    requires Numbers(s)
  {
    && version in snaps
    && (forall v :: v in snaps ==> v <= version && s.maxVer <= v && SnapStored(s.pages, snaps[v]))
    && (forall v, i :: v in snaps && s.headSeq <= i < s.tailSeq ==> Guarded(s, snaps[v], v, i))
    && (forall i :: s.headSeq <= i < s.tailSeq ==> s.qver[i] <= version)
  }

  /** A queued page of the version `v` carries a greater version. */
  ghost predicate Guarded(s: State, sn: Snap, v: nat, i: nat)
    requires Numbers(s) && i < s.tailSeq
  {
    s.qptr[i] in SnapPages(sn) ==> v < s.qver[i]
  }

  /**
   * No page of a version that somebody reads is handed out: the free list never pops one, in any state of
   * the commit that began in the idle state `s0`.
   */
  lemma ReadersSafe(s0: State, s: State, snaps: map<nat, Snap>, version: nat, v: nat)
    requires Idle(s0) && SnapsOK(s0, snaps, version) && Core(s) && s.start == s0.start
    requires CanPop(s) && v in snaps
    ensures s.qptr[s.headSeq] !in SnapPages(snaps[v])
  {
    hide Domain, Slots, Links, Available, TreePages, SnapPages, SnapStored, Partition, Versions;
    SameItem(s0, s, s.headSeq);
    assert Guarded(s0, snaps[v], v, s.headSeq);
  }

  lemma SameItem(s0: State, s: State, i: nat)
    requires Idle(s0) && Core(s) && s.start == s0.start && s.headSeq <= i < s.maxSeq
    ensures s0.headSeq <= i < s0.tailSeq && s0.qptr[i] == s.qptr[i] && s0.qver[i] == s.qver[i] && s.maxVer == s0.maxVer
  {
    hide Domain, Slots, Links, Available, TreePages, Partition, Versions;
    assert s.qptr[..s.maxSeq][i] == s0.qptr[..s0.maxSeq][i];
    assert s.qver[..s.maxSeq][i] == s0.qver[..s0.maxSeq][i];
  }

  /** The version number of the next commit plays no part. */
  lemma SnapsCurVer(s: State, snaps: map<nat, Snap>, version: nat, v: nat)
    requires Idle(s) && SnapsOK(s, snaps, version)
    requires forall i :: s.headSeq <= i < s.tailSeq ==> s.qver[i] <= v
    ensures Idle(SetVer(s, v)) && SnapsOK(SetVer(s, v), snaps, version)
  {
    SetVerKeeps(s, v);
    hide Core, SnapStored, SnapPages;
    forall u, i | u in snaps && s.headSeq <= i < s.tailSeq ensures Guarded(SetVer(s, v), snaps[u], u, i) {
      assert Guarded(s, snaps[u], u, i);
    }
  }

  /** What a reader finds in the file, while a commit is at work or not. */
  lemma ReadableFile(s: State, sn: Snap)
    requires Idle(s) && SnapStored(s.pages, sn)
    ensures SnapStored(PS.NodesIn(s.file), sn)
  {
    hide Domain, Slots, Links, Available, Versions, SinceStart, Partition, Numbers;
    assert Grows(s.pages, PS.NodesIn(s.file));
    hide TreePages;
    if sn.root != 0 {
      RootGrows(sn.t, sn.h, s.pages, PS.NodesIn(s.file), sn.root);
    }
  }

  // ---- a commit adds a version ----

  lemma CommitSnaps(s0: State, s: State, snaps: map<nat, Snap>, version: nat, sn: Snap)
    requires Working(s0, s) && SnapsOK(s0, snaps, version) && s0.curVer == version + 1
    requires s.inUse == SnapPages(sn) && SnapStored(s.pages, sn) && Grows(s0.pages, s.pages)
    ensures Numbers(Flush(s)) && SnapsOK(Flush(s), snaps[version + 1 := sn], version + 1)
  {
    hide Domain, Slots, Links, Available, SinceStart, Partition, TreePages, SnapPages, SnapStored, Versions, Numbers;
    FlushNumbers(s);
    var s', snaps' := Flush(s), snaps[version + 1 := sn];
    SameLimits(s0, s);
    forall v | v in snaps' ensures SnapStored(s'.pages, snaps'[v]) {
      if v in snaps {
        SnapGrows(s0.pages, s.pages, snaps[v]);
      }
    }
    forall v, i | v in snaps' && s'.headSeq <= i < s'.tailSeq ensures Guarded(s', snaps'[v], v, i) {
      ItemGuarded(s0, s, snaps, version, sn, v, i);
    }
    forall i | s'.headSeq <= i < s'.tailSeq ensures i < |s'.qver| && s'.qver[i] <= version + 1 {
      ItemVersion(s, i);
    }
  }

  lemma SameLimits(s0: State, s: State)
    requires Working(s0, s)
    ensures s.maxVer == s0.maxVer && s.curVer == s0.curVer && Flush(s).maxVer == s.maxVer && Flush(s).pages == s.pages
  {
    hide Domain, Slots, Links, Available, Partition, TreePages, Versions, Numbers;
  }

  lemma SnapGrows(pages: map<nat, Node>, more: map<nat, Node>, sn: Snap)
    requires SnapStored(pages, sn) && Grows(pages, more)
    ensures SnapStored(more, sn)
  {
    if sn.root != 0 {
      RootGrows(sn.t, sn.h, pages, more, sn.root);
    }
  }

  lemma ItemVersion(s: State, i: nat)
    requires Core(s) && s.headSeq <= i < s.tailSeq
    ensures i < |s.qver| && s.qver[i] <= s.curVer
  {
    hide Domain, Slots, Links, Available, Partition, TreePages, SinceStart;
  }

  /** Items pushed by the commit carry its version, older ones are guarded as before. */
  lemma ItemGuarded(s0: State, s: State, snaps: map<nat, Snap>, version: nat, sn: Snap, v: nat, i: nat)
    requires Working(s0, s) && SnapsOK(s0, snaps, version) && s0.curVer == version + 1
    requires s.inUse == SnapPages(sn)
    requires v in snaps[version + 1 := sn] && s.headSeq <= i < s.tailSeq
    ensures i < |s.qptr| && i < |s.qver|
    ensures s.qptr[i] in SnapPages(snaps[version + 1 := sn][v]) ==> v < s.qver[i]
  {
    hide Domain, Slots, Links, Available, TreePages, SnapPages, SnapStored;
    if v == version + 1 {
      QueueRole(s, i);
    } else if i < s.maxSeq {
      SameBlock(s0, s, i);
      assert Guarded(s0, snaps[v], v, i);
    }
  }

  // ---- the end of a transaction ----

  ghost predicate Needed(snaps: map<nat, Snap>, p: nat) {
    exists v :: v in snaps && p in SnapPages(snaps[v])
  }

  /** The pages that somebody may still read. */
  ghost function KeepFor(pages: map<nat, Node>, snaps: map<nat, Snap>): map<nat, Node> {
    map p | p in pages && Needed(snaps, p) :: pages[p]
  }

  ghost function Restrict(snaps: map<nat, Snap>, live: set<nat>): map<nat, Snap> {
    map v | v in snaps && v in live :: snaps[v]
  }

  /** Nothing pending, nothing on its way. */
  ghost predicate AtRest(s: State) {
    Core(s) && Attached(s) && s.updates == map[] && s.nappend == 0 && s.taken == multiset{} && s.loose == multiset{}
  }

  ghost function Released(s: State, snaps: map<nat, Snap>, maxVer: nat): State {
    Restart(s, KeepFor(s.pages, snaps), maxVer)
  }

  lemma FinalSnaps(s: State, snaps: map<nat, Snap>, version: nat, live: set<nat>, maxVer: nat)
    requires AtRest(s) && SnapsOK(s, snaps, version) && s.inUse == SnapPages(snaps[version])
    requires version in live && forall v :: v in live ==> maxVer <= v
    ensures var snaps' := Restrict(snaps, live);
            Idle(Released(s, snaps', maxVer)) && SnapsOK(Released(s, snaps', maxVer), snaps', version)
  {
    hide Core, SnapStored, SnapPages, Numbers;
    var snaps' := Restrict(snaps, live);
    var keep := KeepFor(s.pages, snaps');
    RestNumbers(s);
    NeededKept(s, snaps, version, live, maxVer);
    RestartKeeps(s, keep, maxVer);
    var s' := Released(s, snaps', maxVer);
    RestNumbers(s');
    forall v | v in snaps' ensures SnapStored(s'.pages, snaps'[v]) {
      SnapKept(s.pages, snaps', v);
    }
    forall v, i | v in snaps' && s'.headSeq <= i < s'.tailSeq ensures Guarded(s', snaps'[v], v, i) {
      assert Guarded(s, snaps[v], v, i);
    }
  }

  lemma RestNumbers(s: State)
    requires Core(s)
    ensures Numbers(s) && |s.qptr| == |s.qver| == s.tailSeq
  {
    hide Domain, Slots, Links, Available, Partition, SinceStart, Versions, TreePages;
  }

  lemma NeededKept(s: State, snaps: map<nat, Snap>, version: nat, live: set<nat>, maxVer: nat)
    requires AtRest(s) && SnapsOK(s, snaps, version) && s.inUse == SnapPages(snaps[version])
    requires version in live && forall v :: v in live ==> maxVer <= v
    ensures Keeps(s, KeepFor(s.pages, Restrict(snaps, live)), maxVer)
  {
    hide Domain, Slots, Links, Available, Partition, SinceStart, Versions, SnapStored, SnapPages;
    var snaps' := Restrict(snaps, live);
    var keep := KeepFor(s.pages, snaps');
    forall p | p in s.inUse ensures p in keep {
      assert version in snaps' && p in SnapPages(snaps'[version]);
    }
    forall i | s.headSeq <= i < s.tailSeq && s.qptr[i] in keep ensures maxVer < s.qver[i] {
      var v :| v in snaps' && s.qptr[i] in SnapPages(snaps'[v]);
      assert Guarded(s, snaps[v], v, i);
    }
  }

  lemma SnapKept(pages: map<nat, Node>, snaps: map<nat, Snap>, v: nat)
    requires v in snaps && SnapStored(pages, snaps[v])
    ensures SnapStored(KeepFor(pages, snaps), snaps[v])
  {
    hide Pages, Good, Sorted, WF, Stored;
    var sn, keep := snaps[v], KeepFor(pages, snaps);
    forall p | p in SnapPages(sn) && p in pages ensures p in keep && keep[p] == pages[p] {
      assert Needed(snaps, p);
    }
    if sn.root != 0 {
      StoredOn(pages, keep, sn.t, SnapPages(sn));
    }
  }
}
