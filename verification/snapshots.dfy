/** The versions of the database: what a commit replaces, what it leaves alone, and how a file is reopened. */
module Snapshots {
  import opened Bytes
  import opened SortedSeq
  import opened Nodes
  import opened Trees
  import opened PageState
  import opened Epochs
  import opened BTrees
  import opened DiskModel
  import PS = PageStore

  /** A root page and the tree it unfolds to; root 0 is the empty tree. */
  datatype Snap = Snap(root: nat, t: Tree, h: nat)

  ghost function SnapView(sn: Snap): seq<Entry> {
    if sn.root == 0 then [] else Flat(sn.t)
  }

  ghost function SnapMap(sn: Snap): map<Bytes, Bytes> {
    Visible(SnapView(sn))
  }

  ghost function SnapPages(sn: Snap): multiset<nat> {
    if sn.root == 0 then multiset{} else multiset{sn.root} + Pages(sn.t)
  }

  ghost predicate SnapStored(pages: map<nat, Node>, sn: Snap) {
    sn.root != 0 ==> RootOK(pages, sn.root, sn.t, sn.h)
  }

  /** A version between two commits. */
  datatype Committed = Committed(s: State, sn: Snap, version: nat)

  ghost predicate CommittedOK(c: Committed) {
    && Idle(c.s) && SnapStored(c.s.pages, c.sn) && c.s.inUse == SnapPages(c.sn)
    && (forall i :: c.s.headSeq <= i < c.s.tailSeq ==> c.s.qver[i] <= c.version)
  }

  ghost function MetaOf(s: State, root: nat, version: nat): Meta {
    Meta(root, s.flushed, s.headPage, s.headSeq, s.tailPage, s.tailSeq, version)
  }

  ghost function VersionOf(s: State, root: nat, version: nat): Version {
    Version(MetaOf(s, root, version), s.chain, s.qptr, s.qver, map p | p in s.inUse && p in s.pages :: s.pages[p])
  }

  ghost function OnDisk(c: Committed): Version {
    VersionOf(c.s, c.sn.root, c.version)
  }

  /** Opening the file `img` gives the map `m`. */
  ghost predicate Opens(img: Image, m: map<Bytes, Bytes>) {
    exists c: Committed :: CommittedOK(c) && c.sn.root != 0 && Loads(img, OnDisk(c)) && m == SnapMap(c.sn)
  }

  // ---- what is in the pages ----

  lemma CoreFits(s: State, root: nat, version: nat, p: nat)
    requires Core(s)
    ensures PageFits(VersionOf(s, root, version), p, Current(s, p))
  {
    hide Partition, Available, Versions, Current;
    var v := VersionOf(s, root, version);
    forall i: nat | HasSlot(v, i, p) ensures SlotAt(Current(s, p), i % CAP, v.qptr[i], v.qver[i]) {
      assert SlotHolds(s, i);
    }
  }

  /** With nothing pending, the file holds the whole version. */
  lemma FileFits(s: State, root: nat, version: nat)
    requires Core(s) && s.updates == map[] && s.nappend == 0 && s.flushed >= 3
    ensures ImageFits(VersionOf(s, root, version), s.file)
  {
    hide Partition, Available, Versions, PageFits, Slots, Links, TreePages, SinceStart, Numbers;
    forall p | 1 <= p < s.flushed ensures p in s.file && PageFits(VersionOf(s, root, version), p, s.file[p]) {
      CoreFits(s, root, version, p);
    }
  }

  /** Pending writes do not touch what the last version needs. */
  lemma OldFits(s0: State, s: State, root: nat, version: nat, p: nat)
    requires Working(s0, s) && p in s.updates
    ensures PageFits(VersionOf(s0, root, version), p, s.updates[p])
  {
    var v := VersionOf(s0, root, version);
    OldNodes(s0, s, p);
    hide Domain, Slots, Links, TreePages, Available, Versions, SinceStart, Partition;
    assert Current(s, p) == s.updates[p];
    hide Current;
    forall i: nat | HasSlot(v, i, p) ensures SlotAt(s.updates[p], i % CAP, v.qptr[i], v.qver[i]) {
      SameBlock(s0, s, i);
    }
    forall b: nat | HasLink(v, b, p) ensures LinkAt(s.updates[p], v.chain[b + 1]) {
      SameLink(s0, s, b);
    }
  }

  lemma OldNodes(s0: State, s: State, p: nat)
    requires Working(s0, s) && p in s.updates
    ensures p !in s0.inUse
  {
    hide Domain, Slots, Links, Available, Versions, SinceStart, Partition, Current;
  }

  lemma SameLink(s0: State, s: State, b: nat)
    requires Working(s0, s) && s0.headSeq / CAP <= b < |s0.chain| - 1
    ensures b < |s.chain| && s.chain[b] == s0.chain[b]
    ensures LinkAt(Current(s, s.chain[b]), s0.chain[b + 1])
  {
    hide Domain, Slots, TreePages, Available, Versions, Partition, Current;
    assert s.chain[..|s.start.chain|][b] == s0.chain[..|s.start.chain|][b];
    assert s.chain[..|s.start.chain|][b + 1] == s0.chain[..|s.start.chain|][b + 1];
  }

  // ---- reopening ----

  ghost function Reopened(c: Committed, file: map<nat, Page>): State {
    var nodes := OnDisk(c).nodes;
    Revert(Restart(c.s, nodes, c.version), file)
  }

  /** A whole image is the state between two commits again, with only the current tree kept. */
  lemma ReopenKeeps(c: Committed, file: map<nat, Page>)
    requires CommittedOK(c) && c.sn.root != 0 && ImageFits(OnDisk(c), file)
    ensures Idle(Reopened(c, file)) && SnapStored(Reopened(c, file).pages, c.sn)
    ensures Reopened(c, file).inUse == SnapPages(c.sn)
  {
    var nodes := OnDisk(c).nodes;
    var s1 := Restart(c.s, nodes, c.version);
    hide Core, RootOK, ImageFits, Keeps, SnapPages;
    CurrentKept(c);
    RootInside(c);
    RestartKeeps(c.s, nodes, c.version);
    assert VersionOf(s1, c.sn.root, c.version) == OnDisk(c);
    ReplaceFile(s1, c.sn.root, c.version, file);
  }

  /** Only the page of the root decides that there is more than the first list page. */
  lemma RootInside(c: Committed)
    requires CommittedOK(c) && c.sn.root != 0
    ensures c.s.flushed >= 3
  {
    hide Domain, Slots, Links, Available, Versions, SinceStart, Pages, RootOK, TreePages;
    assert c.sn.root in c.s.inUse;
    Roles(c.s, c.sn.root);
    ListPageRole(c.s, |c.s.chain| - 1);
  }

  /** The pages of the current tree are not in the free list. */
  lemma CurrentKept(c: Committed)
    requires CommittedOK(c)
    ensures Keeps(c.s, OnDisk(c).nodes, c.version) && SnapStored(OnDisk(c).nodes, c.sn)
  {
    hide Core, Numbers, SnapStored, SnapPages;
    CommittedNumbers(c);
    var s, nodes := c.s, OnDisk(c).nodes;
    forall i | s.headSeq <= i < s.tailSeq ensures s.qptr[i] !in nodes {
      QueuedElsewhere(s, i);
    }
    NodesKept(c);
  }

  lemma CommittedNumbers(c: Committed)
    requires CommittedOK(c)
    ensures Numbers(c.s) && |c.s.qptr| == |c.s.qver| == c.s.tailSeq
    ensures forall p :: p in c.s.inUse ==> p in c.s.pages
  {
    hide Partition, Domain, Slots, Links, Available, Versions, SinceStart, SnapStored, SnapPages;
  }

  lemma QueuedElsewhere(s: State, i: nat)
    requires Core(s) && Numbers(s) && s.headSeq <= i < s.tailSeq
    ensures i < |s.qptr| && s.qptr[i] !in s.inUse
  {
    hide Domain, Slots, Links, Available, Versions, SinceStart, TreePages;
    QueueRole(s, i);
  }

  lemma NodesKept(c: Committed)
    requires CommittedOK(c)
    ensures SnapStored(OnDisk(c).nodes, c.sn)
  {
    hide Core;
    if c.sn.root != 0 {
      CommittedNumbers(c);
      hide Pages, Stored, Good, WF, Sorted;
      StoredOn(c.s.pages, OnDisk(c).nodes, c.sn.t, c.s.inUse);
    }
  }

  /** A tree only needs its own pages. */
  lemma {:induction false} StoredOn(pages: map<nat, Node>, keep: map<nat, Node>, t: Tree, on: multiset<nat>)
    requires Stored(pages, t) && Pages(t) <= on
    requires forall p :: p in on && p in pages ==> p in keep && keep[p] == pages[p]
    ensures Stored(keep, t)
    decreases t
  {
    if t.Inner? {
      forall i | 0 <= i < |t.kids| ensures StoredKid(keep, t.kids[i]) {
        var k := t.kids[i];
        assert StoredKid(pages, k);
        KidIn(t.kids, i);
        StoredOn(pages, keep, k.sub, on);
      }
    }
  }

  lemma KidIn(kids: seq<Kid>, i: nat)
    requires i < |kids|
    ensures kids[i].ptr in PagesKids(kids) && Pages(kids[i].sub) <= PagesKids(kids)
  {
    hide PagesKids, Pages;
    AroundKid(kids, i);
  }

  /** The file may be replaced by any other that holds the version. */
  lemma ReplaceFile(s: State, root: nat, version: nat, file: map<nat, Page>)
    requires Idle(s) && s.flushed >= 3 && ImageFits(VersionOf(s, root, version), file)
    requires forall p :: p in s.pages ==> p in s.inUse
    ensures Idle(Revert(s, file))
  {
    var s' := Revert(s, file);
    ReplaceContent(s, root, version, file);
    ReplaceSlots(s, root, version, file);
    RevertAvailable(s, file);
    hide Domain, Slots, Links, TreePages, Available, Versions, SinceStart, Partition;
    SamePartition(s, s');
  }

  lemma ReplaceContent(s: State, root: nat, version: nat, file: map<nat, Page>)
    requires Idle(s) && s.flushed >= 3 && ImageFits(VersionOf(s, root, version), file)
    requires forall p :: p in s.pages ==> p in s.inUse
    ensures var s' := Revert(s, file); Numbers(s') && Domain(s') && TreePages(s') && Versions(s') && SinceStart(s')
  {
    hide Slots, Links, Available, Partition, TreePages, PageFits;
    ReplaceTree(s, root, version, file);
  }

  lemma ReplaceTree(s: State, root: nat, version: nat, file: map<nat, Page>)
    requires Idle(s) && s.flushed >= 3 && ImageFits(VersionOf(s, root, version), file)
    requires forall p :: p in s.pages ==> p in s.inUse
    ensures TreePages(Revert(s, file))
  {
    hide Slots, Links, Available, Partition, Numbers, Versions, SinceStart, Domain;
  }

  lemma ReplaceSlots(s: State, root: nat, version: nat, file: map<nat, Page>)
    requires Idle(s) && s.flushed >= 3 && ImageFits(VersionOf(s, root, version), file)
    ensures Numbers(Revert(s, file)) && Slots(Revert(s, file)) && Links(Revert(s, file))
  {
    hide TreePages, Available, Partition, Versions, SinceStart, Slots, Links;
    var s', v := Revert(s, file), VersionOf(s, root, version);
    assert Numbers(s');
    forall i | s'.start.headSeq <= i < s'.tailSeq ensures SlotHolds(s', i) {
      assert 1 <= s.chain[i / CAP] < End(s);
      assert HasSlot(v, i, s.chain[i / CAP]);
    }
    forall b | s'.start.headSeq / CAP <= b < |s'.chain| - 1 ensures LinkAt(Current(s', s'.chain[b]), s'.chain[b + 1]) {
      assert HasLink(v, b, s.chain[b]);
    }
    assert Slots(s') by { SlotsFrom(s'); }
    assert Links(s') by { LinksFrom(s'); }
  }

  lemma SlotsFrom(s: State)
    requires Numbers(s) && forall i :: s.start.headSeq <= i < s.tailSeq ==> SlotHolds(s, i)
    ensures Slots(s)
  {
  }

  lemma LinksFrom(s: State)
    requires forall b :: s.start.headSeq / CAP <= b < |s.chain| - 1 ==> LinkAt(Current(s, s.chain[b]), s.chain[b + 1])
    ensures Links(s)
  {
  }

  /** A file opens to one map at most: an image is never taken for two versions. */
  lemma OpensOne(img: Image, m1: map<Bytes, Bytes>, m2: map<Bytes, Bytes>)
    requires Opens(img, m1) && Opens(img, m2)
    ensures m1 == m2
  {
    hide CommittedOK, Loads, OnDisk, SnapMap, RootOK, Good, Stored;
    var c1: Committed :| CommittedOK(c1) && c1.sn.root != 0 && Loads(img, OnDisk(c1)) && m1 == SnapMap(c1.sn);
    var c2: Committed :| CommittedOK(c2) && c2.sn.root != 0 && Loads(img, OnDisk(c2)) && m2 == SnapMap(c2.sn);
    LoadedTree(img, c1);
    LoadedTree(img, c2);
    OneTree(PS.NodesIn(img.pages), c1.sn, c2.sn);
  }

  /** The tree of a version is in the file that holds it. */
  lemma LoadedTree(img: Image, c: Committed)
    requires CommittedOK(c) && c.sn.root != 0 && Loads(img, OnDisk(c))
    ensures SnapStored(PS.NodesIn(img.pages), c.sn) && img.meta.SomeMeta? && img.meta.meta.root == c.sn.root
  {
    CurrentKept(c);
    TreeInside(c);
    hide CommittedOK, RootOK;
    forall p | p in OnDisk(c).nodes ensures p in PS.NodesIn(img.pages) && PS.NodesIn(img.pages)[p] == OnDisk(c).nodes[p] {
      assert PageFits(OnDisk(c), p, img.pages[p]);
    }
    RootGrows(c.sn.t, c.sn.h, OnDisk(c).nodes, PS.NodesIn(img.pages), c.sn.root);
  }

  lemma TreeInside(c: Committed)
    requires CommittedOK(c)
    ensures forall p :: p in OnDisk(c).nodes ==> 1 <= p < OnDisk(c).meta.flushed
  {
    hide Numbers, Domain, Slots, Links, Available, Versions, SinceStart, Partition, SnapStored, SnapPages;
  }

  lemma OneTree(pages: map<nat, Node>, a: Snap, b: Snap)
    requires SnapStored(pages, a) && SnapStored(pages, b) && a.root == b.root != 0
    ensures SnapMap(a) == SnapMap(b)
  {
    hide WF, Stored;
    UniqueTree(pages, a.t, a.h, b.t, b.h);
  }
}
