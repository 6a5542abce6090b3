/**
 * The file as a crash may leave it: what was synced, plus any of the writes since then. Pages and
 * the meta record are written as units.
 */
module DiskModel {
  import opened Nodes
  import opened PageState

  /** The record on page 0. */
  datatype Meta = Meta(
    root: nat, flushed: nat, headPage: nat, headSeq: nat, tailPage: nat, tailSeq: nat, version: nat)

  datatype Write = PutPage(ptr: nat, page: Page) | PutMeta(meta: Meta)

  datatype OptMeta = NoMeta | SomeMeta(meta: Meta)

  datatype Image = Image(pages: map<nat, Page>, meta: OptMeta)

  /** `synced` is durable; `dirty` are the writes issued since. */
  datatype Disk = Disk(synced: Image, dirty: seq<Write>)

  function Apply(img: Image, w: Write): Image {
    match w
    case PutPage(ptr, page) => img.(pages := img.pages[ptr := page])
    case PutMeta(meta) => img.(meta := SomeMeta(meta))
  }

  /** The image in which exactly the marked writes have survived. */
  function Survive(img: Image, ws: seq<Write>, mask: seq<bool>): Image
    requires |mask| == |ws|
  {
    if ws == [] then img
    else
      var before := Survive(img, ws[..|ws| - 1], mask[..|ws| - 1]);
      if mask[|ws| - 1] then Apply(before, ws[|ws| - 1]) else before
  }

  /** The image with every write applied: what the running process reads. */
  function Cached(img: Image, ws: seq<Write>): Image {
    if ws == [] then img else Apply(Cached(img, ws[..|ws| - 1]), ws[|ws| - 1])
  }

  /** The file as the process reads it. */
  function Seen(d: Disk): Image {
    Cached(d.synced, d.dirty)
  }

  function Issue(d: Disk, w: Write): Disk {
    d.(dirty := d.dirty + [w])
  }

  /** A successful fsync. */
  function Synced(d: Disk): Disk {
    Disk(Seen(d), [])
  }

  lemma SeenIssue(d: Disk, w: Write)
    ensures Seen(Issue(d, w)) == Apply(Seen(d), w)
  {
    assert (d.dirty + [w])[..|d.dirty|] == d.dirty;
  }

  // ---- what one version of the database needs from the file ----

  /** The meta record, the free list it starts, and the pages of the tree. */
  datatype Version = Version(meta: Meta, chain: seq<nat>, qptr: seq<nat>, qver: seq<nat>, nodes: map<nat, Node>)

  ghost predicate HasSlot(v: Version, i: nat, p: nat) {
    v.meta.headSeq <= i < v.meta.tailSeq && i < |v.qptr| == |v.qver| && i / CAP < |v.chain| && v.chain[i / CAP] == p
  }

  ghost predicate HasLink(v: Version, b: nat, p: nat) {
    v.meta.headSeq / CAP <= b < |v.chain| - 1 && v.chain[b] == p
  }

  /** Everything that version `v` needs from page `p` is in `pg`. */
  ghost predicate PageFits(v: Version, p: nat, pg: Page) {
    && (p in v.nodes ==> pg == TreePage(v.nodes[p]))
    && (forall i: nat :: HasSlot(v, i, p) ==> SlotAt(pg, i % CAP, v.qptr[i], v.qver[i]))
    && (forall b: nat :: HasLink(v, b, p) ==> LinkAt(pg, v.chain[b + 1]))
  }

  ghost predicate ImageFits(v: Version, pages: map<nat, Page>) {
    forall p :: 1 <= p < v.meta.flushed ==> p in pages && PageFits(v, p, pages[p])
  }

  /** The image is a whole version: its meta record, its tree, its free list. */
  ghost predicate Loads(img: Image, v: Version) {
    img.meta == SomeMeta(v.meta) && ImageFits(v, img.pages)
  }

  ghost predicate WriteFits(v: Version, w: Write) {
    w.PutPage? ==> PageFits(v, w.ptr, w.page)
  }

  /** A write that can hurt neither version. */
  ghost predicate Harmless(a: Version, b: Version, w: Write) {
    && (w.PutMeta? ==> w.meta == a.meta || w.meta == b.meta)
    && WriteFits(a, w) && WriteFits(b, w)
  }

  /** Whatever survives a crash is the version `a` or the version `b`. */
  ghost predicate Recoverable(d: Disk, a: Version, b: Version) {
    && (Loads(d.synced, a) || Loads(d.synced, b))
    && ImageFits(a, d.synced.pages) && ImageFits(b, d.synced.pages)
    && forall j :: 0 <= j < |d.dirty| ==> Harmless(a, b, d.dirty[j])
  }

  /** After a crash at this moment, with any subset of the unsynced writes, one of the two versions loads. */
  lemma {:induction false} CrashLoads(d: Disk, a: Version, b: Version, mask: seq<bool>)
    requires Recoverable(d, a, b) && |mask| == |d.dirty|
    ensures var img := Survive(d.synced, d.dirty, mask);
            && (Loads(img, a) || Loads(img, b))
            && ImageFits(a, img.pages) && ImageFits(b, img.pages)
    decreases |d.dirty|
  {
    hide PageFits;
    if d.dirty != [] {
      var n := |d.dirty| - 1;
      CrashLoads(Disk(d.synced, d.dirty[..n]), a, b, mask[..n]);
      assert Harmless(a, b, d.dirty[n]);
    }
  }

  lemma {:induction false} AllSurvive(img: Image, ws: seq<Write>, mask: seq<bool>)
    requires |mask| == |ws| && forall j :: 0 <= j < |ws| ==> mask[j]
    ensures Survive(img, ws, mask) == Cached(img, ws)
    decreases |ws|
  {
    if ws != [] {
      AllSurvive(img, ws[..|ws| - 1], mask[..|ws| - 1]);
    }
  }

  /** The running process sees a whole version, too. */
  lemma SeenLoads(d: Disk, a: Version, b: Version)
    requires Recoverable(d, a, b)
    ensures Loads(Seen(d), a) || Loads(Seen(d), b)
    ensures ImageFits(a, Seen(d).pages) && ImageFits(b, Seen(d).pages)
  {
    hide ImageFits, Harmless;
    var mask := seq(|d.dirty|, _ => true);
    CrashLoads(d, a, b, mask);
    AllSurvive(d.synced, d.dirty, mask);
  }

  // ---- the steps of a commit ----

  lemma IssueSafe(d: Disk, a: Version, b: Version, w: Write)
    requires Recoverable(d, a, b) && Harmless(a, b, w)
    ensures Recoverable(Issue(d, w), a, b)
  {
    hide ImageFits, PageFits, Harmless;
  }

  lemma SyncSafe(d: Disk, a: Version, b: Version)
    requires Recoverable(d, a, b)
    ensures Recoverable(Synced(d), a, b)
  {
    hide ImageFits, PageFits, Harmless;
    SeenLoads(d, a, b);
  }

  /** With nothing unsynced, only the meta record decides which version is there. */
  lemma Settled(d: Disk, a: Version, b: Version)
    requires d.dirty == [] && Loads(d.synced, a) && ImageFits(b, d.synced.pages)
    ensures Recoverable(d, a, b) && Recoverable(d, b, a)
  {
    hide ImageFits, PageFits, Harmless;
  }

  lemma {:induction false} SeenMeta(d: Disk, w: Write)
    requires w.PutMeta?
    ensures Seen(Issue(d, w)).meta == SomeMeta(w.meta) && Seen(Issue(d, w)).pages == Seen(d).pages
  {
    SeenIssue(d, w);
  }
}
