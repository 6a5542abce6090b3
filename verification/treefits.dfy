/**
 * What an update or deletion makes of the nodes on its search path: their entries up to page
 * pointers, which decide where a page overflows and when the tree changes its height.
 */
module TreeFits {
  import opened Bytes
  import opened Seqs
  import opened SortedSeq
  import opened Nodes
  import opened Trees
  import opened TreeOps

  /** The entries without their pointers. */
  ghost function Bare(es: seq<Entry>): (r: seq<Entry>)
    ensures |r| == |es|
  {
    seq(|es|, i requires 0 <= i < |es| => Entry(0, es[i].key, es[i].val))
  }

  /** One separator for each part. */
  ghost function SepsOf(parts: seq<seq<Entry>>): (r: seq<Entry>)
    ensures |r| == |parts|
  {
    seq(|parts|, i requires 0 <= i < |parts| => Entry(0, KeyOf(parts[i]), []))
  }

  ghost function KeyOf(es: seq<Entry>): Bytes {
    if es == [] then [] else es[0].key
  }

  // ---- updates ----

  /** The root node of `t` after the update of `key`: on the way up, every kid is replaced by its parts. */
  ghost function Updated(t: Tree, key: Bytes, val: Bytes): seq<Entry>
    decreases t
  {
    match t
    case Leaf(es) => Bare(Put(es, key, val))
    case Inner(kids) =>
      var r := LE(Seps(kids), key);
      if r < 0 then [] else Bare(Splice(Seps(kids), r, r + 1, SepsOf(PartsOf(Updated(kids[r].sub, key, val)))))
  }

  /** Every node below the root on the way to `key` can be split into pages after the update. */
  ghost predicate UpdateFits(t: Tree, key: Bytes, val: Bytes)
    decreases t
  {
    t.Inner? ==>
      var r := LE(Seps(t.kids), key);
      r < 0 || (UpdateFits(t.kids[r].sub, key, val) && SplitFits(Updated(t.kids[r].sub, key, val)))
  }

  // ---- deletions ----

  /** With which neighbour kid `r` is merged when its node has become `es`. */
  ghost function MergeSide(kids: seq<Kid>, r: nat, es: seq<Entry>): (side: int)
    requires r < |kids|
    ensures side == -1 ==> r > 0
    ensures side == 1 ==> r + 1 < |kids|
    ensures -1 <= side <= 1
  {
    if HEADER + EsSize(es) > PAGE / 4 then 0
    else if r > 0 && HEADER + EsSize(NodeOf(kids[r - 1].sub).es) + EsSize(es) <= PAGE then -1
    else if r + 1 < |kids| && HEADER + EsSize(NodeOf(kids[r + 1].sub).es) + EsSize(es) <= PAGE then 1
    else 0
  }

  /** The first key of what kid `r` has become, merged if it is. */
  ghost function SideKey(kids: seq<Kid>, r: nat, es: seq<Entry>): Bytes
    requires r < |kids|
  {
    var side := MergeSide(kids, r, es);
    KeyOf(if side < 0 then NodeOf(kids[r - 1].sub).es + es else if side > 0 then es + NodeOf(kids[r + 1].sub).es else es)
  }

  /** The separators of a node whose kid `r` has become `es` and is stored, merged if it is, on the page `ptr`. */
  ghost function Shrunk(kids: seq<Kid>, r: nat, es: seq<Entry>, ptr: nat): seq<Entry>
    requires r < |kids|
  {
    var side := MergeSide(kids, r, es);
    if side == 0 && es == [] then []
    else Splice(Seps(kids), if side < 0 then r - 1 else r, if side > 0 then r + 2 else r + 1, [Entry(ptr, SideKey(kids, r, es), [])])
  }

  /** The root node of `t` after the deletion of `key`. */
  ghost function Deleted(t: Tree, key: Bytes): seq<Entry>
    decreases t
  {
    match t
    case Leaf(es) => Bare(Remove(es, key))
    case Inner(kids) =>
      var r := LE(Seps(kids), key);
      if r < 0 then [] else Bare(Shrunk(kids, r, Deleted(kids[r].sub, key), 0))
  }

  /** Every inner node on the way to `key` fits its page after the deletion. */
  ghost predicate DeleteFits(t: Tree, key: Bytes)
    decreases t
  {
    t.Inner? ==>
      var r := LE(Seps(t.kids), key);
      r < 0 || (DeleteFits(t.kids[r].sub, key) && HEADER + EsSize(Deleted(t, key)) <= PAGE)
  }

  // ---- pointers do not matter ----

  lemma {:induction false} BareSize(es: seq<Entry>)
    ensures EsSize(Bare(es)) == EsSize(es)
    decreases |es|
  {
    if es != [] {
      BareSize(es[..|es| - 1]);
      assert Bare(es)[..|es| - 1] == Bare(es[..|es| - 1]);
    }
  }

  lemma BareSlice(es: seq<Entry>, lo: nat, hi: nat)
    requires lo <= hi <= |es|
    ensures Bare(es)[lo..hi] == Bare(es[lo..hi])
  {
  }

  lemma {:induction false} BareCutFrom(es: seq<Entry>, n: nat)
    requires n <= |es|
    ensures CutFrom(Bare(es), n) == CutFrom(es, n)
    decreases |es| - n
  {
    BareSlice(es, n, |es|);
    BareSize(es[n..]);
    assert Bare(es)[n..] == Bare(es)[n..|es|] && es[n..] == es[n..|es|];
    hide EsSize, Bare;
    if n < |es| {
      BareCutFrom(es, n + 1);
    }
  }

  /** The cuts, the parts and the outcome of a split are the same. */
  lemma BareSplit(es: seq<Entry>)
    ensures SplitFits(Bare(es)) == SplitFits(es)
    ensures |PartsOf(Bare(es))| == |PartsOf(es)|
    ensures forall i :: 0 <= i < |PartsOf(es)| ==> PartsOf(Bare(es))[i] == Bare(PartsOf(es)[i])
  {
    hide EsSize, CutFrom, Bare;
    var c := Cut(es);
    var d := Cut(es[..c]);
    BareCutFrom(es, |es| / 2);
    BareCutFrom(es[..c], c / 2);
    BareSlice(es, 0, c);
    BareSlice(es, c, |es|);
    BareSlice(es, d, c);
    BareSlice(es, 0, d);
    assert Bare(es)[..c] == Bare(es)[0..c] && es[..c] == es[0..c] && es[..c][..d] == es[..d] && es[..d] == es[0..d];
    assert Bare(es)[c..] == Bare(es)[c..|es|] && es[c..] == es[c..|es|];
    assert Bare(es)[..d] == Bare(es)[0..d] && Bare(es)[..c][..d] == Bare(es)[..d];
    BareSize(es);
    BareSize(es[..c]);
    BareSize(es[..d]);
  }

  lemma BareKey(es: seq<Entry>)
    ensures KeyOf(Bare(es)) == KeyOf(es)
  {
  }

  lemma BareConcat(a: seq<Entry>, b: seq<Entry>)
    ensures Bare(a + b) == Bare(a) + Bare(b)
  {
  }

  /** Two replacements that agree up to pointers. */
  lemma BareSplice(es: seq<Entry>, lo: nat, hi: nat, mid: seq<Entry>, mid': seq<Entry>)
    requires lo <= hi <= |es| && Bare(mid) == Bare(mid')
    ensures Bare(Splice(es, lo, hi, mid)) == Bare(Splice(es, lo, hi, mid'))
  {
    hide Bare;
    BareConcat(es[..lo], mid);
    BareConcat(es[..lo] + mid, es[hi..]);
    BareConcat(es[..lo], mid');
    BareConcat(es[..lo] + mid', es[hi..]);
  }

  // ---- one step of an update ----

  /** The rebuilt parent of a split kid. */
  lemma StepUpdated(kids: seq<Kid>, key: Bytes, val: Bytes, r: nat, es: seq<Entry>, parts: seq<Node>, ptrs: seq<nat>)
    requires r < |kids| && r == LE(Seps(kids), key) && Bare(es) == Updated(kids[r].sub, key, val)
    requires SplitParts(parts, es) && |ptrs| == |parts| && forall i :: 0 <= i < |parts| ==> parts[i].es != []
    ensures Bare(Splice(Seps(kids), r, r + 1, PartEntries(ptrs, parts))) == Updated(Inner(kids), key, val)
  {
    hide Bare, PartsOf, SepsOf, Splice, LE, SplitParts;
    PartSeps(es, parts, ptrs);
    BareSplice(Seps(kids), r, r + 1, PartEntries(ptrs, parts), SepsOf(PartsOf(Bare(es))));
  }

  lemma PartSeps(es: seq<Entry>, parts: seq<Node>, ptrs: seq<nat>)
    requires SplitParts(parts, es) && |ptrs| == |parts| && forall i :: 0 <= i < |parts| ==> parts[i].es != []
    ensures Bare(PartEntries(ptrs, parts)) == Bare(SepsOf(PartsOf(Bare(es))))
  {
    BareSplit(es);
    hide PartsOf;
    var a, b := PartEntries(ptrs, parts), SepsOf(PartsOf(Bare(es)));
    forall i | 0 <= i < |a| ensures Bare(a)[i] == Bare(b)[i] {
      BareKey(parts[i].es);
      assert a[i].key == KeyOf(parts[i].es) && b[i].key == KeyOf(PartsOf(Bare(es))[i]);
    }
  }

  /** Where a node on the search path fits. */
  lemma FitsAbove(t: Tree, key: Bytes, val: Bytes, r: nat)
    requires t.Inner? && r < |t.kids| && r == LE(Seps(t.kids), key)
    ensures UpdateFits(t, key, val) <==> UpdateFits(t.kids[r].sub, key, val) && SplitFits(Updated(t.kids[r].sub, key, val))
  {
    hide LE, SplitFits, Updated;
  }

  /** An update never takes separators away from a node. */
  lemma UpdatedGrows(t: Tree, key: Bytes, val: Bytes)
    requires t.Inner? && LE(Seps(t.kids), key) >= 0
    ensures |Updated(t, key, val)| >= |t.kids|
  {
    hide LE, PartsOf;
    var r := LE(Seps(t.kids), key);
    SpliceIndex(Seps(t.kids), r, r + 1, SepsOf(PartsOf(Updated(t.kids[r].sub, key, val))));
  }

  // ---- one step of a deletion ----

  lemma BareSide(kids: seq<Kid>, r: nat, es: seq<Entry>)
    requires r < |kids|
    ensures MergeSide(kids, r, Bare(es)) == MergeSide(kids, r, es) && SideKey(kids, r, Bare(es)) == SideKey(kids, r, es)
  {
    BareSize(es);
    hide EsSize, Seps, NodeOf;
  }

  /** The rebuilt parent, with or without a merge. */
  lemma StepDeleted(kids: seq<Kid>, key: Bytes, r: nat, es: seq<Entry>, ptr: nat)
    requires r < |kids| && r == LE(Seps(kids), key) && Bare(es) == Deleted(kids[r].sub, key)
    ensures Bare(Shrunk(kids, r, es, ptr)) == Deleted(Inner(kids), key)
  {
    hide Splice, LE, NodeOf, MergeSide, SideKey, KeyOf;
    BareSide(kids, r, es);
    var side, k := MergeSide(kids, r, es), SideKey(kids, r, es);
    if side != 0 || es != [] {
      assert Bare([Entry(ptr, k, [])]) == Bare([Entry(0, k, [])]);
      hide Bare;
      BareSplice(Seps(kids), if side < 0 then r - 1 else r, if side > 0 then r + 2 else r + 1, [Entry(ptr, k, [])], [Entry(0, k, [])]);
    }
  }

  /** The room that the rebuilt parent takes: its separators, one or two of them replaced by the new one. */
  lemma DeletedSize(kids: seq<Kid>, key: Bytes, r: nat, es: seq<Entry>)
    requires r < |kids| && r == LE(Seps(kids), key) && Bare(es) == Deleted(kids[r].sub, key)
    ensures var side := MergeSide(kids, r, es);
            var lo, hi := if side < 0 then r - 1 else r, if side > 0 then r + 2 else r + 1;
            EsSize(Deleted(Inner(kids), key))
            == if side == 0 && es == [] then 0 else EsSize(Seps(kids)) - EsSize(Seps(kids)[lo..hi]) + 14 + |SideKey(kids, r, es)|
  {
    NoSize();
    hide EsSize, Splice, LE, NodeOf, MergeSide, SideKey, Bare, Deleted;
    StepDeleted(kids, key, r, es, 0);
    BareSize(Shrunk(kids, r, es, 0));
    var side := MergeSide(kids, r, es);
    var lo, hi := if side < 0 then r - 1 else r, if side > 0 then r + 2 else r + 1;
    EsSizeSplice(Seps(kids), lo, hi, [Entry(0, SideKey(kids, r, es), [])]);
    EsSizeOne(Entry(0, SideKey(kids, r, es), []));
  }

  /** Where a node on the search path of a deletion fits. */
  lemma DeleteFitsAbove(t: Tree, key: Bytes, r: nat)
    requires t.Inner? && r < |t.kids| && r == LE(Seps(t.kids), key)
    ensures DeleteFits(t, key) <==> DeleteFits(t.kids[r].sub, key) && HEADER + EsSize(Deleted(t, key)) <= PAGE
  {
    hide LE, EsSize, Deleted;
  }

  // ---- trees that were only ever updated ----

  /** The space that the keys of the entries take in inner nodes, if each had a separator. */
  ghost function KeySpace(s: seq<Entry>): nat {
    if s == [] then 0 else KeySpace(s[..|s| - 1]) + 14 + |s[|s| - 1].key|
  }

  lemma {:induction false} KeySpaceConcat(a: seq<Entry>, b: seq<Entry>)
    ensures KeySpace(a + b) == KeySpace(a) + KeySpace(b)
    decreases |b|
  {
    if b == [] {
      assert a + b == a;
    } else {
      KeySpaceConcat(a, b[..|b| - 1]);
      assert (a + b)[..|a + b| - 1] == a + b[..|b| - 1];
    }
  }

  lemma KeySpaceOne(e: Entry)
    ensures KeySpace([e]) == 14 + |e.key|
  {
    assert [e][..0] == [];
  }

  /** Separators are keys of different entries. */
  lemma {:induction false} SepsSpace(kids: seq<Kid>, h: nat)
    requires forall i :: 0 <= i < |kids| ==> Good(kids[i].sub, h)
    ensures EsSize(Seps(kids)) <= KeySpace(FlatKids(kids))
    decreases |kids|
  {
    if kids == [] {
      assert Seps(kids) == [];
    } else {
      hide EsSize, KeySpace, Flat, FlatKids, FirstKey, Good;
      var n := |kids| - 1;
      SepsSpace(kids[..n], h);
      OneSpace(kids[n], h);
      assert kids == kids[..n] + [kids[n]];
      assert Seps(kids) == Seps(kids[..n]) + [Sep(kids[n])];
      EsSizeConcat(Seps(kids[..n]), [Sep(kids[n])]);
      FlatKidsConcat(kids[..n], [kids[n]]);
      KeySpaceConcat(FlatKids(kids[..n]), Flat(kids[n].sub));
      OneKid(kids[n]);
    }
  }

  /** A separator is the key of the kid's first entry. */
  lemma OneSpace(k: Kid, h: nat)
    requires Good(k.sub, h)
    ensures EsSize([Sep(k)]) <= KeySpace(Flat(k.sub))
  {
    hide EsSize, KeySpace, Flat, FirstKey, Good;
    GoodFirst(k.sub, h);
    EsSizeOne(Sep(k));
    var s := Flat(k.sub);
    assert s == [s[0]] + s[1..];
    KeySpaceConcat([s[0]], s[1..]);
    KeySpaceOne(s[0]);
  }

  lemma KeySpacePut(s: seq<Entry>, key: Bytes, val: Bytes)
    ensures KeySpace(Put(s, key, val)) >= KeySpace(s)
  {
    hide KeySpace, LE;
    var lo, hi := PutAt(s, key), LE(s, key) + 1;
    var e := Entry(0, key, val);
    KeySpaceConcat(s[..lo], [e]);
    KeySpaceConcat(s[..lo] + [e], s[hi..]);
    KeySpaceOne(e);
    if lo < hi {
      assert s == s[..lo] + [s[lo]] + s[hi..];
      KeySpaceConcat(s[..lo], [s[lo]]);
      KeySpaceConcat(s[..lo] + [s[lo]], s[hi..]);
      KeySpaceOne(s[lo]);
    } else {
      assert s == s[..lo] + s[hi..];
      KeySpaceConcat(s[..lo], s[hi..]);
    }
  }

  lemma KeySpaceRemove(s: seq<Entry>, key: Bytes)
    ensures KeySpace(s) <= KeySpace(Remove(s, key)) + 14 + |key|
  {
    hide KeySpace, LE;
    if Has(s, key) {
      var i := LE(s, key);
      KeySpaceConcat(s[..i], s[i + 1..]);
      assert s == s[..i] + [s[i]] + s[i + 1..] && s[..i] + [] == s[..i];
      KeySpaceConcat(s[..i], [s[i]]);
      KeySpaceConcat(s[..i] + [s[i]], s[i + 1..]);
      KeySpaceOne(s[i]);
    }
  }

  /**
   * A tree that no deletion has touched: an inner root has at least two kids, and a third level takes
   * more keys than one page has room for.
   */
  ghost predicate GrownOnly(t: Tree, h: nat) {
    && (t.Inner? ==> |t.kids| >= 2)
    && (h >= 2 ==> HEADER + KeySpace(Flat(t)) > PAGE)
  }

  /** Adding a level to a root that was split. */
  lemma LevelGrown(t': Tree, h: nat, t: Tree)
    requires WF(t', h) && Size(NodeOf(t')) > PAGE && Flat(t) == Flat(t') && t.Inner? && |t.kids| >= 2
    ensures GrownOnly(t, h + 1)
  {
    if h > 0 {
      Kinds(t', h);
      SepsSpace(t'.kids, h - 1);
    }
  }

  /** The root changes without being split. */
  lemma SameLevelGrown(t: Tree, h: nat, t': Tree, key: Bytes, val: Bytes)
    requires WF(t, h) && WF(t', h) && GrownOnly(t, h) && Flat(t') == Put(Flat(t), key, val)
    requires Bare(NodeOf(t').es) == Updated(t, key, val) && (t.Inner? ==> LE(Seps(t.kids), key) >= 0)
    ensures GrownOnly(t', h)
  {
    hide Bare, Updated, KeySpace, Flat, LE, Put;
    KeySpacePut(Flat(t), key, val);
    if t'.Inner? {
      UpdatedGrows(t, key, val);
      assert |Seps(t'.kids)| == |t'.kids|;
    }
  }
}
