/** What one step of a deletion does to the tree a node unfolds to. */
module DeleteOps {
  import opened Bytes
  import opened Seqs
  import opened SortedSeq
  import opened Nodes
  import opened Trees
  import opened TreeOps

  /** Two trees of the same height side by side in one node. */
  ghost function Join(a: Tree, b: Tree): Tree {
    if a.Leaf? && b.Leaf? then Leaf(a.es + b.es)
    else if a.Inner? && b.Inner? then Inner(a.kids + b.kids)
    else a
  }

  lemma JoinFacts(a: Tree, b: Tree, h: nat, pages: map<nat, Node>)
    requires WF(a, h) && WF(b, h) && Stored(pages, a) && Stored(pages, b)
    ensures var t := Join(a, b);
            && NodeOf(t) == Node(h == 0, NodeOf(a).es + NodeOf(b).es)
            && Flat(t) == Flat(a) + Flat(b) && Pages(t) == Pages(a) + Pages(b)
            && WF(t, h) && Stored(pages, t)
            && Size(NodeOf(t)) == Size(NodeOf(a)) + Size(NodeOf(b)) - HEADER
            && (NodeOf(a).es != [] ==> FirstKey(t) == FirstKey(a))
            && (NodeOf(a).es == [] ==> FirstKey(t) == FirstKey(b))
  {
    if a.Inner? {
      JoinInner(a, b, h, pages);
    } else {
      EsSizeConcat(a.es, b.es);
      assert a.es == [] ==> a.es + b.es == b.es;
    }
  }

  lemma JoinInner(a: Tree, b: Tree, h: nat, pages: map<nat, Node>)
    requires a.Inner? && WF(a, h) && WF(b, h) && Stored(pages, a) && Stored(pages, b)
    ensures var t := Join(a, b);
            && NodeOf(t) == Node(false, NodeOf(a).es + NodeOf(b).es)
            && Flat(t) == Flat(a) + Flat(b) && Pages(t) == Pages(a) + Pages(b)
            && WF(t, h) && Stored(pages, t)
            && Size(NodeOf(t)) == Size(NodeOf(a)) + Size(NodeOf(b)) - HEADER
            && (NodeOf(a).es != [] ==> FirstKey(t) == FirstKey(a))
            && (NodeOf(a).es == [] ==> FirstKey(t) == FirstKey(b))
  {
    hide FlatKids, PagesKids, EsSize, Good, StoredKid;
    FlatKidsConcat(a.kids, b.kids);
    PagesKidsConcat(a.kids, b.kids);
    EsSizeConcat(Seps(a.kids), Seps(b.kids));
    assert Seps(a.kids + b.kids) == Seps(a.kids) + Seps(b.kids);
    assert |Seps(a.kids)| == |a.kids|;
    assert a.kids == [] ==> a.kids + b.kids == b.kids;
  }

  /** The list of kids seen around the neighbours `lo` and `lo + 1`. */
  lemma AroundPair(kids: seq<Kid>, lo: nat)
    requires lo + 1 < |kids|
    ensures FlatKids(kids[..lo + 1]) == FlatKids(kids[..lo]) + Flat(kids[lo].sub)
    ensures FlatKids(kids[lo + 1..]) == Flat(kids[lo + 1].sub) + FlatKids(kids[lo + 2..])
    ensures PagesKids(kids) == PagesKids(kids[..lo]) + (PagesKid(kids[lo]) + PagesKid(kids[lo + 1])) + PagesKids(kids[lo + 2..])
  {
    hide FlatKids, PagesKids, Flat, PagesKid;
    var a, b, x, y := kids[..lo], kids[lo + 2..], kids[lo], kids[lo + 1];
    PairSplit(kids, lo);
    OneKid(x);
    OneKid(y);
    FlatKidsConcat(a, [x]);
    FlatKidsConcat([y], b);
    PagesKidsConcat(a, [x]);
    PagesKidsConcat([y], b);
    PagesKidsConcat(a + [x], [y] + b);
  }

  lemma PairSplit(kids: seq<Kid>, lo: nat)
    requires lo + 1 < |kids|
    ensures kids[..lo + 1] == kids[..lo] + [kids[lo]]
    ensures kids[lo + 1..] == [kids[lo + 1]] + kids[lo + 2..]
    ensures kids == (kids[..lo] + [kids[lo]]) + ([kids[lo + 1]] + kids[lo + 2..])
  {
  }

  /** The node after the changed kid was merged with a neighbour into the page `ptr`. */
  lemma NodeMerged(kids: seq<Kid>, h: nat, key: Bytes, k': Tree, lo: nat, ptr: nat, m: Tree, pages: map<nat, Node>)
    requires h > 0 && Good(Inner(kids), h) && Stored(pages, Inner(kids)) && Sorted(FlatKids(kids))
    requires Le(FirstKey(Inner(kids)), key)
    requires 0 <= LE(Seps(kids), key) < |kids| && lo + 1 < |kids|
    requires var r := LE(Seps(kids), key);
             && Flat(k') == Remove(Flat(kids[r].sub), key)
             && (lo == r - 1 || lo == r)
             && (lo == r - 1 ==> Flat(m) == Flat(kids[lo].sub) + Flat(k'))
             && (lo == r ==> Flat(m) == Flat(k') + Flat(kids[lo + 1].sub))
    requires KidOK(pages, Kid(ptr, m), h - 1)
    ensures var t' := Inner(Splice(kids, lo, lo + 2, [Kid(ptr, m)]));
            && WF(t', h) && Stored(pages, t')
            && NodeOf(t') == Node(false, Splice(Seps(kids), lo, lo + 2, [Entry(ptr, FirstKey(m), [])]))
            && Flat(t') == Remove(FlatKids(kids), key)
            && Pages(t') == Pages(Inner(kids)) - (PagesKid(kids[lo]) + PagesKid(kids[lo + 1])) + (multiset{ptr} + Pages(m))
            && PagesKid(kids[lo]) + PagesKid(kids[lo + 1]) <= Pages(Inner(kids))
  {
    hide Compare, LE, FlatKids, Flat, EsSize, Put, Remove, Has, Val, PagesKids, PagesKid, Pages, Splice, Good, StoredKid;
    Around(kids, h, key, []);
    AroundPair(kids, lo);
    GoodWF(Inner(kids), h);
    hide Stored, WF;
    var mid := [Kid(ptr, m)];
    Replaced(kids, h, lo, lo + 2, mid, pages);
    OneKid(mid[0]);
    assert Seps(mid) == [Entry(ptr, FirstKey(m), [])];
    InnerOf(kids);
    OnePage(mid[0]);
    Swap(PagesKids(kids[..lo]), PagesKid(kids[lo]) + PagesKid(kids[lo + 1]), PagesKids(kids[lo + 2..]), multiset{ptr} + Pages(m));
  }

  lemma OnePage(k: Kid)
    ensures PagesKid(k) == multiset{k.ptr} + Pages(k.sub)
  {
  }

  /** The only kid lost its last entry: the node becomes empty. */
  lemma NodeEmptied(kids: seq<Kid>, h: nat, key: Bytes, k': Tree, pages: map<nat, Node>)
    requires h > 0 && Good(Inner(kids), h) && Sorted(FlatKids(kids)) && |kids| == 1
    requires Le(FirstKey(Inner(kids)), key)
    requires WF(k', h - 1) && NodeOf(k').es == [] && Flat(k') == Remove(Flat(kids[0].sub), key)
    ensures var t' := Inner([]);
            && WF(t', h) && Stored(pages, t') && NodeOf(t') == Node(false, [])
            && Flat(t') == Remove(FlatKids(kids), key)
            && Pages(t') == multiset{} && Pages(k') == multiset{}
            && Pages(Inner(kids)) == multiset{kids[0].ptr} + Pages(kids[0].sub)
  {
    hide Compare, LE, Remove, Flat, FlatKids, PagesKids, Pages, PagesKid, NodeOf, Good, Has, Val;
    Around(kids, h, key, []);
    assert kids[..0] == [] && kids[1..] == [] && kids == [kids[0]];
    NoKids();
    OneKid(kids[0]);
    OnePage(kids[0]);
    EmptyNode(k', h - 1);
    EmptyInner(h, pages);
    InnerOf(kids);
  }

  lemma EmptyInner(h: nat, pages: map<nat, Node>)
    requires h > 0
    ensures WF(Inner([]), h) && Stored(pages, Inner([])) && NodeOf(Inner([])) == Node(false, [])
    ensures Flat(Inner([])) == [] && Pages(Inner([])) == multiset{}
  {
  }

  lemma EmptyNode(t: Tree, h: nat)
    requires WF(t, h)
    ensures NodeOf(t).es == [] ==> Flat(t) == [] && Pages(t) == multiset{}
    ensures NodeOf(t).es != [] ==> Flat(t) != []
  {
    if NodeOf(t).es != [] {
      FirstOfFlat(t, h);
    } else if t.Inner? {
      assert |Seps(t.kids)| == |t.kids|;
    }
  }

  // ---- separators that do not grow ----

  /** The key after `key` is not longer than `key`. */
  ghost predicate ShortSuccessor(s: seq<Entry>, key: Bytes) {
    LE(s, key) + 1 < |s| ==> |s[LE(s, key) + 1].key| <= |key|
  }

  lemma ShortInKid(kids: seq<Kid>, h: nat, key: Bytes)
    requires h > 0 && Good(Inner(kids), h) && Sorted(FlatKids(kids)) && Le(FirstKey(Inner(kids)), key)
    requires ShortSuccessor(FlatKids(kids), key)
    ensures 0 <= LE(Seps(kids), key) < |kids| && ShortSuccessor(Flat(kids[LE(Seps(kids), key)].sub), key)
  {
    hide Compare, LE, FlatKids, Flat, EsSize;
    SepsSorted(kids, h - 1);
    LECorrect(Seps(kids), key);
    var r := LE(Seps(kids), key);
    LtNotGe(key, Seps(kids)[0].key);
    Descend(kids, h - 1, key, r);
    AroundKid(kids, r);
    var a, b, c := FlatKids(kids[..r]), Flat(kids[r].sub), FlatKids(kids[r + 1..]);
    hide Sorted;
    LEMiddle(a, b, c, key);
    if LE(b, key) + 1 < |b| {
      assert (a + b + c)[|a| + LE(b, key) + 1] == b[LE(b, key) + 1];
    }
  }

  /** The first key after a removal is the old one, or the removed key's successor. */
  lemma FirstAfterRemove(k: Tree, k': Tree, h: nat, key: Bytes)
    requires Good(k, h) && Sorted(Flat(k)) && Le(FirstKey(k), key) && ShortSuccessor(Flat(k), key)
    requires WF(k', h) && NodeOf(k').es != [] && Flat(k') == Remove(Flat(k), key)
    ensures |FirstKey(k')| <= |FirstKey(k)|
  {
    GoodFirst(k, h);
    FirstOfFlat(k', h);
    hide Compare, LE, Splice, Flat, FirstKey, NodeOf, WF;
    var s := Flat(k);
    LECorrect(s, key);
    if Has(s, key) {
      SpliceIndex(s, LE(s, key), LE(s, key) + 1, []);
    }
  }

  /** Replacing one entry by one with a key that is not longer does not grow the node. */
  lemma NotLonger(es: seq<Entry>, lo: nat, hi: nat, e: Entry, x: nat)
    requires lo <= x < hi <= |es| && e.val == [] && |e.key| <= |es[x].key|
    ensures EsSize(Splice(es, lo, hi, [e])) <= EsSize(es)
  {
    hide EsSize, Splice;
    EsSizeSplice(es, lo, hi, [e]);
    EsSizeOne(e);
    var m := es[lo..hi];
    EsSizeCut(m, x - lo);
    EsSizeCut(m[x - lo..], 1);
    assert m[x - lo..][..1] == [es[x]];
    EsSizeOne(es[x]);
  }

  /** Bookkeeping of a merge: the kid's subtree, the kid's page, the neighbour's page, the merged page. */
  lemma MergePages(use0: multiset<nat>, p: multiset<nat>, kptr: nat, k: multiset<nat>, k': multiset<nat>, sptr: nat, s: multiset<nat>, ptr: nat)
    requires (multiset{kptr} + k) + (multiset{sptr} + s) <= p <= use0
    ensures sptr in use0 - k + k' - multiset{kptr}
    ensures use0 - k + k' - multiset{kptr} - multiset{sptr} + multiset{ptr}
            == use0 - p + (p - ((multiset{kptr} + k) + (multiset{sptr} + s)) + (multiset{ptr} + (k' + s)))
  {
  }

  /** The tree made by merging the changed kid into its neighbour. */
  ghost function Merged(kids: seq<Kid>, r: nat, left: bool, k': Tree): Tree
    requires r < |kids| && (if left then r > 0 else r + 1 < |kids|)
  {
    if left then Join(kids[r - 1].sub, k') else Join(k', kids[r + 1].sub)
  }

  /** Facts about the merged node before it is stored. */
  lemma BeforeMerge(kids: seq<Kid>, h: nat, r: nat, left: bool, k': Tree, pages: map<nat, Node>)
    requires h > 0 && WF(Inner(kids), h) && Stored(pages, Inner(kids))
    requires r < |kids| && (if left then r > 0 else r + 1 < |kids|)
    requires WF(k', h - 1) && Stored(pages, k')
    ensures var s, m := kids[if left then r - 1 else r + 1].sub, Merged(kids, r, left, k');
            && NodeOf(m) == Node(h == 1, if left then NodeOf(s).es + NodeOf(k').es else NodeOf(k').es + NodeOf(s).es)
            && NodeOf(s).es != [] && NodeOf(m).es != [] && NodeOf(m).es[0].key == FirstKey(m)
            && Size(NodeOf(m)) == Size(NodeOf(s)) + Size(NodeOf(k')) - HEADER
            && WF(m, h - 1) && Stored(pages, m)
            && Flat(m) == (if left then Flat(s) + Flat(k') else Flat(k') + Flat(s))
            && Pages(m) == Pages(k') + Pages(s)
            && (left || NodeOf(k').es == [] ==> FirstKey(m) == FirstKey(s))
            && (!left && NodeOf(k').es != [] ==> FirstKey(m) == FirstKey(k'))
            && NodeOf(s).leaf == NodeOf(k').leaf == (h == 1)
  {
    var x := if left then r - 1 else r + 1;
    var s := kids[x].sub;
    assert StoredKid(pages, kids[x]) && Good(s, h - 1);
    if left {
      JoinFacts(s, k', h - 1, pages);
    } else {
      JoinFacts(k', s, h - 1, pages);
    }
    hide Flat, Pages, EsSize, WF, Stored, Good;
    FirstOfNode(Merged(kids, r, left, k'));
  }

  /** The separator of the merged page is no longer than one of the two it replaces. */
  lemma MergeFits(kids: seq<Kid>, h: nat, key: Bytes, left: bool, k': Tree, ptr: nat, pages: map<nat, Node>)
    requires h > 0 && Good(Inner(kids), h) && Stored(pages, Inner(kids)) && Sorted(FlatKids(kids)) && Le(FirstKey(Inner(kids)), key)
    requires 0 <= LE(Seps(kids), key) < |kids|
    requires var r := LE(Seps(kids), key);
             && (if left then r > 0 else r + 1 < |kids|)
             && WF(k', h - 1) && Stored(pages, k') && Flat(k') == Remove(Flat(kids[r].sub), key)
    requires left || ShortSuccessor(FlatKids(kids), key)
    ensures var r := LE(Seps(kids), key);
            var lo := if left then r - 1 else r;
            EsSize(Splice(Seps(kids), lo, lo + 2, [Entry(ptr, FirstKey(Merged(kids, r, left, k')), [])])) <= EsSize(Seps(kids))
  {
    hide Compare, LE, FlatKids, Flat, EsSize, Remove, Splice, FirstKey, Pages, Merged, Sorted, WF, Stored, Good, Le, Has, ShortSuccessor;
    GoodWF(Inner(kids), h);
    var r := LE(Seps(kids), key);
    var lo := if left then r - 1 else r;
    var e := Entry(ptr, FirstKey(Merged(kids, r, left, k')), []);
    BeforeMerge(kids, h, r, left, k', pages);
    if !left && NodeOf(k').es != [] {
      ShortInKid(kids, h, key);
      Enter(kids, h, key, pages);
      FirstAfterRemove(kids[r].sub, k', h - 1, key);
      NotLonger(Seps(kids), lo, lo + 2, e, r);
    } else {
      NotLonger(Seps(kids), lo, lo + 2, e, if left then r - 1 else r + 1);
    }
  }
}
