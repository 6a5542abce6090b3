/** What one step of an update or deletion does to the tree a node unfolds to. */
module TreeOps {
  import opened Bytes
  import opened Seqs
  import opened SortedSeq
  import opened Nodes
  import opened Trees

  /** `more` still has every page of `pages`. */
  ghost predicate Grows(pages: map<nat, Node>, more: map<nat, Node>) {
    forall p :: p in pages ==> p in more && more[p] == pages[p]
  }

  /** The node `node` in hand, and the pages below it, are the tree `t`. */
  ghost predicate InHand(pages: map<nat, Node>, node: Node, t: Tree, h: nat) {
    node == NodeOf(t) && WF(t, h) && Stored(pages, t) && Sorted(Flat(t))
  }

  // ---- leaves ----

  lemma LeafPut(es: seq<Entry>, key: Bytes, val: Bytes)
    requires WF(Leaf(es), 0) && |key| <= MAX_KEY && |val| <= MAX_VAL
    ensures WF(Leaf(Put(es, key, val)), 0)
    ensures EsSize(Put(es, key, val)) <= EsSize(es) + 14 + |key| + |val|
  {
    hide EsSize, LE, Splice;
    var p := Put(es, key, val);
    var mid := [Entry(0, key, val)];
    SpliceIndex(es, PutAt(es, key), LE(es, key) + 1, mid);
    forall i | 0 <= i < |p| ensures EntryOK(p[i]) {
    }
    EsSizeSplice(es, PutAt(es, key), LE(es, key) + 1, mid);
    EsSizeOne(mid[0]);
  }

  lemma LeafRemove(es: seq<Entry>, key: Bytes)
    requires WF(Leaf(es), 0)
    ensures WF(Leaf(Remove(es, key)), 0)
    ensures EsSize(Remove(es, key)) <= EsSize(es)
  {
    hide EsSize, LE, Splice;
    if Has(es, key) {
      var p := Remove(es, key);
      SpliceIndex(es, LE(es, key), LE(es, key) + 1, []);
      forall i | 0 <= i < |p| ensures EntryOK(p[i]) {
      }
      EsSizeSplice(es, LE(es, key), LE(es, key) + 1, []);
      NoSize();
    }
  }

  lemma NoSize()
    ensures EsSize([]) == 0
  {
  }

  // ---- the kid on the search path ----

  /** The kid that the search for `key` enters, and the conditions it meets. */
  lemma Enter(kids: seq<Kid>, h: nat, key: Bytes, pages: map<nat, Node>)
    requires h > 0 && Good(Inner(kids), h) && Stored(pages, Inner(kids)) && Sorted(FlatKids(kids))
    requires Le(FirstKey(Inner(kids)), key)
    ensures Sorted(Seps(kids)) && 0 <= LE(Seps(kids), key) < |kids|
    ensures var k := kids[LE(Seps(kids), key)];
            && Good(k.sub, h - 1) && k.ptr != 0
            && k.ptr in pages && InHand(pages, pages[k.ptr], k.sub, h - 1)
            && Le(FirstKey(k.sub), key)
  {
    hide Compare, LE, FlatKids, Flat, EsSize;
    SepsSorted(kids, h - 1);
    LECorrect(Seps(kids), key);
    var r := LE(Seps(kids), key);
    LtNotGe(key, Seps(kids)[0].key);
    hide Sorted;
    Descend(kids, h - 1, key, r);
    GoodFirst(kids[r].sub, h - 1);
    assert StoredKid(pages, kids[r]);
  }

  /** What an operation on the entered kid means for the whole node. */
  lemma Around(kids: seq<Kid>, h: nat, key: Bytes, val: Bytes)
    requires h > 0 && Good(Inner(kids), h) && Sorted(FlatKids(kids))
    requires Le(FirstKey(Inner(kids)), key)
    ensures 0 <= LE(Seps(kids), key) < |kids|
    ensures var r := LE(Seps(kids), key);
            var a, b, c := FlatKids(kids[..r]), Flat(kids[r].sub), FlatKids(kids[r + 1..]);
            && FlatKids(kids) == a + b + c
            && Has(FlatKids(kids), key) == Has(b, key)
            && (Has(b, key) ==> Val(FlatKids(kids), key) == Val(b, key))
            && Put(FlatKids(kids), key, val) == a + Put(b, key, val) + c
            && Remove(FlatKids(kids), key) == a + Remove(b, key) + c
  {
    hide Compare, LE, FlatKids, Flat, EsSize, Put, Remove, Has, Val;
    SepsSorted(kids, h - 1);
    LECorrect(Seps(kids), key);
    var r := LE(Seps(kids), key);
    LtNotGe(key, Seps(kids)[0].key);
    hide Sorted;
    Descend(kids, h - 1, key, r);
    AroundKid(kids, r);
    PutMiddle(FlatKids(kids[..r]), Flat(kids[r].sub), FlatKids(kids[r + 1..]), key, val);
  }

  // ---- replacing kids ----

  ghost predicate KidOK(pages: map<nat, Node>, k: Kid, h: nat) {
    k.ptr != 0 && Good(k.sub, h) && StoredKid(pages, k)
  }

  lemma Replaced(kids: seq<Kid>, h: nat, lo: nat, hi: nat, mid: seq<Kid>, pages: map<nat, Node>)
    requires h > 0 && lo <= hi <= |kids|
    requires WF(Inner(kids), h) && Stored(pages, Inner(kids))
    requires forall i :: 0 <= i < |mid| ==> KidOK(pages, mid[i], h - 1)
    ensures var t' := Inner(Splice(kids, lo, hi, mid));
            && WF(t', h) && Stored(pages, t')
            && NodeOf(t') == Node(false, Splice(Seps(kids), lo, hi, Seps(mid)))
            && Flat(t') == FlatKids(kids[..lo]) + FlatKids(mid) + FlatKids(kids[hi..])
            && Pages(t') == PagesKids(kids[..lo]) + PagesKids(mid) + PagesKids(kids[hi..])
  {
    hide FlatKids, PagesKids, Splice, Good, StoredKid;
    var ks := Splice(kids, lo, hi, mid);
    ReplaceKids(kids, lo, hi, mid);
    SpliceIndex(kids, lo, hi, mid);
    forall i | 0 <= i < |ks| ensures ks[i].ptr != 0 && Good(ks[i].sub, h - 1) && StoredKid(pages, ks[i]) {
      if lo <= i < lo + |mid| {
        assert KidOK(pages, mid[i - lo], h - 1);
      }
    }
  }

  /** The entries that point to the pages `ptrs` holding `parts`. */
  ghost function PartEntries(ptrs: seq<nat>, parts: seq<Node>): (r: seq<Entry>)
    requires |ptrs| == |parts| && forall i :: 0 <= i < |parts| ==> parts[i].es != []
    ensures |r| == |ptrs|
  {
    seq(|ptrs|, i requires 0 <= i < |ptrs| => Entry(ptrs[i], parts[i].es[0].key, []))
  }

  /** The kids made from the pages of a split node. */
  lemma PartsAreKids(t: Tree, h: nat, parts: seq<Node>, ptrs: seq<nat>, pages: map<nat, Node>)
    requires WF(t, h) && Stored(pages, t)
    requires Joined(parts) == NodeOf(t).es && FitParts(parts, t.Leaf?)
    requires |ptrs| == |parts|
    requires forall i :: 0 <= i < |ptrs| ==> ptrs[i] != 0 && ptrs[i] in pages && pages[ptrs[i]] == parts[i]
    ensures var kids := Zip(ptrs, Pieces(t, parts));
            && |kids| == |parts|
            && (forall i :: 0 <= i < |kids| ==> KidOK(pages, kids[i], h))
            && Seps(kids) == PartEntries(ptrs, parts)
            && FlatKids(kids) == Flat(t)
            && PagesKids(kids) == multiset(ptrs) + Pages(t)
  {
    hide Pieces, Good, Stored, WF, FlatKids, PagesKids, Flat, Pages, Joined, NodeOf, KidOK, Zip, PartEntries;
    PiecesGood(t, h, parts, pages);
    PiecesContent(t, parts, ptrs);
    PartKids(ptrs, Pieces(t, parts), parts, h, pages);
  }

  /** Stored pieces are kids, and their separators are the first keys of their pages. */
  lemma PartKids(ptrs: seq<nat>, subs: seq<Tree>, parts: seq<Node>, h: nat, pages: map<nat, Node>)
    requires |ptrs| == |subs| == |parts| && forall i :: 0 <= i < |parts| ==> parts[i].es != []
    requires forall i :: 0 <= i < |subs| ==> NodeOf(subs[i]) == parts[i]
    requires forall i :: 0 <= i < |subs| ==> Good(subs[i], h) && Stored(pages, subs[i])
    requires forall i :: 0 <= i < |ptrs| ==> ptrs[i] != 0 && ptrs[i] in pages && pages[ptrs[i]] == parts[i]
    ensures forall i :: 0 <= i < |ptrs| ==> KidOK(pages, Zip(ptrs, subs)[i], h)
    ensures Seps(Zip(ptrs, subs)) == PartEntries(ptrs, parts)
  {
    hide Good, Stored, NodeOf, FirstKey;
    var kids := Zip(ptrs, subs);
    forall i | 0 <= i < |kids| ensures KidOK(pages, kids[i], h) && Seps(kids)[i] == PartEntries(ptrs, parts)[i] {
      assert kids[i] == Kid(ptrs[i], subs[i]);
      FirstOfNode(subs[i]);
    }
  }

  lemma FirstOfNode(t: Tree)
    ensures NodeOf(t).es != [] ==> NodeOf(t).es[0].key == FirstKey(t)
  {
  }

  /** A node that has grown by one step: the updated kid `k'` is stored as the pages `ptrs`. */
  lemma NodeUpdated(kids: seq<Kid>, h: nat, key: Bytes, val: Bytes, k': Tree, parts: seq<Node>, ptrs: seq<nat>, pages: map<nat, Node>)
    requires h > 0 && Good(Inner(kids), h) && Stored(pages, Inner(kids)) && Sorted(FlatKids(kids))
    requires Le(FirstKey(Inner(kids)), key)
    requires WF(k', h - 1) && Stored(pages, k') && Joined(parts) == NodeOf(k').es && FitParts(parts, k'.Leaf?)
    requires |ptrs| == |parts|
    requires forall i :: 0 <= i < |ptrs| ==> ptrs[i] != 0 && ptrs[i] in pages && pages[ptrs[i]] == parts[i]
    ensures 0 <= LE(Seps(kids), key) < |kids|
    ensures var r := LE(Seps(kids), key);
            var t' := Inner(Splice(kids, r, r + 1, Zip(ptrs, Pieces(k', parts))));
            && WF(t', h) && Stored(pages, t')
            && NodeOf(t') == Node(false, Splice(Seps(kids), r, r + 1, PartEntries(ptrs, parts)))
            && (Flat(k') == Put(Flat(kids[r].sub), key, val) ==> Flat(t') == Put(FlatKids(kids), key, val))
            && (Flat(k') == Remove(Flat(kids[r].sub), key) ==> Flat(t') == Remove(FlatKids(kids), key))
            && Pages(t') == Pages(Inner(kids)) - PagesKid(kids[r]) + (multiset(ptrs) + Pages(k'))
            && PagesKid(kids[r]) <= Pages(Inner(kids))
  {
    hide Compare, LE, FlatKids, Flat, EsSize, Put, Remove, Has, Val, PagesKids, PagesKid, Pages, Splice, Good, StoredKid, Zip, Pieces;
    Around(kids, h, key, val);
    var r := LE(Seps(kids), key);
    PartsAreKids(k', h - 1, parts, ptrs, pages);
    GoodWF(Inner(kids), h);
    hide Stored, WF;
    Replaced(kids, h, r, r + 1, Zip(ptrs, Pieces(k', parts)), pages);
    AroundKid(kids, r);
    InnerOf(kids);
    Swap(PagesKids(kids[..r]), PagesKid(kids[r]), PagesKids(kids[r + 1..]), multiset(ptrs) + Pages(k'));
  }

  lemma GoodWF(t: Tree, h: nat)
    requires Good(t, h)
    ensures WF(t, h) && NodeOf(t).es != [] && Size(NodeOf(t)) <= PAGE
  {
  }

  lemma Swap(a: multiset<nat>, b: multiset<nat>, c: multiset<nat>, b': multiset<nat>)
    ensures a + b' + c == (a + b + c) - b + b' && b <= a + b + c
  {
  }

  // ---- sizes ----

  ghost predicate Small(s: seq<Entry>) {
    Within(s, 256)
  }

  lemma PutSmall(s: seq<Entry>, key: Bytes, val: Bytes)
    requires Small(s) && 14 + |key| + |val| <= 256
    ensures Small(Put(s, key, val))
  {
    hide LE, Splice;
    SpliceIndex(s, PutAt(s, key), LE(s, key) + 1, [Entry(0, key, val)]);
  }

  /** A node's separators are keys of its leaves, so they are no larger than the leaf entries. */
  lemma SmallNode(t: Tree, h: nat)
    requires WF(t, h) && Small(Flat(t))
    ensures Small(NodeOf(t).es)
  {
    if t.Inner? {
      forall i | 0 <= i < |t.kids| ensures EntrySize(Seps(t.kids)[i]) <= 256 {
        StartStep(t.kids, i, h - 1);
        assert EntrySize(Flat(t)[Start(t.kids, i)]) <= 256;
      }
    }
  }

  lemma SmallKid(kids: seq<Kid>, r: nat)
    requires r < |kids| && Small(FlatKids(kids))
    ensures Small(Flat(kids[r].sub))
  {
    hide FlatKids, Flat, EntrySize;
    AroundKid(kids, r);
    var a, b, c := FlatKids(kids[..r]), Flat(kids[r].sub), FlatKids(kids[r + 1..]);
    forall i | 0 <= i < |b| ensures EntrySize(b[i]) <= 256 {
      assert (a + b + c)[|a| + i] == b[i];
    }
  }

  /** Putting a key that is not before the first one keeps the first key. */
  lemma PutFirst(s: seq<Entry>, key: Bytes, val: Bytes)
    requires s != [] && Sorted(s) && Le(s[0].key, key)
    ensures Put(s, key, val) != [] && Put(s, key, val)[0].key == s[0].key
    ensures key != s[0].key ==> Put(s, key, val)[0] == s[0]
  {
    LECorrect(s, key);
    hide LE, Compare;
    LtNotGe(key, s[0].key);
    SpliceIndex(s, PutAt(s, key), LE(s, key) + 1, [Entry(0, key, val)]);
  }

  /** Replacing one entry by at most three, the first with the same key, adds at most two entries. */
  lemma GrownSize(es: seq<Entry>, r: nat, mid: seq<Entry>, limit: nat)
    requires r < |es| && 1 <= |mid| <= 3 && EntrySize(mid[0]) <= EntrySize(es[r])
    requires Within(mid, limit)
    ensures EsSize(Splice(es, r, r + 1, mid)) <= EsSize(es) + 2 * limit
  {
    hide EsSize, Splice, EntrySize;
    EsSizeSplice(es, r, r + 1, mid);
    assert es[r..r + 1] == [es[r]];
    EsSizeOne(es[r]);
    EsSizeCut(mid, 1);
    assert mid[..1] == [mid[0]];
    EsSizeOne(mid[0]);
    EsSizeBounds(mid[1..], limit);
    assert limit * |mid[1..]| <= limit * 2;
  }

  /** Size of the rebuilt node after the entered kid was updated and split. */
  lemma UpdatedSize(kids: seq<Kid>, h: nat, r: nat, k': Tree, parts: seq<Node>, ptrs: seq<nat>)
    requires h > 0 && r < |kids| && WF(Inner(kids), h)
    requires WF(k', h - 1) && NodeOf(k').es != [] && FirstKey(k') == FirstKey(kids[r].sub)
    requires Joined(parts) == NodeOf(k').es && FitParts(parts, k'.Leaf?) && 1 <= |parts| <= 3
    requires |ptrs| == |parts|
    ensures EsSize(Splice(Seps(kids), r, r + 1, PartEntries(ptrs, parts))) <= EsSize(Seps(kids)) + 2 * (14 + MAX_KEY)
    ensures Small(NodeOf(k').es) ==>
              EsSize(Splice(Seps(kids), r, r + 1, PartEntries(ptrs, parts))) <= EsSize(Seps(kids)) + 2 * 256
  {
    PiecesFirst(k', h - 1, parts);
    hide EsSize, Splice, WF, Joined;
    FirstOfNode(k');
    var mid := PartEntries(ptrs, parts);
    assert mid[0].key == parts[0].es[0].key;
    GrownSize(Seps(kids), r, mid, 14 + MAX_KEY);
    if Small(NodeOf(k').es) {
      GrownSize(Seps(kids), r, mid, 256);
    }
  }

  /** The first entry of every part of a split node is an entry of the node. */
  lemma PiecesFirst(t: Tree, h: nat, parts: seq<Node>)
    requires WF(t, h) && Joined(parts) == NodeOf(t).es && FitParts(parts, t.Leaf?)
    ensures forall i :: 0 <= i < |parts| ==> parts[i].es != [] && |parts[i].es[0].key| <= MAX_KEY
    ensures forall i :: 0 <= i < |parts| && Small(NodeOf(t).es) ==> 14 + |parts[i].es[0].key| <= 256
    ensures parts != [] ==> NodeOf(t).es != [] && parts[0].es[0] == NodeOf(t).es[0]
  {
    forall i | 0 <= i < |parts| ensures parts[i].es[0] in NodeOf(t).es {
      JoinedHas(parts, i);
    }
    forall e | e in NodeOf(t).es ensures |e.key| <= MAX_KEY {
      KeyBound(t, h, e);
    }
    assert forall e :: e in NodeOf(t).es && Small(NodeOf(t).es) ==> EntrySize(e) <= 256;
  }

  lemma {:induction false} JoinedHas(parts: seq<Node>, i: nat)
    requires i < |parts| && parts[i].es != []
    ensures parts[i].es[0] in Joined(parts)
  {
    if i > 0 {
      JoinedHas(parts[1..], i - 1);
    }
  }

  lemma KeyBound(t: Tree, h: nat, e: Entry)
    requires WF(t, h) && e in NodeOf(t).es
    ensures |e.key| <= MAX_KEY
  {
    var i :| 0 <= i < |NodeOf(t).es| && NodeOf(t).es[i] == e;
    if t.Inner? {
      GoodFirst(t.kids[i].sub, h - 1);
    } else {
      assert EntryOK(t.es[i]);
    }
  }

  // ---- the leaf cases of the recursion ----

  lemma LookupInRange(t: Tree, h: nat, key: Bytes)
    requires WF(t, h) && NodeOf(t).es != [] && Sorted(Flat(t)) && Le(FirstKey(t), key)
    ensures Sorted(NodeOf(t).es) && 0 <= LE(NodeOf(t).es, key) < |NodeOf(t).es|
  {
    hide LE, Compare, Flat, WF, NodeOf, FirstKey;
    NodeSorted(t, h);
    FirstOfNode(t);
    LECorrect(NodeOf(t).es, key);
    LtNotGe(key, NodeOf(t).es[0].key);
  }

  /** A leaf after an insertion or update. */
  lemma LeafUpdated(t: Tree, key: Bytes, val: Bytes, pages: map<nat, Node>)
    requires t.Leaf? && Good(t, 0) && Sorted(t.es) && |key| <= MAX_KEY && |val| <= MAX_VAL
    ensures var t' := Leaf(Put(t.es, key, val));
            && InHand(pages, Node(true, t'.es), t', 0) && t'.es != []
            && Size(Node(true, t'.es)) <= PAGE + 14 + |key| + |val|
            && Pages(t') == Pages(t) == multiset{}
  {
    hide LE, EsSize, Splice;
    LeafPut(t.es, key, val);
    PutSorted(t.es, key, val);
    SpliceIndex(t.es, PutAt(t.es, key), LE(t.es, key) + 1, [Entry(0, key, val)]);
  }

  lemma LeafDeleted(t: Tree, key: Bytes, pages: map<nat, Node>)
    requires t.Leaf? && Good(t, 0) && Sorted(t.es)
    ensures var t' := Leaf(Remove(t.es, key));
            && InHand(pages, Node(true, t'.es), t', 0)
            && Size(Node(true, t'.es)) <= PAGE
            && Pages(t') == Pages(t) == multiset{}
  {
    hide LE, EsSize, Splice;
    LeafRemove(t.es, key);
    RemoveSorted(t.es, key);
  }

  lemma Kinds(t: Tree, h: nat)
    requires WF(t, h)
    ensures t.Leaf? ==> h == 0 && Flat(t) == t.es && NodeOf(t).leaf
    ensures t.Inner? ==> h > 0 && Flat(t) == FlatKids(t.kids) && Pages(t) == PagesKids(t.kids)
    ensures t.Inner? ==> !NodeOf(t).leaf && NodeOf(t).es == Seps(t.kids)
  {
  }

  lemma KidPages(kids: seq<Kid>, r: nat)
    requires r < |kids|
    ensures multiset{kids[r].ptr} + Pages(kids[r].sub) <= PagesKids(kids)
  {
    AroundKid(kids, r);
  }

  /** Bookkeeping of one internal step: the kid's subtree, then the kid's page, then the new pages. */
  lemma StepPages(use0: multiset<nat>, p: multiset<nat>, ptr: nat, k: multiset<nat>, k': multiset<nat>, ptrs: multiset<nat>)
    requires multiset{ptr} + k <= p <= use0
    ensures ptr in use0 - k + k'
    ensures use0 - k + k' - multiset{ptr} + ptrs == use0 - p + (p - (multiset{ptr} + k) + (ptrs + k'))
  {
  }

  lemma GrowsChain(a: map<nat, Node>, b: map<nat, Node>, c: map<nat, Node>)
    requires Grows(a, b) && Grows(b, c)
    ensures Grows(a, c)
  {
  }

  /** A small update keeps the node's entries small, and a grown page splits. */
  lemma SmallUpdated(t: Tree, h: nat, s: seq<Entry>, key: Bytes, val: Bytes)
    requires WF(t, h) && Small(s) && 14 + |key| + |val| <= 256 && Flat(t) == Put(s, key, val)
    ensures Small(NodeOf(t).es)
    ensures Size(NodeOf(t)) <= PAGE + 512 ==> SplitFits(NodeOf(t).es)
  {
    hide WF, Flat, NodeOf, Put, EsSize, CutFrom, SplitFits;
    PutSmall(s, key, val);
    SmallNode(t, h);
    if Size(NodeOf(t)) <= PAGE + 512 {
      SmallEntriesSplit(NodeOf(t).es);
    }
  }

  lemma FirstOfFlat(t: Tree, h: nat)
    requires WF(t, h) && NodeOf(t).es != []
    ensures Flat(t) != [] && Flat(t)[0].key == FirstKey(t)
  {
    if t.Inner? {
      GoodFirst(t.kids[0].sub, h - 1);
      assert FlatKids(t.kids) == FlatKid(t.kids[0]) + FlatKids(t.kids[1..]);
    }
  }

  lemma GrowsSelf(a: map<nat, Node>)
    ensures Grows(a, a)
  {
  }

  lemma InHandGrows(a: map<nat, Node>, b: map<nat, Node>, node: Node, t: Tree, h: nat)
    requires InHand(a, node, t, h) && Grows(a, b)
    ensures InHand(b, node, t, h)
  {
    hide WF, Sorted;
    StoredGrows(a, b, t);
  }
}
