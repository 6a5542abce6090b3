/** The B+tree object: a root page on a page store, seen as a map. */
module BTrees {
  import opened Bytes
  import opened Seqs
  import opened SortedSeq
  import opened Nodes
  import opened Trees
  import opened TreeOps
  import opened TreeFits
  import opened DeleteOps
  import opened TreeUpdates
  import opened TreeDeletes
  import PS = PageStore

  /** The first entry is the sentinel: the empty key with an empty value. */
  ghost predicate Rooted(t: Tree) {
    FirstKey(t) == [] && Flat(t) != [] && Flat(t)[0].val == []
  }

  /** The page `root` and the pages below it are the tree `t`; its first entry is the sentinel. */
  ghost predicate RootOK(pages: map<nat, Node>, root: nat, t: Tree, h: nat) {
    && root != 0 && root in pages && InHand(pages, pages[root], t, h) && Good(t, h)
    && Rooted(t)
  }

  /** The limits on keys and values. */
  function CheckLimit(key: Bytes, val: Bytes): Outcome {
    if key == [] || |key| > MAX_KEY then BadKey
    else if |val| > MAX_VAL then BadValue
    else Done(true)
  }

  const SENTINEL := Entry(0, [], [])

  /** The map a sequence of leaf entries stands for, without the sentinel. */
  ghost function Visible(s: seq<Entry>): map<Bytes, Bytes> {
    ToMap(s) - {[]}
  }

  /** An update of the map that would change nothing, or that its mode rejects. */
  ghost predicate NothingNew(m: map<Bytes, Bytes>, key: Bytes, val: Bytes, mode: Mode) {
    if key in m then mode == InsertOnly || m[key] == val else mode == UpdateOnly
  }

  /** The page a tree is unfolded from determines it. */
  lemma {:induction false} UniqueTree(pages: map<nat, Node>, t1: Tree, h1: nat, t2: Tree, h2: nat)
    requires WF(t1, h1) && WF(t2, h2) && Stored(pages, t1) && Stored(pages, t2) && NodeOf(t1) == NodeOf(t2)
    ensures t1 == t2
    decreases h1
  {
    if t1.Inner? {
      UniqueKids(pages, t1.kids, h1, t2.kids, h2);
    }
  }

  lemma {:induction false} UniqueKids(pages: map<nat, Node>, k1: seq<Kid>, h1: nat, k2: seq<Kid>, h2: nat)
    requires h1 > 0 && h2 > 0 && Seps(k1) == Seps(k2)
    requires WF(Inner(k1), h1) && WF(Inner(k2), h2) && Stored(pages, Inner(k1)) && Stored(pages, Inner(k2))
    ensures k1 == k2
    decreases h1, 0
  {
    assert |Seps(k1)| == |k1| && |Seps(k2)| == |k2|;
    forall i | 0 <= i < |k1| ensures k1[i] == k2[i] {
      assert StoredKid(pages, k1[i]) && StoredKid(pages, k2[i]);
      assert Seps(k1)[i].ptr == Seps(k2)[i].ptr;
      UniqueTree(pages, k1[i].sub, h1 - 1, k2[i].sub, h2 - 1);
    }
  }

  /** Descend to the leaf that may hold the key. */
  method NodeGetKey(store: PS.PageStore, node: Node, key: Bytes, ghost t: Tree, ghost h: nat) returns (val: Bytes, found: bool)
    requires store.Readable() && InHand(store.Nodes(), node, t, h) && Good(t, h) && Le(FirstKey(t), key)
    ensures found <==> Has(Flat(t), key)
    ensures val == if found then Val(Flat(t), key) else []
    decreases h
  {
    hide Compare, LE, Flat, FlatKids, EsSize, WF, Sorted, FirstKey, Stored, PS.PageStore.Readable, PS.PageStore.Nodes, Pages, PagesKids, Good, Put, Remove,
      Splice, Le;
    GoodWF(t, h);
    LookupInRange(t, h, key);
    Kinds(t, h);
    var idx := NodeLookupLE(node, key);
    if node.leaf {
      if key == node.es[idx].key {
        return node.es[idx].val, true;
      }
      return [], false;
    }
    Enter(t.kids, h, key, store.Nodes());
    Around(t.kids, h, key, []);
    var kid := store.Read(node.es[idx].ptr);
    val, found := NodeGetKey(store, kid, key, t.kids[idx].sub, h - 1);
  }

  class BTree {
    const store: PS.PageStore
    var root: nat
    ghost var t: Tree
    ghost var h: nat

    ghost predicate Valid()
      reads this, store
    {
      && store.Inv()
      && (root == 0 ==> store.ledger.inUse == multiset{})
      && (root != 0 ==> RootOK(store.ledger.pages, root, t, h) && store.ledger.inUse == multiset{root} + Pages(t))
    }

    /** Lookups and cursors work: on a valid tree, and on a snapshot whose pages are in the file. */
    ghost predicate Readable()
      reads this, store, (if store.base == null then {} else {store.base})`file
    {
      && store.Readable()
      && (root != 0 ==> RootOK(store.Nodes(), root, t, h))
    }

    /** The leaf entries in key order, sentinel included. */
    ghost function View(): seq<Entry>
      reads this
    {
      if root == 0 then [] else Flat(t)
    }

    /** The map the tree stands for. */
    ghost function Contents(): map<Bytes, Bytes>
      reads this
    {
      Visible(View())
    }

    /** No deletion has touched the tree since it was empty. */
    ghost predicate Grown()
      reads this
    {
      root != 0 ==> GrownOnly(t, h)
    }

    /** There is room for the update of a key on every page on its way. */
    ghost predicate RoomFor(key: Bytes, val: Bytes)
      reads this
    {
      root != 0 ==> UpdateFits(t, key, val) && SplitFits(Updated(t, key, val))
    }

    /** A tree on the empty store `store`. */
    constructor (store: PS.PageStore)
      requires store.Inv() && store.ledger.inUse == multiset{}
      ensures Valid() && this.store == store && root == 0 && Contents() == map[]
    {
      this.store := store;
      root, t, h := 0, Leaf([]), 0;
    }

    /** A read-only tree on a root that somebody else wrote. */
    constructor Snapshot(store: PS.PageStore, root: nat, ghost t: Tree, ghost h: nat)
      ensures this.store == store && this.root == root && this.t == t && this.h == h
    {
      this.store, this.root, this.t, this.h := store, root, t, h;
    }

    method Get(key: Bytes) returns (val: Bytes, found: bool)
      requires Readable()
      ensures found <==> Has(View(), key)
      ensures val == if found then Val(View(), key) else []
      ensures key != [] ==> (found <==> key in Contents()) && (found ==> val == Contents()[key])
      ensures key == [] ==> (found <==> root != 0) && val == []
    {
      hide Compare, LE, Flat, EsSize, WF, Sorted, Stored, PS.PageStore.Readable, PS.PageStore.Nodes, Has, Val, ToMap;
      NothingInEmpty(key);
      if root == 0 {
        return [], false;
      }
      EmptyFirst(key);
      ViewLookup(t, h, store.Nodes(), root, key);
      SentinelThere(t, h, store.Nodes(), root);
      var node := store.Read(root);
      val, found := NodeGetKey(store, node, key, t, h);
    }

    /** Insert or update one key. */
    method Update(key: Bytes, val: Bytes, mode: Mode) returns (out: Outcome, added: bool, prev: Bytes)
      requires Valid()
      modifies this, store`mem, store`page, store`free, store`ledger
      ensures out.BadKey? <==> key == [] || |key| > MAX_KEY
      ensures out.BadValue? <==> !out.BadKey? && |val| > MAX_VAL
      ensures out.BadKey? || out.BadValue? ==> Valid() && root == old(root) && t == old(t) && h == old(h) && unchanged(store)
      ensures out.NoRoom? <==> CheckLimit(key, val).Done? && !old(RoomFor(key, val)) && !NothingNew(old(Contents()), key, val, mode)
      ensures out.NoRoom? ==> root == old(root) && t == old(t) && h == old(h)
      ensures out.NoRoom? ==> !SmallCase(old(View()), key, val)
      ensures out.Done? && out.changed ==>
                h == if old(root) == 0 then 0 else old(h) + if HEADER + EsSize(Updated(old(t), key, val)) > PAGE then 1 else 0
      ensures out.Done? && out.changed && old(Grown()) ==> Grown()
      ensures out.Done? ==> Valid() && store.ledger.start == old(store.ledger.start)
      ensures out.Done? ==> Grows(old(store.ledger.pages), store.ledger.pages)
      ensures out.Done? ==> (out.changed <==> old(root) == 0 || !NothingNew(old(Contents()), key, val, mode))
      ensures out.Done? && !out.changed ==> root == old(root) && t == old(t) && h == old(h) && unchanged(store)
      ensures out.Done? && out.changed ==> root != 0 && Contents() == old(Contents())[key := val]
      ensures out.Done? && out.changed ==> View() == if old(root) == 0 then [SENTINEL, Entry(0, key, val)] else Put(old(View()), key, val)
      ensures out.Done? && out.changed ==> added == (key !in old(Contents()))
      ensures out.Done? && out.changed && !added ==> prev == old(Contents())[key]
    {
      hide RootOK, PS.PageStore.Inv, Flat, Pages, Grows, SmallCase, ToMap, LE, Has, Val, Put;
      NothingInEmpty(key);
      added, prev := false, [];
      out := CheckLimit(key, val);
      if !out.Done? {
        return;
      }
      if root == 0 {
        PlantRoot(key, val);
        added := true;
        return;
      }
      ViewLookup(t, h, store.ledger.pages, root, key);
      out, added, prev := UpdateRoot(key, val, mode);
    }

    /** The first key creates the root leaf: the sentinel and the key, whatever the mode. */
    method PlantRoot(key: Bytes, val: Bytes)
      requires Valid() && root == 0 && CheckLimit(key, val).Done?
      modifies this, store`mem, store`page, store`free, store`ledger
      ensures Valid() && store.ledger.start == old(store.ledger.start)
      ensures Grows(old(store.ledger.pages), store.ledger.pages)
      ensures View() == [SENTINEL, Entry(0, key, val)] && Contents() == map[key := val]
      ensures root != 0 && h == 0 && t == Leaf(View())
    {
      hide PS.PageStore.Inv, EsSize;
      FirstLeaf(key, val);
      root := store.New(Node(true, [SENTINEL, Entry(0, key, val)]));
      t, h := Leaf([SENTINEL, Entry(0, key, val)]), 0;
    }

    method UpdateRoot(key: Bytes, val: Bytes, mode: Mode) returns (out: Outcome, added: bool, prev: Bytes)
      requires Valid() && root != 0 && CheckLimit(key, val).Done?
      modifies this, store`mem, store`page, store`free, store`ledger
      ensures out.Done? || out.NoRoom?
      ensures out.NoRoom? <==> !old(RoomFor(key, val)) && !NoChange(old(View()), key, val, mode)
      ensures out.NoRoom? ==> root == old(root) && t == old(t) && h == old(h)
      ensures out.NoRoom? ==> !SmallCase(old(View()), key, val)
      ensures out.Done? && out.changed ==> h == old(h) + if HEADER + EsSize(Updated(old(t), key, val)) > PAGE then 1 else 0
      ensures out.Done? && out.changed && old(Grown()) ==> Grown()
      ensures out.Done? ==> Valid() && store.ledger.start == old(store.ledger.start)
      ensures out.Done? ==> Grows(old(store.ledger.pages), store.ledger.pages)
      ensures out.Done? ==> (out.changed <==> !NoChange(old(View()), key, val, mode))
      ensures out.Done? && !out.changed ==> root == old(root) && t == old(t) && h == old(h) && unchanged(store)
      ensures out.Done? && out.changed ==> root != 0 && View() == Put(old(View()), key, val)
      ensures out.Done? && out.changed ==> Contents() == old(Contents())[key := val]
      ensures out.Done? && out.changed ==> added == (key !in old(Contents()))
      ensures out.Done? && out.changed && !added ==> prev == old(Contents())[key]
    {
      hide Compare, LE, Flat, FlatKids, EsSize, WF, Sorted, FirstKey, Stored, Pages, PagesKids, Good, Put, Splice, Within, Zip,
        Pieces, NodeOf, Joined, SplitFits, PS.PageStore.Inv, ToMap, Has, Val, Grows, GrownOnly, Updated, UpdateFits, Bare;
      ghost var pages0, s0, t0 := store.ledger.pages, View(), t;
      ghost var t';
      RootFacts(t, h, pages0, root, key);
      var node := store.Get(root);
      var res;
      res, added, prev, t' := TreeUpdate(store, key, val, mode, node, t, h);
      if res.Overflow? {
        return NoRoom, added, prev;
      }
      if res.Unchanged? {
        RootGrows(t, h, pages0, store.ledger.pages, root);
        return Done(false), added, prev;
      }
      PutVisible(t, h, t', key, val);
      BareSplit(res.node.es);
      BareSize(res.node.es);
      if SmallCase(s0, key, val) {
        SmallUpdated(t', h, s0, key, val);
      }
      UnionPages(multiset{root}, Pages(t), Pages(t'));
      ghost var pages1 := store.ledger.pages;
      var ok := PlaceRoot(res.node, t');
      if !ok {
        return NoRoom, added, prev;
      }
      GrowsChain(pages0, pages1, store.ledger.pages);
      if old(Grown()) {
        RootLevels(t0, old(h), t', t, h, key, val);
      }
      out := Done(true);
    }

    /** The root was split: its parts become the kids of a new root. */
    method AddLevel(ghost updated: Node, parts: seq<Node>, ghost t': Tree)
      requires store.Inv() && InHand(store.ledger.pages, updated, t', h)
      requires updated.es != [] && Rooted(t')
      requires Joined(parts) == updated.es && FitParts(parts, t'.Leaf?) && 1 <= |parts| <= 3
      requires store.ledger.inUse == Pages(t')
      modifies this, store`mem, store`page, store`free, store`ledger
      ensures Valid() && root != 0 && Flat(t) == Flat(t') && store.ledger.start == old(store.ledger.start)
      ensures Grows(old(store.ledger.pages), store.ledger.pages)
      ensures h == old(h) + 1 && t.Inner? && |t.kids| == |parts|
    {
      hide Compare, LE, Flat, FlatKids, EsSize, WF, Sorted, FirstKey, Stored, Pages, PagesKids, Good, Put, Splice, Within, Zip,
        Pieces, NodeOf, Joined, SplitFits, PS.PageStore.Inv, Grows, RootOK;
      ghost var pages1 := store.ledger.pages;
      var es;
      ghost var ptrs;
      es, ptrs := StoreParts(store, parts);
      ghost var pages2 := store.ledger.pages;
      RootParts(t', h, parts, ptrs, pages1, pages2);
      root := store.New(Node(false, es));
      t, h := Inner(Zip(ptrs, Pieces(t', parts))), h + 1;
      RootStored(t, h, pages2, store.ledger.pages, root);
      GrowsChain(pages1, pages2, store.ledger.pages);
      UnionPages2(Pages(t'), multiset(ptrs), multiset{root});
    }

    /** Store the changed root node; the tree grows by a level if it had to be split. */
    method PlaceRoot(updated: Node, ghost t': Tree) returns (ok: bool)
      requires store.Inv() && root != 0 && InHand(store.ledger.pages, updated, t', h)
      requires updated.es != [] && Rooted(t')
      requires store.ledger.inUse == multiset{root} + Pages(t')
      modifies this, store`mem, store`page, store`free, store`ledger
      ensures ok <==> SplitFits(updated.es)
      ensures !ok ==> root == old(root) && t == old(t) && h == old(h)
      ensures ok ==> Valid() && root != 0 && Flat(t) == Flat(t') && store.ledger.start == old(store.ledger.start)
      ensures ok ==> Grows(old(store.ledger.pages), store.ledger.pages)
      ensures ok ==> if Size(updated) > PAGE then h == old(h) + 1 && t.Inner? && |t.kids| >= 2 else h == old(h) && t == t'
    {
      hide Compare, LE, Flat, FlatKids, EsSize, WF, Sorted, FirstKey, Stored, Pages, PagesKids, Good, Put, Splice, Within, Zip,
        Pieces, NodeOf, Joined, SplitFits, PS.PageStore.Inv, Grows, RootOK;
      ghost var pages1 := store.ledger.pages;
      NodeWithin(t', h);
      Kinds(t', h);
      var parts;
      ok, parts := NodeSplit3(updated);
      if !ok {
        return;
      }
      DropRoot(root, Pages(t'));
      store.Del(root);
      if |parts| > 1 {
        AddLevel(updated, parts, t');
      } else {
        OnePart(parts, updated);
        root := store.New(parts[0]);
        t := t';
        RootStored(t, h, pages1, store.ledger.pages, root);
      }
    }

    /** Delete one key. */
    method Delete(key: Bytes) returns (out: Outcome, prev: Bytes)
      requires Valid()
      modifies this, store`mem, store`page, store`free, store`ledger
      ensures !out.BadValue? && (out.BadKey? <==> key == [] || |key| > MAX_KEY)
      ensures out.BadKey? ==> Valid() && root == old(root) && t == old(t) && h == old(h) && unchanged(store)
      ensures out.NoRoom? <==> CheckLimit(key, []).Done? && key in old(Contents()) && !DeleteFits(old(t), key)
      ensures out.NoRoom? ==> root == old(root) && t == old(t) && h == old(h)
      ensures out.NoRoom? ==> !ShortSuccessor(old(View()), key)
      ensures out.Done? && out.changed ==> h == old(h) - if old(t).Inner? && |Deleted(old(t), key)| == 1 then 1 else 0
      ensures out.Done? ==> Valid() && store.ledger.start == old(store.ledger.start)
      ensures out.Done? ==> Grows(old(store.ledger.pages), store.ledger.pages)
      ensures out.Done? ==> (out.changed <==> key in old(Contents()))
      ensures out.Done? && !out.changed ==> root == old(root) && t == old(t) && h == old(h) && unchanged(store)
      ensures out.Done? && out.changed ==> root != 0 && View() == Remove(old(View()), key)
      ensures out.Done? && out.changed ==> Contents() == old(Contents()) - {key} && prev == old(Contents())[key]
    {
      hide Compare, LE, Flat, FlatKids, EsSize, WF, Sorted, FirstKey, Stored, Pages, PagesKids, Good, Remove, Splice, NodeOf,
        PS.PageStore.Inv, ToMap, Has, Val, Grows, ShortSuccessor, Deleted, DeleteFits, Bare;
      prev := [];
      out := CheckLimit(key, []);
      if !out.Done? {
        return;
      }
      NothingInEmpty(key);
      ghost var pages0, s0 := store.ledger.pages, View();
      GrowsSelf(pages0);
      if root == 0 {
        return Done(false), prev;
      }
      ghost var t';
      RootFacts(t, h, pages0, root, key);
      var node := store.Get(root);
      var res;
      res, prev, t' := TreeDelete(store, key, node, t, h);
      if res.Overflow? {
        return NoRoom, prev;
      }
      if res.Unchanged? {
        RootGrows(t, h, pages0, store.ledger.pages, root);
        return Done(false), prev;
      }
      RemoveVisible(t, h, t', key);
      Kinds(t, h);
      Kinds(t', h);
      UnionPages(multiset{root}, Pages(t), Pages(t'));
      ghost var pages1 := store.ledger.pages;
      ShrinkRoot(res.node, t');
      GrowsChain(pages0, pages1, store.ledger.pages);
      out := Done(true);
    }

    /** Store the root node left by a deletion; a root with a single kid is dropped. */
    method ShrinkRoot(updated: Node, ghost t': Tree)
      requires store.Inv() && root != 0 && InHand(store.ledger.pages, updated, t', h)
      requires updated.es != [] && Rooted(t') && Size(updated) <= PAGE
      requires store.ledger.inUse == multiset{root} + Pages(t')
      modifies this, store`mem, store`page, store`free, store`ledger
      ensures Valid() && root != 0 && Flat(t) == Flat(t') && store.ledger.start == old(store.ledger.start)
      ensures Grows(old(store.ledger.pages), store.ledger.pages)
      ensures h == old(h) - if t'.Inner? && |updated.es| == 1 then 1 else 0
    {
      hide Compare, LE, Flat, FlatKids, EsSize, WF, Sorted, FirstKey, Stored, Pages, PagesKids, Good, NodeOf,
        PS.PageStore.Inv, Grows, RootOK, Visible, Le;
      ghost var pages1 := store.ledger.pages;
      GrowsSelf(pages1);
      Kinds(t', h);
      DropRoot(root, Pages(t'));
      store.Del(root);
      if !updated.leaf && |updated.es| == 1 {
        root := updated.es[0].ptr;
        OnlyKid(t', h, pages1);
        t, h := t'.kids[0].sub, h - 1;
      } else {
        root := store.New(updated);
        t := t';
        RootStored(t, h, pages1, store.ledger.pages, root);
      }
    }
  }

  /** Looking the empty key up finds the sentinel. */
  lemma SentinelThere(t: Tree, h: nat, pages: map<nat, Node>, root: nat)
    requires RootOK(pages, root, t, h)
    ensures Has(Flat(t), []) && Val(Flat(t), []) == []
  {
    GoodFirst(t, h);
    hide LE, Flat, Good;
    OnlyAt(Flat(t), [], 0);
  }

  /** After an update the tree still looks like one that no deletion has touched. */
  lemma RootLevels(t0: Tree, h0: nat, t': Tree, t: Tree, h: nat, key: Bytes, val: Bytes)
    requires Good(t0, h0) && Sorted(Flat(t0)) && FirstKey(t0) == [] && GrownOnly(t0, h0)
    requires WF(t', h0) && Flat(t') == Put(Flat(t0), key, val) && Bare(NodeOf(t').es) == Updated(t0, key, val) && Flat(t) == Flat(t')
    requires if Size(NodeOf(t')) > PAGE then h == h0 + 1 && t.Inner? && |t.kids| >= 2 else h == h0 && t == t'
    ensures GrownOnly(t, h)
  {
    hide Compare, LE, Flat, EsSize, WF, Sorted, FirstKey, Put, Bare, Updated, GrownOnly, Good, NodeOf;
    if Size(NodeOf(t')) > PAGE {
      LevelGrown(t', h0, t);
    } else {
      EmptyFirst(key);
      GoodWF(t0, h0);
      LookupInRange(t0, h0, key);
      Kinds(t0, h0);
      SameLevelGrown(t0, h0, t', key, val);
    }
  }

  lemma ValidReadable(tree: BTree)
    requires tree.Valid()
    ensures tree.Readable() && tree.store.base == null && tree.store.Nodes() == tree.store.ledger.pages
  {
    hide RootOK;
  }

  /** The first leaf of a tree. */
  lemma FirstLeaf(key: Bytes, val: Bytes)
    requires key != [] && |key| <= MAX_KEY && |val| <= MAX_VAL
    ensures var es := [SENTINEL, Entry(0, key, val)];
            && Size(Node(true, es)) <= PAGE && Good(Leaf(es), 0) && Sorted(es) && FirstKey(Leaf(es)) == []
            && Pages(Leaf(es)) == multiset{}
            && Visible(es) == map[key := val]
  {
    var es := [SENTINEL, Entry(0, key, val)];
    assert es[..1] == [SENTINEL] && es[..1][..0] == [];
    assert EsSize(es) == EsSize(es[..1]) + EntrySize(es[1]);
    assert ToMap(es) == ToMap(es[..1])[key := val];
  }

  lemma DropRoot(r: nat, p: multiset<nat>)
    ensures multiset{r} + p - multiset{r} == p
  {
  }

  lemma UnionPages2(p: multiset<nat>, a: multiset<nat>, r: multiset<nat>)
    ensures p + a + r == r + (a + p)
  {
  }

  /** The tree after a deletion, before its root is stored: the sentinel is still there. */
  lemma RemoveVisible(t: Tree, h: nat, t': Tree, key: Bytes)
    requires Good(t, h) && Sorted(Flat(t)) && Rooted(t) && key != []
    requires WF(t', h) && Flat(t') == Remove(Flat(t), key)
    ensures NodeOf(t').es != [] && Rooted(t')
    ensures Visible(Flat(t')) == Visible(Flat(t)) - {key}
  {
    GoodFirst(t, h);
    EmptyNode(t', h);
    hide Compare, LE, Flat, WF, ToMap, Sorted, FirstKey, Remove, Good, NodeOf;
    FirstNotRemoved(Flat(t), key);
    FirstOfFlat(t', h);
    RemoveIsMapRemoval(Flat(t), key);
  }

  lemma FirstNotRemoved(s: seq<Entry>, key: Bytes)
    requires s != [] && s[0].key != key
    ensures Remove(s, key) != [] && Remove(s, key)[0] == s[0]
  {
    hide LE, Splice;
    if Has(s, key) {
      SpliceIndex(s, LE(s, key), LE(s, key) + 1, []);
    }
  }

  /** A root with one kid can be replaced by the kid. */
  lemma OnlyKid(t': Tree, h: nat, pages: map<nat, Node>)
    requires t'.Inner? && WF(t', h) && Stored(pages, t') && Sorted(Flat(t')) && Rooted(t') && |NodeOf(t').es| == 1
    ensures |t'.kids| == 1 && h > 0
    ensures var k := t'.kids[0];
            && k.ptr != 0 && k.ptr == NodeOf(t').es[0].ptr && RootOK(pages, k.ptr, k.sub, h - 1)
            && Flat(k.sub) == Flat(t') && Pages(t') == multiset{k.ptr} + Pages(k.sub)
  {
    assert |Seps(t'.kids)| == |t'.kids|;
    assert t'.kids == [t'.kids[0]] && Seps(t'.kids)[0] == Sep(t'.kids[0]);
    OneKid(t'.kids[0]);
    OnePage(t'.kids[0]);
    assert StoredKid(pages, t'.kids[0]);
    hide Sorted;
  }

  lemma UnionPages(r: multiset<nat>, p: multiset<nat>, p': multiset<nat>)
    ensures (r + p) - p + p' == r + p'
  {
  }

  lemma RootFacts(t: Tree, h: nat, pages: map<nat, Node>, root: nat, key: Bytes)
    requires RootOK(pages, root, t, h)
    ensures Le(FirstKey(t), key) && WF(t, h) && Sorted(Flat(t))
    ensures Has(Flat(t), key) <==> key in ToMap(Flat(t))
    ensures Has(Flat(t), key) ==> Val(Flat(t), key) == ToMap(Flat(t))[key]
  {
    EmptyFirst(key);
    ViewLookup(t, h, pages, root, key);
    hide Compare, LE, Flat, WF, Stored, Has, Val, ToMap, Sorted, FirstKey;
  }

  lemma RootGrows(t: Tree, h: nat, pages: map<nat, Node>, more: map<nat, Node>, root: nat)
    requires RootOK(pages, root, t, h) && Grows(pages, more)
    ensures RootOK(more, root, t, h)
  {
    hide WF, Sorted, Good, FirstKey;
    StoredGrows(pages, more, t);
  }

  /** The tree after an insertion or update, before its root is stored. */
  lemma PutVisible(t: Tree, h: nat, t': Tree, key: Bytes, val: Bytes)
    requires Good(t, h) && Sorted(Flat(t)) && Rooted(t) && key != []
    requires WF(t', h) && NodeOf(t').es != [] && Flat(t') == Put(Flat(t), key, val)
    ensures Rooted(t') && Visible(Flat(t')) == Visible(Flat(t))[key := val]
  {
    GoodFirst(t, h);
    FirstOfFlat(t', h);
    hide Compare, LE, Flat, WF, ToMap, Sorted, FirstKey, Put, Good, NodeOf;
    EmptyFirst(key);
    PutFirst(Flat(t), key, val);
    PutIsMapUpdate(Flat(t), key, val);
  }

  lemma OnePart(parts: seq<Node>, node: Node)
    requires |parts| == 1 && Joined(parts) == node.es && FitParts(parts, node.leaf)
    ensures parts[0] == node
  {
    JoinedCons(parts[0], []);
    assert parts == [parts[0]] + [] && parts[0].es + [] == parts[0].es;
  }

  /** Once its root node is stored, a tree in hand is a stored tree. */
  lemma RootStored(t: Tree, h: nat, pages: map<nat, Node>, more: map<nat, Node>, root: nat)
    requires WF(t, h) && Stored(pages, t) && Sorted(Flat(t)) && Rooted(t)
    requires NodeOf(t).es != [] && Size(NodeOf(t)) <= PAGE
    requires root != 0 && root !in pages && more == pages[root := NodeOf(t)]
    ensures RootOK(more, root, t, h) && Grows(pages, more)
  {
    hide WF, Sorted, FirstKey;
    StoredGrows(pages, more, t);
  }

  /** A split root becomes the kids of a new root node, which fits a page. */
  lemma RootParts(t': Tree, h: nat, parts: seq<Node>, ptrs: seq<nat>, pages1: map<nat, Node>, pages2: map<nat, Node>)
    requires WF(t', h) && Stored(pages1, t') && Sorted(Flat(t')) && Rooted(t') && NodeOf(t').es != []
    requires Joined(parts) == NodeOf(t').es && FitParts(parts, t'.Leaf?) && 1 <= |parts| <= 3
    requires Grows(pages1, pages2) && |ptrs| == |parts|
    requires forall i :: 0 <= i < |ptrs| ==> ptrs[i] != 0 && ptrs[i] in pages2 && pages2[ptrs[i]] == parts[i]
    ensures var t := Inner(Zip(ptrs, Pieces(t', parts)));
            && WF(t, h + 1) && Stored(pages2, t) && Flat(t) == Flat(t') && Rooted(t)
            && NodeOf(t) == Node(false, PartEntries(ptrs, parts)) && NodeOf(t).es != [] && Size(NodeOf(t)) <= PAGE
            && Pages(t) == multiset(ptrs) + Pages(t') && |t.kids| == |parts|
  {
    hide Compare, Flat, FlatKids, EsSize, WF, Sorted, FirstKey, Stored, Pages, PagesKids, Good, Zip, Pieces, NodeOf, Joined;
    StoredGrows(pages1, pages2, t');
    PartsAreKids(t', h, parts, ptrs, pages2);
    PiecesFirst(t', h, parts);
    var kids := Zip(ptrs, Pieces(t', parts));
    KidsInner(kids, h, pages2);
    FirstOfNode(t');
    FirstOfNode(Inner(kids));
    var es := PartEntries(ptrs, parts);
    assert Within(es, 14 + MAX_KEY);
    EsSizeBounds(es, 14 + MAX_KEY);
    assert (14 + MAX_KEY) * |es| <= 3 * (14 + MAX_KEY);
  }

  lemma KidsInner(kids: seq<Kid>, h: nat, pages: map<nat, Node>)
    requires forall i :: 0 <= i < |kids| ==> KidOK(pages, kids[i], h)
    ensures WF(Inner(kids), h + 1) && Stored(pages, Inner(kids))
    ensures NodeOf(Inner(kids)) == Node(false, Seps(kids))
    ensures Flat(Inner(kids)) == FlatKids(kids) && Pages(Inner(kids)) == PagesKids(kids)
  {
    hide FlatKids, PagesKids, Good, StoredKid;
    forall i | 0 <= i < |kids| ensures Good(kids[i].sub, h) && StoredKid(pages, kids[i]) {
      assert KidOK(pages, kids[i], h);
    }
  }

  lemma NothingInEmpty(key: Bytes)
    ensures !Has([], key) && ToMap([]) == map[]
  {
  }

  lemma EmptyFirst(key: Bytes)
    ensures Le([], key)
  {
  }

  /** Looking a key up in the sorted view is looking it up in the map. */
  lemma ViewLookup(t: Tree, h: nat, pages: map<nat, Node>, root: nat, key: Bytes)
    requires RootOK(pages, root, t, h)
    ensures Sorted(Flat(t))
    ensures Has(Flat(t), key) <==> key in ToMap(Flat(t))
    ensures Has(Flat(t), key) ==> Val(Flat(t), key) == ToMap(Flat(t))[key]
  {
    hide Compare, LE, Flat, WF, Stored, Has, Val, ToMap, Sorted;
    HasInMap(Flat(t), key);
  }
}
