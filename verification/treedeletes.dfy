/** The recursive copy-on-write deletion from a tree on a page store, with merging. */
module TreeDeletes {
  import opened Bytes
  import opened Seqs
  import opened SortedSeq
  import opened Nodes
  import opened Trees
  import opened TreeOps
  import opened TreeFits
  import opened DeleteOps
  import opened TreeUpdates
  import PS = PageStore

  function LeafDelete(node: Node, idx: nat): Node
    requires idx < |node.es|
  {
    Node(true, Splice(node.es, idx, idx + 1, []))
  }

  function NodeMerge(left: Node, right: Node): Node {
    Node(left.leaf, left.es + right.es)
  }

  /** Replace the kids `idx` and `idx + 1` by one. */
  function NodeReplace2Kids(node: Node, idx: nat, ptr: nat, key: Bytes): Node
    requires idx + 1 < |node.es|
  {
    Node(false, Splice(node.es, idx, idx + 2, [Entry(ptr, key, [])]))
  }

  /**
   * Should the updated kid be merged with a neighbour (-1 left, 1 right)? An empty kid with a
   * neighbour always is.
   */
  method ShouldMerge(store: PS.PageStore, node: Node, idx: nat, updated: Node, ghost t: Tree, ghost h: nat)
    returns (direction: int, sibling: Node)
    requires store.Inv() && t.Inner? && h > 0 && InHand(store.ledger.pages, node, t, h) && idx < |node.es|
    ensures -1 <= direction <= 1
    ensures direction == -1 ==> idx > 0 && sibling == NodeOf(t.kids[idx - 1].sub)
    ensures direction == 1 ==> idx + 1 < |t.kids| && sibling == NodeOf(t.kids[idx + 1].sub)
    ensures direction != 0 ==> Size(sibling) + Size(updated) - HEADER <= PAGE
    ensures direction == 0 && updated.es == [] ==> |node.es| == 1
    ensures direction == 0 && Size(updated) <= PAGE / 4 ==>
              && (idx > 0 ==> Size(NodeOf(t.kids[idx - 1].sub)) + Size(updated) - HEADER > PAGE)
              && (idx + 1 < |t.kids| ==> Size(NodeOf(t.kids[idx + 1].sub)) + Size(updated) - HEADER > PAGE)
    ensures direction != 0 ==> Size(updated) <= PAGE / 4
    ensures direction == MergeSide(t.kids, idx, updated.es)
  {
    hide EsSize, Flat, Sorted, FirstKey, PS.PageStore.Inv;
    NoSize();
    assert forall i :: 0 <= i < |t.kids| ==> Good(t.kids[i].sub, h - 1);
    direction, sibling := 0, Node(true, []);
    if Size(updated) > PAGE / 4 {
      return;
    }
    if idx > 0 {
      assert StoredKid(store.ledger.pages, t.kids[idx - 1]);
      var left := store.Get(node.es[idx - 1].ptr);
      if Size(left) + Size(updated) - HEADER <= PAGE {
        return -1, left;
      }
    }
    if idx < |node.es| - 1 {
      assert StoredKid(store.ledger.pages, t.kids[idx + 1]);
      var right := store.Get(node.es[idx + 1].ptr);
      if Size(right) + Size(updated) - HEADER <= PAGE {
        return 1, right;
      }
    }
  }

  /** Delete below a node in hand; the changed node is returned, not stored. */
  method TreeDelete(store: PS.PageStore, key: Bytes, node: Node, ghost t: Tree, ghost h: nat)
    returns (step: Step, prev: Bytes, ghost t': Tree)
    requires store.Inv() && InHand(store.ledger.pages, node, t, h) && Good(t, h)
    requires Pages(t) <= store.ledger.inUse
    requires Le(FirstKey(t), key)
    modifies store`mem, store`page, store`free, store`ledger
    ensures step.Unchanged? <==> !Has(Flat(t), key)
    ensures step.Unchanged? ==> t' == t && unchanged(store)
    ensures !step.Overflow? ==> Rebuilt(store, t, t')
    ensures step.Changed? ==> InHand(store.ledger.pages, step.node, t', h) && Flat(t') == Remove(Flat(t), key)
    ensures step.Changed? ==> Size(step.node) <= PAGE && prev == Val(Flat(t), key)
    ensures step.Overflow? <==> !step.Unchanged? && !DeleteFits(t, key)
    ensures step.Changed? ==> Bare(step.node.es) == Deleted(t, key)
    ensures ShortSuccessor(Flat(t), key) ==> !step.Overflow?
    decreases h, 1
  {
    hide Compare, LE, Flat, EsSize, Remove, WF, Sorted, FirstKey, Stored, Pages, PS.PageStore.Inv, Splice, Within, Bare;
    step, prev, t' := Unchanged, [], t;
    LookupInRange(t, h, key);
    Kinds(t, h);
    var idx := NodeLookupLE(node, key);
    if node.leaf {
      assert h == 0;
      LeafDeleted(t, key, store.ledger.pages);
      if key == node.es[idx].key {
        prev, t' := node.es[idx].val, Leaf(Remove(t.es, key));
        step := Changed(LeafDelete(node, idx));
        LeafRemoved(t.es, key, idx);
        Kinds(t', 0);
      }
    } else {
      step, prev, t' := NodeDelete(store, key, node, idx, t, h);
    }
  }

  lemma LeafRemoved(es: seq<Entry>, key: Bytes, idx: nat)
    requires idx == LE(es, key) && es[idx].key == key
    ensures Remove(es, key) == Splice(es, idx, idx + 1, [])
  {
  }

  method NodeDelete(store: PS.PageStore, key: Bytes, node: Node, idx: nat, ghost t: Tree, ghost h: nat)
    returns (step: Step, prev: Bytes, ghost t': Tree)
    requires t.Inner? && idx < |node.es| && idx == LE(node.es, key)
    requires store.Inv() && InHand(store.ledger.pages, node, t, h) && Good(t, h)
    requires Pages(t) <= store.ledger.inUse
    requires Le(FirstKey(t), key)
    modifies store`mem, store`page, store`free, store`ledger
    ensures step.Unchanged? <==> !Has(Flat(t), key)
    ensures step.Unchanged? ==> t' == t && unchanged(store)
    ensures !step.Overflow? ==> Rebuilt(store, t, t')
    ensures step.Changed? ==> InHand(store.ledger.pages, step.node, t', h) && Flat(t') == Remove(Flat(t), key)
    ensures step.Changed? ==> Size(step.node) <= PAGE && prev == Val(Flat(t), key)
    ensures step.Overflow? <==> !step.Unchanged? && !DeleteFits(t, key)
    ensures step.Changed? ==> Bare(step.node.es) == Deleted(t, key)
    ensures ShortSuccessor(Flat(t), key) ==> !step.Overflow?
    decreases h, 0
  {
    hide Compare, LE, Flat, FlatKids, EsSize, Put, Remove, Has, Val, WF, Sorted, FirstKey, Stored, Pages, PagesKids, Splice, Within,
      PS.PageStore.Inv, Good, NodeOf, ShortSuccessor, Grows, Bare, Deleted, DeleteFits, MergeSide;
    Kinds(t, h);
    ghost var kid, use0, pages0 := t.kids[idx].sub, store.ledger.inUse, store.ledger.pages;
    GrowsSelf(pages0);
    ghost var k';
    t' := t;
    var kptr := node.es[idx].ptr;
    Enter(t.kids, h, key, store.ledger.pages);
    Around(t.kids, h, key, []);
    KidPages(t.kids, idx);
    if ShortSuccessor(Flat(t), key) {
      ShortInKid(t.kids, h, key);
    }
    var kidNode := store.Get(kptr);
    step, prev, k' := TreeDelete(store, key, kidNode, kid, h - 1);
    DeleteFitsAbove(t, key, idx);
    if !step.Changed? {
      return;
    }
    ghost var pages1 := store.ledger.pages;
    InHandGrows(pages0, pages1, node, t, h);
    StepPages(use0, Pages(t), kptr, Pages(kid), Pages(k'), multiset{});
    store.Del(kptr);
    var updated := step.node;
    var direction, sibling := ShouldMerge(store, node, idx, updated, t, h);
    if direction != 0 {
      step, t' := MergeKid(store, key, node, idx, direction, sibling, updated, t, h, k', use0);
    } else {
      step, t' := PlaceKid(store, key, node, idx, updated, t, h, k', use0);
    }
    if step.Changed? {
      GrowsChain(pages0, pages1, store.ledger.pages);
    }
  }

  /** The state in which the changed kid `k'` is in hand and the old kid's page has been released. */
  ghost predicate KidChanged(store: PS.PageStore, key: Bytes, node: Node, idx: nat, updated: Node,
                             t: Tree, h: nat, k': Tree, use0: multiset<nat>)
    reads store
  {
    && t.Inner? && h > 0 && idx < |node.es| && idx == LE(node.es, key)
    && store.Inv() && InHand(store.ledger.pages, node, t, h) && Good(t, h) && Le(FirstKey(t), key)
    && InHand(store.ledger.pages, updated, k', h - 1) && Size(updated) <= PAGE
    && Flat(k') == Remove(Flat(t.kids[idx].sub), key) && Bare(updated.es) == Deleted(t.kids[idx].sub, key)
    && Pages(t) <= use0
    && store.ledger.inUse == use0 - Pages(t.kids[idx].sub) + Pages(k') - multiset{node.es[idx].ptr}
  }

  /** Merge the changed kid with its neighbour. The node overflows exactly if its separators leave no room. */
  method MergeKid(store: PS.PageStore, ghost key: Bytes, node: Node, idx: nat, direction: int, sibling: Node, updated: Node,
                  ghost t: Tree, ghost h: nat, ghost k': Tree, ghost use0: multiset<nat>)
    returns (step: Step, ghost t': Tree)
    requires KidChanged(store, key, node, idx, updated, t, h, k', use0)
    requires direction != 0 && direction == MergeSide(t.kids, idx, updated.es)
    requires direction == -1 ==> idx > 0 && sibling == NodeOf(t.kids[idx - 1].sub)
    requires direction == 1 ==> idx + 1 < |t.kids| && sibling == NodeOf(t.kids[idx + 1].sub)
    requires Size(sibling) + Size(updated) - HEADER <= PAGE
    modifies store`mem, store`page, store`free, store`ledger
    ensures !step.Unchanged?
    ensures step.Changed? ==> store.Inv() && store.ledger.start == old(store.ledger.start)
    ensures step.Changed? ==> Grows(old(store.ledger.pages), store.ledger.pages)
    ensures step.Changed? ==> InHand(store.ledger.pages, step.node, t', h) && Size(step.node) <= PAGE
    ensures step.Changed? ==> Flat(t') == Remove(Flat(t), key)
    ensures step.Changed? ==> store.ledger.inUse == use0 - Pages(t) + Pages(t')
    ensures step.Overflow? <==> HEADER + EsSize(Deleted(t, key)) > PAGE
    ensures step.Changed? ==> Bare(step.node.es) == Deleted(t, key)
    ensures ShortSuccessor(Flat(t), key) || direction == -1 ==> step.Changed?
  {
    hide Compare, LE, Flat, FlatKids, EsSize, Remove, Sorted, FirstKey, Pages, PagesKids, PagesKid, Splice, ShortSuccessor,
      PS.PageStore.Inv, Merged, WF, Stored, NodeOf, Good, Grows, Size, Bare, Deleted, MergeSide;
    t' := t;
    Kinds(t, h);
    ghost var pages0, l := store.ledger.pages, direction < 0;
    ghost var m, s := Merged(t.kids, idx, l, k'), t.kids[if l then idx - 1 else idx + 1];
    MergeStart(t, h, key, l, k', use0, pages0);
    var merged := if direction < 0 then NodeMerge(sibling, updated) else NodeMerge(updated, sibling);
    var lo := if direction < 0 then idx - 1 else idx;
    store.Del(if direction < 0 then node.es[idx - 1].ptr else node.es[idx + 1].ptr);
    var ptr := store.New(merged);
    var out := NodeReplace2Kids(node, lo, ptr, merged.es[0].key);
    MergeEnd(t, h, key, l, k', use0, ptr, pages0, store.ledger.pages);
    MergedBare(t.kids, h, key, idx, sibling, updated, ptr);
    if Size(out) > PAGE {
      return Overflow, t';
    }
    step := Changed(out);
    t' := Inner(Splice(t.kids, lo, lo + 2, [Kid(ptr, m)]));
  }

  /** The parent after a merge, up to pointers. */
  lemma MergedBare(kids: seq<Kid>, h: nat, key: Bytes, r: nat, sibling: Node, updated: Node, ptr: nat)
    requires r < |kids| && r == LE(Seps(kids), key) && Bare(updated.es) == Deleted(kids[r].sub, key)
    requires var side := MergeSide(kids, r, updated.es);
             side != 0 && sibling == NodeOf(kids[if side < 0 then r - 1 else r + 1].sub)
    requires (if MergeSide(kids, r, updated.es) < 0 then NodeMerge(sibling, updated) else NodeMerge(updated, sibling)).es != []
    ensures var side := MergeSide(kids, r, updated.es);
            var lo, merged := if side < 0 then r - 1 else r, if side < 0 then NodeMerge(sibling, updated) else NodeMerge(updated, sibling);
            && merged.es != []
            && Bare(NodeReplace2Kids(Node(false, Seps(kids)), lo, ptr, merged.es[0].key).es) == Deleted(Inner(kids), key)
            && Size(NodeReplace2Kids(Node(false, Seps(kids)), lo, ptr, merged.es[0].key)) == HEADER + EsSize(Deleted(Inner(kids), key))
  {
    hide EsSize, Splice, LE, NodeOf, MergeSide, Bare, Deleted;
    StepDeleted(kids, key, r, updated.es, ptr);
    BareSize(Shrunk(kids, r, updated.es, ptr));
  }

  /** What the merge of the changed kid `k'` starts from. */
  ghost predicate MergeCase(t: Tree, h: nat, key: Bytes, left: bool, k': Tree, use0: multiset<nat>, pages: map<nat, Node>) {
    && t.Inner? && h > 0 && InHand(pages, NodeOf(t), t, h) && Good(t, h) && Le(FirstKey(t), key)
    && 0 <= LE(NodeOf(t).es, key) < |t.kids|
    && (if left then LE(NodeOf(t).es, key) > 0 else LE(NodeOf(t).es, key) + 1 < |t.kids|)
    && InHand(pages, NodeOf(k'), k', h - 1)
    && Flat(k') == Remove(Flat(t.kids[LE(NodeOf(t).es, key)].sub), key)
    && Pages(t) <= use0
  }

  lemma MergeStart(t: Tree, h: nat, key: Bytes, left: bool, k': Tree, use0: multiset<nat>, pages: map<nat, Node>)
    requires MergeCase(t, h, key, left, k', use0, pages)
    ensures var r := LE(NodeOf(t).es, key);
            var s, m := t.kids[if left then r - 1 else r + 1], Merged(t.kids, r, left, k');
            && NodeOf(m) == (if left then NodeMerge(NodeOf(s.sub), NodeOf(k')) else NodeMerge(NodeOf(k'), NodeOf(s.sub)))
            && Size(NodeOf(m)) == Size(NodeOf(s.sub)) + Size(NodeOf(k')) - HEADER
            && NodeOf(m).es != [] && NodeOf(m).es[0].key == FirstKey(m)
            && s.ptr == NodeOf(t).es[if left then r - 1 else r + 1].ptr
            && s.ptr in use0 - Pages(t.kids[r].sub) + Pages(k') - multiset{NodeOf(t).es[r].ptr}
  {
    hide Compare, LE, Flat, FlatKids, EsSize, Remove, Sorted, FirstKey, Pages, PagesKids, PagesKid, Splice, Merged, WF, Stored;
    Kinds(t, h);
    var r := LE(NodeOf(t).es, key);
    var s := t.kids[if left then r - 1 else r + 1];
    BeforeMerge(t.kids, h, r, left, k', pages);
    NeighbourPages(t.kids, if left then r - 1 else r);
    OnePage(t.kids[r]);
    OnePage(s);
    MergePages(use0, Pages(t), t.kids[r].ptr, Pages(t.kids[r].sub), Pages(k'), s.ptr, Pages(s.sub), 0);
  }

  lemma MergeEnd(t: Tree, h: nat, key: Bytes, left: bool, k': Tree, use0: multiset<nat>, ptr: nat,
                 pages0: map<nat, Node>, pages: map<nat, Node>)
    requires MergeCase(t, h, key, left, k', use0, pages0)
    requires var m := Merged(t.kids, LE(NodeOf(t).es, key), left, k');
             ptr != 0 && ptr !in pages0 && pages == pages0[ptr := NodeOf(m)] && Size(NodeOf(m)) <= PAGE
    ensures var r := LE(NodeOf(t).es, key);
            var s, m := t.kids[if left then r - 1 else r + 1], Merged(t.kids, r, left, k');
            var lo := if left then r - 1 else r;
            var t' := Inner(Splice(t.kids, lo, lo + 2, [Kid(ptr, m)]));
            var out := Node(false, Splice(NodeOf(t).es, lo, lo + 2, [Entry(ptr, FirstKey(m), [])]));
            && InHand(pages, out, t', h) && Flat(t') == Remove(Flat(t), key) && Grows(pages0, pages)
            && use0 - Pages(t.kids[r].sub) + Pages(k') - multiset{NodeOf(t).es[r].ptr} - multiset{s.ptr} + multiset{ptr}
               == use0 - Pages(t) + Pages(t')
            && (left || ShortSuccessor(Flat(t), key) ==> Size(out) <= PAGE)
  {
    hide Compare, LE, Flat, FlatKids, EsSize, Remove, Sorted, FirstKey, Pages, PagesKids, PagesKid, Splice, Merged, WF, Stored,
      ShortSuccessor;
    Kinds(t, h);
    var r := LE(NodeOf(t).es, key);
    var lo := if left then r - 1 else r;
    var m := Merged(t.kids, r, left, k');
    BeforeMerge(t.kids, h, r, left, k', pages0);
    AfterMerge(t, h, key, k', lo, ptr, m, pages0, pages);
    MergeUse(t, h, r, left, k', use0, ptr, Pages(m), Pages(Inner(Splice(t.kids, lo, lo + 2, [Kid(ptr, m)]))));
    if left || ShortSuccessor(Flat(t), key) {
      MergeFits(t.kids, h, key, left, k', ptr, pages0);
    }
  }

  lemma MergeUse(t: Tree, h: nat, r: nat, left: bool, k': Tree, use0: multiset<nat>, ptr: nat, pm: multiset<nat>, p': multiset<nat>)
    requires t.Inner? && WF(t, h) && r < |t.kids| && (if left then r > 0 else r + 1 < |t.kids|) && Pages(t) <= use0
    requires var s := t.kids[if left then r - 1 else r + 1];
             && pm == Pages(k') + Pages(s.sub)
             && var lo := if left then r - 1 else r;
                p' == Pages(t) - (PagesKid(t.kids[lo]) + PagesKid(t.kids[lo + 1])) + (multiset{ptr} + pm)
    ensures var s := t.kids[if left then r - 1 else r + 1];
            use0 - Pages(t.kids[r].sub) + Pages(k') - multiset{NodeOf(t).es[r].ptr} - multiset{s.ptr} + multiset{ptr}
            == use0 - Pages(t) + p'
  {
    hide Flat, FlatKids, Pages, PagesKids, PagesKid, WF, FirstKey;
    Kinds(t, h);
    var s := t.kids[if left then r - 1 else r + 1];
    NeighbourPages(t.kids, if left then r - 1 else r);
    OnePage(t.kids[r]);
    OnePage(s);
    MergePages(use0, Pages(t), t.kids[r].ptr, Pages(t.kids[r].sub), Pages(k'), s.ptr, Pages(s.sub), ptr);
  }

  lemma NeighbourPages(kids: seq<Kid>, lo: nat)
    requires lo + 1 < |kids|
    ensures PagesKid(kids[lo]) + PagesKid(kids[lo + 1]) <= PagesKids(kids)
    ensures PagesKid(kids[lo + 1]) + PagesKid(kids[lo]) == PagesKid(kids[lo]) + PagesKid(kids[lo + 1])
  {
    hide PagesKids, PagesKid;
    AroundPair(kids, lo);
  }

  lemma AfterMerge(t: Tree, h: nat, key: Bytes, k': Tree, lo: nat, ptr: nat, m: Tree, pages0: map<nat, Node>, pages: map<nat, Node>)
    requires t.Inner? && h > 0 && Good(t, h) && Stored(pages0, t) && Sorted(Flat(t)) && Le(FirstKey(t), key)
    requires 0 <= LE(NodeOf(t).es, key) < |t.kids| && lo + 1 < |t.kids|
    requires var r := LE(NodeOf(t).es, key);
             && Flat(k') == Remove(Flat(t.kids[r].sub), key)
             && (lo == r - 1 || lo == r)
             && (lo == r - 1 ==> Flat(m) == Flat(t.kids[lo].sub) + Flat(k'))
             && (lo == r ==> Flat(m) == Flat(k') + Flat(t.kids[lo + 1].sub))
    requires WF(m, h - 1) && Stored(pages0, m) && NodeOf(m).es != [] && Size(NodeOf(m)) <= PAGE
    requires ptr != 0 && pages == pages0[ptr := NodeOf(m)] && ptr !in pages0
    ensures var t' := Inner(Splice(t.kids, lo, lo + 2, [Kid(ptr, m)]));
            && InHand(pages, Node(false, Splice(NodeOf(t).es, lo, lo + 2, [Entry(ptr, FirstKey(m), [])])), t', h)
            && Flat(t') == Remove(Flat(t), key)
            && Pages(t') == Pages(t) - (PagesKid(t.kids[lo]) + PagesKid(t.kids[lo + 1])) + (multiset{ptr} + Pages(m))
  {
    hide Compare, LE, Flat, FlatKids, EsSize, Remove, Sorted, FirstKey, Pages, PagesKids, PagesKid, Splice, WF;
    Kinds(t, h);
    StoredGrows(pages0, pages, t);
    StoredGrows(pages0, pages, m);
    hide Stored;
    NodeMerged(t.kids, h, key, k', lo, ptr, m, pages);
    RemoveSorted(Flat(t), key);
  }

  method PlaceKid(store: PS.PageStore, ghost key: Bytes, node: Node, idx: nat, updated: Node,
                  ghost t: Tree, ghost h: nat, ghost k': Tree, ghost use0: multiset<nat>)
    returns (step: Step, ghost t': Tree)
    requires KidChanged(store, key, node, idx, updated, t, h, k', use0)
    requires MergeSide(t.kids, idx, updated.es) == 0 && (updated.es == [] ==> |node.es| == 1)
    modifies store`mem, store`page, store`free, store`ledger
    ensures !step.Unchanged?
    ensures step.Changed? ==> store.Inv() && store.ledger.start == old(store.ledger.start)
    ensures step.Changed? ==> Grows(old(store.ledger.pages), store.ledger.pages)
    ensures step.Changed? ==> InHand(store.ledger.pages, step.node, t', h) && Size(step.node) <= PAGE
    ensures step.Changed? ==> Flat(t') == Remove(Flat(t), key)
    ensures step.Changed? ==> store.ledger.inUse == use0 - Pages(t) + Pages(t')
    ensures step.Overflow? <==> HEADER + EsSize(Deleted(t, key)) > PAGE
    ensures step.Changed? ==> Bare(step.node.es) == Deleted(t, key)
    ensures ShortSuccessor(Flat(t), key) ==> step.Changed?
  {
    hide Compare, LE, Flat, FlatKids, EsSize, Remove, Sorted, FirstKey, Pages, PagesKids, PagesKid, Splice, ShortSuccessor,
      PS.PageStore.Inv, WF, Stored, NodeOf, Good, Grows, Zip, Pieces, Joined, Bare, Deleted, MergeSide;
    t' := t;
    ghost var pages0 := store.ledger.pages;
    Kinds(t, h);
    if updated.es == [] {
      assert idx == 0 && |node.es| == 1;
      PlaceNothing(t, h, key, k', use0, pages0);
      PlacedBare(t.kids, key, idx, updated, 0);
      GrowsSelf(pages0);
      t' := Inner([]);
      return Changed(Node(false, [])), t';
    }
    var out, ptrs := NodeReplaceKidN(store, node, idx, [updated]);
    PlaceEnd(t, h, key, k', use0, ptrs, pages0, store.ledger.pages);
    PlacedBare(t.kids, key, idx, updated, ptrs[0]);
    assert PartEntries(ptrs, [updated]) == [Entry(ptrs[0], updated.es[0].key, [])];
    if Size(out) > PAGE {
      return Overflow, t';
    }
    step := Changed(out);
    t' := Inner(Splice(t.kids, idx, idx + 1, Zip(ptrs, Pieces(k', [updated]))));
  }

  /** The parent without a merge, up to pointers. */
  lemma PlacedBare(kids: seq<Kid>, key: Bytes, r: nat, updated: Node, ptr: nat)
    requires r < |kids| && r == LE(Seps(kids), key) && Bare(updated.es) == Deleted(kids[r].sub, key)
    requires MergeSide(kids, r, updated.es) == 0
    ensures updated.es == [] ==> Deleted(Inner(kids), key) == [] && HEADER + EsSize(Deleted(Inner(kids), key)) <= PAGE
    ensures updated.es != [] ==>
              var out := Node(false, Splice(Seps(kids), r, r + 1, [Entry(ptr, updated.es[0].key, [])]));
              Bare(out.es) == Deleted(Inner(kids), key) && Size(out) == HEADER + EsSize(Deleted(Inner(kids), key))
  {
    NoSize();
    hide EsSize, Splice, LE, NodeOf, MergeSide, Deleted;
    StepDeleted(kids, key, r, updated.es, ptr);
    BareSize(Shrunk(kids, r, updated.es, ptr));
  }

  lemma PlaceNothing(t: Tree, h: nat, key: Bytes, k': Tree, use0: multiset<nat>, pages: map<nat, Node>)
    requires t.Inner? && h > 0 && InHand(pages, NodeOf(t), t, h) && Good(t, h) && Le(FirstKey(t), key)
    requires |t.kids| == 1 && Pages(t) <= use0
    requires InHand(pages, NodeOf(k'), k', h - 1) && NodeOf(k').es == [] && Flat(k') == Remove(Flat(t.kids[0].sub), key)
    ensures InHand(pages, Node(false, []), Inner([]), h) && Size(Node(false, [])) <= PAGE
    ensures Flat(Inner([])) == Remove(Flat(t), key)
    ensures use0 - Pages(t.kids[0].sub) + Pages(k') - multiset{NodeOf(t).es[0].ptr} == use0 - Pages(t) + Pages(Inner([]))
  {
    hide Compare, LE, Flat, FlatKids, EsSize, Remove, FirstKey, Pages, PagesKids, WF, Stored;
    Kinds(t, h);
    NodeEmptied(t.kids, h, key, k', pages);
    NoSize();
    RemoveSorted(Flat(t), key);
    StepPages(use0, Pages(t), t.kids[0].ptr, Pages(t.kids[0].sub), Pages(k'), multiset{});
  }

  lemma PlaceEnd(t: Tree, h: nat, key: Bytes, k': Tree, use0: multiset<nat>, ptrs: seq<nat>,
                 pages0: map<nat, Node>, pages: map<nat, Node>)
    requires t.Inner? && h > 0 && InHand(pages0, NodeOf(t), t, h) && Good(t, h) && Le(FirstKey(t), key)
    requires 0 <= LE(NodeOf(t).es, key) < |t.kids| && Pages(t) <= use0
    requires InHand(pages0, NodeOf(k'), k', h - 1) && NodeOf(k').es != [] && Size(NodeOf(k')) <= PAGE
    requires Flat(k') == Remove(Flat(t.kids[LE(NodeOf(t).es, key)].sub), key)
    requires Grows(pages0, pages) && |ptrs| == 1 && ptrs[0] != 0 && ptrs[0] in pages && pages[ptrs[0]] == NodeOf(k')
    ensures Joined([NodeOf(k')]) == NodeOf(k').es
    ensures var r := LE(NodeOf(t).es, key);
            var parts := [NodeOf(k')];
            var t' := Inner(Splice(t.kids, r, r + 1, Zip(ptrs, Pieces(k', parts))));
            var out := Node(false, Splice(NodeOf(t).es, r, r + 1, PartEntries(ptrs, parts)));
            && InHand(pages, out, t', h) && Flat(t') == Remove(Flat(t), key)
            && use0 - Pages(t.kids[r].sub) + Pages(k') - multiset{NodeOf(t).es[r].ptr} + multiset(ptrs)
               == use0 - Pages(t) + Pages(t')
            && (ShortSuccessor(Flat(t), key) ==> Size(out) <= PAGE)
  {
    hide Compare, LE, Flat, FlatKids, EsSize, Remove, Sorted, FirstKey, Pages, PagesKids, PagesKid, Splice, ShortSuccessor,
      WF, Stored, Good, Zip, Pieces, Joined, NodeOf;
    var r := LE(NodeOf(t).es, key);
    var parts := [NodeOf(k')];
    Kinds(t, h);
    Kinds(k', h - 1);
    JoinedCons(NodeOf(k'), []);
    assert [NodeOf(k')] + [] == parts && NodeOf(k').es + [] == NodeOf(k').es;
    StoredGrows(pages0, pages, t);
    StoredGrows(pages0, pages, k');
    NodeUpdated(t.kids, h, key, [], k', parts, ptrs, pages);
    RemoveSorted(Flat(t), key);
    KidPages(t.kids, r);
    OnePage(t.kids[r]);
    StepPages(use0, Pages(t), t.kids[r].ptr, Pages(t.kids[r].sub), Pages(k'), multiset(ptrs));
    if ShortSuccessor(Flat(t), key) {
      PlaceFits(t, h, key, k', ptrs, pages0);
    }
  }

  lemma PlaceFits(t: Tree, h: nat, key: Bytes, k': Tree, ptrs: seq<nat>, pages: map<nat, Node>)
    requires t.Inner? && h > 0 && InHand(pages, NodeOf(t), t, h) && Good(t, h) && Le(FirstKey(t), key)
    requires 0 <= LE(NodeOf(t).es, key) < |t.kids|
    requires WF(k', h - 1) && NodeOf(k').es != [] && |ptrs| == 1
    requires Flat(k') == Remove(Flat(t.kids[LE(NodeOf(t).es, key)].sub), key)
    requires ShortSuccessor(Flat(t), key)
    ensures var r := LE(NodeOf(t).es, key);
            HEADER + EsSize(Splice(NodeOf(t).es, r, r + 1, PartEntries(ptrs, [NodeOf(k')]))) <= PAGE
  {
    hide Compare, LE, Flat, FlatKids, EsSize, Remove, FirstKey, Pages, PagesKids, Splice, ShortSuccessor, WF, Stored;
    Kinds(t, h);
    var r := LE(NodeOf(t).es, key);
    ShortInKid(t.kids, h, key);
    Enter(t.kids, h, key, pages);
    FirstAfterRemove(t.kids[r].sub, k', h - 1, key);
    FirstOfNode(k');
    var e := PartEntries(ptrs, [NodeOf(k')])[0];
    assert PartEntries(ptrs, [NodeOf(k')]) == [e];
    NotLonger(Seps(t.kids), r, r + 1, e, r);
  }
}
