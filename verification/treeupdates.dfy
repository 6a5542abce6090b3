/** The recursive copy-on-write update of a tree on a page store. */
module TreeUpdates {
  import opened Bytes
  import opened Seqs
  import opened SortedSeq
  import opened Nodes
  import opened Trees
  import opened TreeOps
  import opened TreeFits
  import PS = PageStore

  datatype Mode = Upsert | UpdateOnly | InsertOnly

  /** What a recursive step hands to its parent. `Overflow` is where the source runs out of page space. */
  datatype Step = Unchanged | Changed(node: Node) | Overflow

  datatype Outcome = Done(changed: bool) | BadKey | BadValue | NoRoom

  function LeafInsert(node: Node, idx: nat, key: Bytes, val: Bytes): Node
    requires idx <= |node.es|
  {
    Node(true, Splice(node.es, idx, idx, [Entry(0, key, val)]))
  }

  function LeafUpdate(node: Node, idx: nat, key: Bytes, val: Bytes): Node
    requires idx < |node.es|
  {
    Node(true, Splice(node.es, idx, idx + 1, [Entry(0, key, val)]))
  }

  /** The cases in which an update changes nothing. */
  ghost predicate NoChange(s: seq<Entry>, key: Bytes, val: Bytes, mode: Mode) {
    if Has(s, key) then mode == InsertOnly || Val(s, key) == val else mode == UpdateOnly
  }

  /** What an update has done to the store and to the subtree that hung below the node in hand. */
  twostate predicate Rebuilt(store: PS.PageStore, t: Tree, t': Tree)
    reads store
  {
    && store.Inv() && store.ledger.start == old(store.ledger.start)
    && Grows(old(store.ledger.pages), store.ledger.pages)
    && Pages(t) <= old(store.ledger.inUse)
    && store.ledger.inUse == old(store.ledger.inUse) - Pages(t) + Pages(t')
  }

  /** Insert or update below a node in hand; the changed node is returned, not stored. */
  method TreeUpdate(store: PS.PageStore, key: Bytes, val: Bytes, mode: Mode, node: Node, ghost t: Tree, ghost h: nat)
    returns (step: Step, added: bool, prev: Bytes, ghost t': Tree)
    requires store.Inv() && InHand(store.ledger.pages, node, t, h) && Good(t, h)
    requires Pages(t) <= store.ledger.inUse
    requires Le(FirstKey(t), key) && |key| <= MAX_KEY && |val| <= MAX_VAL
    modifies store`mem, store`page, store`free, store`ledger
    ensures step.Unchanged? <==> NoChange(Flat(t), key, val, mode)
    ensures step.Unchanged? ==> t' == t && unchanged(store)
    ensures !step.Overflow? ==> Rebuilt(store, t, t')
    ensures step.Changed? ==> InHand(store.ledger.pages, step.node, t', h) && Flat(t') == Put(Flat(t), key, val)
    ensures step.Changed? ==> step.node.es != [] && Size(step.node) <= PAGE + 14 + MAX_KEY + MAX_VAL
    ensures step.Changed? ==> added == !Has(Flat(t), key) && (!added ==> prev == Val(Flat(t), key))
    ensures step.Overflow? <==> !step.Unchanged? && !UpdateFits(t, key, val)
    ensures step.Changed? ==> Bare(step.node.es) == Updated(t, key, val)
    ensures SmallCase(Flat(t), key, val) ==>
              !step.Overflow? && (step.Changed? ==> Size(step.node) <= PAGE + 512)
    decreases h, 1
  {
    hide Compare, LE, Flat, EsSize, Put, WF, Sorted, FirstKey, Stored, Pages, PS.PageStore.Inv, Splice, Within, Bare, Updated;
    step, added, prev, t' := Unchanged, false, [], t;
    LookupInRange(t, h, key);
    Kinds(t, h);
    var idx := NodeLookupLE(node, key);
    if node.leaf {
      assert h == 0;
      step, added, prev, t' := LeafStep(node, idx, key, val, mode, t, store.ledger.pages);
    } else {
      step, added, prev, t' := NodeUpdate(store, key, val, mode, node, idx, t, h);
    }
  }

  ghost predicate SmallCase(s: seq<Entry>, key: Bytes, val: Bytes) {
    Small(s) && 14 + |key| + |val| <= 256
  }

  /** The leaf case: reject, overwrite or insert. */
  method LeafStep(node: Node, idx: nat, key: Bytes, val: Bytes, mode: Mode, ghost t: Tree, ghost pages: map<nat, Node>)
    returns (step: Step, added: bool, prev: Bytes, ghost t': Tree)
    requires t.Leaf? && node == NodeOf(t) && Good(t, 0) && Sorted(t.es)
    requires |key| <= MAX_KEY && |val| <= MAX_VAL
    requires idx < |t.es| && idx == LE(t.es, key)
    ensures !step.Overflow? && (step.Unchanged? ==> t' == t)
    ensures step.Unchanged? <==> NoChange(Flat(t), key, val, mode)
    ensures Pages(t') == Pages(t) == multiset{}
    ensures step.Changed? ==> InHand(pages, step.node, t', 0) && Flat(t') == Put(Flat(t), key, val)
    ensures step.Changed? ==> step.node.es != [] && Size(step.node) <= PAGE + 14 + |key| + |val|
    ensures step.Changed? ==> added == !Has(Flat(t), key) && (!added ==> prev == Val(Flat(t), key))
    ensures step.Changed? ==> Bare(step.node.es) == Updated(t, key, val)
  {
    LeafUpdated(t, key, val, pages);
    hide Compare, LE, EsSize, WF, Sorted, Splice, Stored;
    step, added, prev, t' := Unchanged, false, [], t;
    if key == node.es[idx].key {
      if mode == InsertOnly || val == node.es[idx].val {
        return;
      }
      step, prev := Changed(LeafUpdate(node, idx, key, val)), node.es[idx].val;
    } else {
      if mode == UpdateOnly {
        return;
      }
      step, added := Changed(LeafInsert(node, idx + 1, key, val)), true;
    }
    t' := Leaf(Put(t.es, key, val));
  }

  method NodeUpdate(store: PS.PageStore, key: Bytes, val: Bytes, mode: Mode, node: Node, idx: nat, ghost t: Tree, ghost h: nat)
    returns (step: Step, added: bool, prev: Bytes, ghost t': Tree)
    requires t.Inner? && idx < |node.es| && idx == LE(node.es, key)
    requires store.Inv() && InHand(store.ledger.pages, node, t, h) && Good(t, h)
    requires Pages(t) <= store.ledger.inUse
    requires Le(FirstKey(t), key) && |key| <= MAX_KEY && |val| <= MAX_VAL
    modifies store`mem, store`page, store`free, store`ledger
    ensures step.Unchanged? <==> NoChange(Flat(t), key, val, mode)
    ensures step.Unchanged? ==> t' == t && unchanged(store)
    ensures !step.Overflow? ==> Rebuilt(store, t, t')
    ensures step.Changed? ==> InHand(store.ledger.pages, step.node, t', h) && Flat(t') == Put(Flat(t), key, val)
    ensures step.Changed? ==> step.node.es != [] && Size(step.node) <= PAGE + 14 + MAX_KEY + MAX_VAL
    ensures step.Changed? ==> added == !Has(Flat(t), key) && (!added ==> prev == Val(Flat(t), key))
    ensures step.Overflow? <==> !step.Unchanged? && !UpdateFits(t, key, val)
    ensures step.Changed? ==> Bare(step.node.es) == Updated(t, key, val)
    ensures SmallCase(Flat(t), key, val) ==>
              !step.Overflow? && (step.Changed? ==> Size(step.node) <= PAGE + 512)
    decreases h, 0
  {
    hide Compare, LE, Flat, FlatKids, EsSize, Put, Has, Val, WF, Sorted, FirstKey, Stored, Pages, PagesKids, Splice, Within,
      PS.PageStore.Inv, Zip, Pieces, Good, NodeOf, SplitFits, Joined, Bare, Updated, UpdateFits;
    added, prev, t' := false, [], t;
    var kptr := node.es[idx].ptr;
    Kinds(t, h);
    ghost var kid, use0, pages0 := t.kids[idx].sub, store.ledger.inUse, store.ledger.pages;
    ghost var k', ptrs;
    Enter(t.kids, h, key, store.ledger.pages);
    Around(t.kids, h, key, val);
    KidPages(t.kids, idx);
    if SmallCase(Flat(t), key, val) {
      SmallKid(t.kids, idx);
    }
    var kidNode := store.Get(kptr);
    step, added, prev, k' := TreeUpdate(store, key, val, mode, kidNode, kid, h - 1);
    FitsAbove(t, key, val, idx);
    if !step.Changed? {
      return;
    }
    BareSplit(step.node.es);
    ghost var pages1 := store.ledger.pages;
    StoredGrows(pages0, pages1, t);
    if SmallCase(Flat(t), key, val) {
      SmallUpdated(k', h - 1, Flat(kid), key, val);
    }
    StepPages(use0, Pages(t), kptr, Pages(kid), Pages(k'), multiset{});
    step, ptrs, t' := StoreUpdated(store, key, val, node, idx, step.node, t, h, k');
    StepPages(use0, Pages(t), kptr, Pages(kid), Pages(k'), multiset(ptrs));
    if step.Changed? {
      GrowsChain(pages0, pages1, store.ledger.pages);
    }
  }

  method StoreUpdated(store: PS.PageStore, ghost key: Bytes, ghost val: Bytes, node: Node, idx: nat, updated: Node,
                      ghost t: Tree, ghost h: nat, ghost k': Tree)
    returns (step: Step, ghost ptrs: seq<nat>, ghost t': Tree)
    requires t.Inner? && idx < |node.es| && idx == LE(node.es, key)
    requires store.Inv() && InHand(store.ledger.pages, node, t, h) && Good(t, h) && Le(FirstKey(t), key)
    requires InHand(store.ledger.pages, updated, k', h - 1) && updated.es != []
    requires Flat(k') == Put(Flat(t.kids[idx].sub), key, val) && Bare(updated.es) == Updated(t.kids[idx].sub, key, val)
    requires node.es[idx].ptr in store.ledger.inUse
    modifies store`mem, store`page, store`free, store`ledger
    ensures !step.Unchanged? && (step.Overflow? <==> !SplitFits(updated.es))
    ensures step.Changed? ==> store.Inv() && store.ledger.start == old(store.ledger.start)
    ensures step.Changed? ==> Grows(old(store.ledger.pages), store.ledger.pages)
    ensures step.Changed? ==> InHand(store.ledger.pages, step.node, t', h) && step.node.es != []
    ensures step.Changed? ==> Flat(t') == Put(Flat(t), key, val)
    ensures step.Changed? ==> store.ledger.inUse == old(store.ledger.inUse) - multiset{node.es[idx].ptr} + multiset(ptrs)
    ensures step.Changed? ==> Pages(t') == Pages(t) - PagesKid(t.kids[idx]) + (multiset(ptrs) + Pages(k'))
    ensures step.Changed? ==> Size(step.node) <= PAGE + 2 * (14 + MAX_KEY)
    ensures step.Changed? && Small(updated.es) ==> Size(step.node) <= PAGE + 512
    ensures step.Changed? ==> Bare(step.node.es) == Updated(t, key, val)
  {
    hide Compare, LE, Flat, FlatKids, EsSize, Put, Has, Val, WF, Sorted, FirstKey, Stored, Pages, PagesKids, Splice, Within,
      PS.PageStore.Inv, Zip, Pieces, Good, SplitFits, Joined, NodeOf, Bare, Updated, SplitParts;
    ptrs, t' := [], t;
    ghost var pages0 := store.ledger.pages;
    Kinds(t, h);
    Kinds(k', h - 1);
    NodeWithin(k', h - 1);
    var ok, parts := NodeSplit3(updated);
    if !ok {
      return Overflow, ptrs, t';
    }
    store.Del(node.es[idx].ptr);
    var out;
    out, ptrs := NodeReplaceKidN(store, node, idx, parts);
    ghost var pages := store.ledger.pages;
    StoredGrows(pages0, pages, t);
    StoredGrows(pages0, pages, k');
    t' := Inner(Splice(t.kids, idx, idx + 1, Zip(ptrs, Pieces(k', parts))));
    AfterReplace(t, h, key, val, k', parts, ptrs, pages);
    StepUpdated(t.kids, key, val, idx, updated.es, parts, ptrs);
    step := Changed(out);
  }

  /** The parent of the kids stored at `ptrs`. */
  lemma AfterReplace(t: Tree, h: nat, key: Bytes, val: Bytes, k': Tree, parts: seq<Node>, ptrs: seq<nat>, pages: map<nat, Node>)
    requires t.Inner? && InHand(pages, NodeOf(t), t, h) && Good(t, h) && Le(FirstKey(t), key)
    requires 0 <= LE(NodeOf(t).es, key) < |t.kids|
    requires h > 0 && InHand(pages, NodeOf(k'), k', h - 1)
    requires Flat(k') == Put(Flat(t.kids[LE(NodeOf(t).es, key)].sub), key, val)
    requires NodeOf(k').es != [] && Joined(parts) == NodeOf(k').es && FitParts(parts, k'.Leaf?) && 1 <= |parts| <= 3
    requires |ptrs| == |parts|
    requires forall i :: 0 <= i < |ptrs| ==> ptrs[i] != 0 && ptrs[i] in pages && pages[ptrs[i]] == parts[i]
    ensures var r := LE(NodeOf(t).es, key);
            var t' := Inner(Splice(t.kids, r, r + 1, Zip(ptrs, Pieces(k', parts))));
            var out := Node(false, Splice(NodeOf(t).es, r, r + 1, PartEntries(ptrs, parts)));
            && InHand(pages, out, t', h) && out.es != []
            && Flat(t') == Put(Flat(t), key, val)
            && Pages(t') == Pages(t) - PagesKid(t.kids[r]) + (multiset(ptrs) + Pages(k'))
            && Size(out) <= PAGE + 2 * (14 + MAX_KEY)
            && (Small(NodeOf(k').es) ==> Size(out) <= PAGE + 512)
  {
    hide Compare, LE, Flat, FlatKids, EsSize, Put, Has, Val, WF, Sorted, FirstKey, Stored, Pages, PagesKids, Splice, Within,
      Zip, Pieces, Joined, NodeOf;
    var r := LE(NodeOf(t).es, key);
    Kinds(t, h);
    NodeUpdated(t.kids, h, key, val, k', parts, ptrs, pages);
    PutSorted(Flat(t), key, val);
    FirstStays(t, h, r, key, val, k', pages);
    UpdatedSize(t.kids, h, r, k', parts, ptrs);
    SpliceIndex(Seps(t.kids), r, r + 1, PartEntries(ptrs, parts));
  }

  /** Putting a key below kid `r` does not change that kid's first key. */
  lemma FirstStays(t: Tree, h: nat, r: nat, key: Bytes, val: Bytes, k': Tree, pages: map<nat, Node>)
    requires t.Inner? && Good(t, h) && h > 0 && Stored(pages, t) && Sorted(Flat(t)) && Le(FirstKey(t), key)
    requires r == LE(Seps(t.kids), key) && r < |t.kids|
    requires WF(k', h - 1) && NodeOf(k').es != [] && Flat(k') == Put(Flat(t.kids[r].sub), key, val)
    ensures FirstKey(k') == FirstKey(t.kids[r].sub)
  {
    hide Compare, LE, FlatKids, EsSize, Put, Splice, Within;
    Enter(t.kids, h, key, pages);
    var k := t.kids[r].sub;
    GoodFirst(k, h - 1);
    PutFirst(Flat(k), key, val);
    FirstOfFlat(k', h - 1);
  }

  /** Store the pages of a split node; the entries that point to them. */
  method StoreParts(store: PS.PageStore, kids: seq<Node>) returns (es: seq<Entry>, ghost ptrs: seq<nat>)
    requires store.Inv()
    requires forall i :: 0 <= i < |kids| ==> kids[i].es != [] && Size(kids[i]) <= PAGE
    modifies store`mem, store`page, store`free, store`ledger
    ensures store.Inv() && store.ledger.start == old(store.ledger.start)
    ensures Grows(old(store.ledger.pages), store.ledger.pages)
    ensures |ptrs| == |kids|
    ensures forall i :: 0 <= i < |ptrs| ==>
                          ptrs[i] != 0 && ptrs[i] in store.ledger.pages && store.ledger.pages[ptrs[i]] == kids[i]
    ensures store.ledger.inUse == old(store.ledger.inUse) + multiset(ptrs)
    ensures es == PartEntries(ptrs, kids)
  {
    hide EsSize, PS.PageStore.Inv;
    es, ptrs := [], [];
    for i := 0 to |kids|
      invariant store.Inv() && store.ledger.start == old(store.ledger.start)
      invariant Grows(old(store.ledger.pages), store.ledger.pages)
      invariant |ptrs| == i
      invariant forall j :: 0 <= j < i ==>
                              ptrs[j] != 0 && ptrs[j] in store.ledger.pages && store.ledger.pages[ptrs[j]] == kids[j]
      invariant store.ledger.inUse == old(store.ledger.inUse) + multiset(ptrs)
      invariant es == PartEntries(ptrs, kids[..i])
    {
      var ptr := store.New(kids[i]);
      es := es + [Entry(ptr, kids[i].es[0].key, [])];
      ptrs := ptrs + [ptr];
    }
    assert kids[..|kids|] == kids;
  }

  /** Replace the kid at `idx` by new kids. */
  method NodeReplaceKidN(store: PS.PageStore, node: Node, idx: nat, kids: seq<Node>) returns (out: Node, ghost ptrs: seq<nat>)
    requires store.Inv() && idx < |node.es|
    requires forall i :: 0 <= i < |kids| ==> kids[i].es != [] && Size(kids[i]) <= PAGE
    modifies store`mem, store`page, store`free, store`ledger
    ensures store.Inv() && store.ledger.start == old(store.ledger.start)
    ensures Grows(old(store.ledger.pages), store.ledger.pages)
    ensures |ptrs| == |kids|
    ensures forall i :: 0 <= i < |ptrs| ==>
                          ptrs[i] != 0 && ptrs[i] in store.ledger.pages && store.ledger.pages[ptrs[i]] == kids[i]
    ensures store.ledger.inUse == old(store.ledger.inUse) + multiset(ptrs)
    ensures out == Node(false, Splice(node.es, idx, idx + 1, PartEntries(ptrs, kids)))
  {
    hide EsSize, PS.PageStore.Inv;
    var es;
    es, ptrs := StoreParts(store, kids);
    out := Node(false, node.es[..idx] + es + node.es[idx + 1..]);
  }
}
