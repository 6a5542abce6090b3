/** The loop of a commit that carries the pending updates over to the current tree. */
module Transfer {
  import opened Bytes
  import opened Seqs
  import opened SortedSeq
  import opened Nodes
  import opened Trees
  import opened TreeOps
  import opened TreeUpdates
  import opened DeleteOps
  import opened BTrees
  import opened Positions
  import opened Cursors
  import opened Conflicts
  import opened Serial
  import TF = TreeFits
  import PS = PageStore

  // ---- data for which no node ever overflows ----

  /** Entries of at most 256 bytes whose keys all have the same length. */
  ghost predicate Regular(s: seq<Entry>, len: nat) {
    Small(s) && forall i :: 0 <= i < |s| ==> s[i].key == [] || |s[i].key| == len
  }

  lemma RegularPut(s: seq<Entry>, key: Bytes, val: Bytes, len: nat)
    requires Regular(s, len) && |key| == len && 14 + len + |val| <= 256
    ensures Regular(Put(s, key, val), len) && SmallCase(s, key, val)
  {
    hide LE, Splice;
    SpliceIndex(s, PutAt(s, key), LE(s, key) + 1, [Entry(0, key, val)]);
    PutSmall(s, key, val);
  }

  lemma RegularRemove(s: seq<Entry>, key: Bytes, len: nat)
    requires Regular(s, len) && |key| == len
    ensures Regular(Remove(s, key), len) && ShortSuccessor(s, key)
  {
    hide LE, Splice;
    if Has(s, key) {
      SpliceIndex(s, LE(s, key), LE(s, key) + 1, []);
    }
  }

  lemma RegularFirst(key: Bytes, val: Bytes, len: nat)
    requires |key| == len && 14 + len + |val| <= 256
    ensures Regular([SENTINEL, Entry(0, key, val)], len)
  {
  }

  lemma EmptyVisible()
    ensures Visible([]) == map[]
  {
  }

  /** Pending values of the same kind; the flag takes one more byte. */
  ghost predicate RegularPending(pending: map<Bytes, Bytes>, len: nat) {
    forall k :: k in pending ==> |k| == len && 13 + len + |pending[k]| <= 256
  }

  // ---- one key ----

  /** The map after one flagged update. */
  ghost function Changed1(m: map<Bytes, Bytes>, key: Bytes, flagged: Bytes): map<Bytes, Bytes> {
    if Unflag(flagged).Found? then m[key := Unflag(flagged).val] else m - {key}
  }

  /** The tree holds what it held before. */
  twostate predicate SameTree(tree: BTree)
    reads tree, tree.store
  {
    tree.root == old(tree.root) && tree.t == old(tree.t) && tree.h == old(tree.h) && unchanged(tree.store)
  }

  /** An update for which there is room in any tree of regular data. */
  ghost predicate RegularStep(s: seq<Entry>, key: Bytes, flagged: Bytes, len: nat) {
    Regular(s, len) && |key| == len && 13 + len + |flagged| <= 256
  }

  /** The update changes the map. */
  ghost predicate Modifies(m: map<Bytes, Bytes>, key: Bytes, flagged: Bytes) {
    !SameAt(m, Changed1(m, key, flagged), key)
  }

  /** The tree holds its new map, or nothing has happened. */
  twostate predicate Moved(tree: BTree, modified: bool)
    reads tree, tree.store, (if tree.store.base == null then {} else {tree.store.base})`file
  {
    && tree.Valid() && tree.store.ledger.start == old(tree.store.ledger.start)
    && Grows(old(tree.store.ledger.pages), tree.store.ledger.pages)
    && if modified then tree.root != 0 else SameTree(tree)
  }

  /** There is room for the update on every page on its way. */
  ghost predicate HasRoom(tree: BTree, key: Bytes, flagged: Bytes)
    reads tree
  {
    if Unflag(flagged).Found? then tree.RoomFor(key, Unflag(flagged).val) else TF.DeleteFits(tree.t, key)
  }

  /** The tree has no page room for pending entry `i`, with the earlier ones carried over to the map `m`. */
  ghost predicate StoppedAt(tree: BTree, m: map<Bytes, Bytes>, p: seq<Entry>, i: nat)
    requires i < |p|
    reads tree
  {
    tree.Contents() == Overlay(m, Visible(p[..i])) && !HasRoom(tree, p[i].key, p[i].val)
  }

  ghost predicate Stopped(tree: BTree, m: map<Bytes, Bytes>, p: seq<Entry>)
    reads tree
  {
    exists i :: 1 <= i < |p| && StoppedAt(tree, m, p, i)
  }

  /** How one pending update was applied; `Disagrees` is where the source's assertion fails. */
  datatype Applied = Fits(modified: bool) | Disagrees | Full

  /**
   * Apply one pending update. Whether it should modify anything is judged by the snapshot; that the
   * current tree agrees is what the source asserts.
   */
  method TransferOne(tree: BTree, snapshot: BTree, key: Bytes, flagged: Bytes, ghost len: nat) returns (res: Applied)
    requires tree.Valid() && snapshot.Readable()
    requires key != [] && |key| <= MAX_KEY && |flagged| <= MAX_VAL && FlagOK(flagged)
    modifies tree, tree.store`mem, tree.store`page, tree.store`free, tree.store`ledger
    ensures !res.Full? ==> Moved(tree, Modifies(old(tree.Contents()), key, flagged))
    ensures !res.Full? ==> tree.Contents() == Changed1(old(tree.Contents()), key, flagged)
    ensures !res.Full? ==> (res.Disagrees? <==> old(Modifies(snapshot.Contents(), key, flagged)) != Modifies(old(tree.Contents()), key, flagged))
    ensures res.Fits? ==> res.modified == old(Modifies(snapshot.Contents(), key, flagged))
    ensures res.Full? ==> tree.Contents() == old(tree.Contents()) && Modifies(tree.Contents(), key, flagged) && !HasRoom(tree, key, flagged)
    ensures RegularStep(old(tree.View()), key, flagged, len) ==> !res.Full? && Regular(tree.View(), len)
  {
    hide BTree.Valid, BTree.Readable, Visible, Flat, Grows, SmallCase, ShortSuccessor, Put, Remove, Regular;
    var oldVal, oldFound := snapshot.Get(key);
    var modified, changed, ok;
    if flagged[0] == FLAG_DELETED {
      modified := oldFound;
      ok, changed := DeleteOne(tree, key, len);
    } else {
      modified := !oldFound || oldVal != flagged[1..];
      ok, changed := UpdateOne(tree, key, flagged[1..], len);
    }
    res := if !ok then Full else if changed == modified then Fits(modified) else Disagrees;
  }

  method DeleteOne(tree: BTree, key: Bytes, ghost len: nat) returns (ok: bool, changed: bool)
    requires tree.Valid() && key != [] && |key| <= MAX_KEY
    modifies tree, tree.store`mem, tree.store`page, tree.store`free, tree.store`ledger
    ensures ok ==> changed == (key in old(tree.Contents())) && Moved(tree, changed)
    ensures ok ==> tree.Contents() == old(tree.Contents()) - {key}
    ensures !ok <==> key in old(tree.Contents()) && !TF.DeleteFits(old(tree.t), key)
    ensures !ok ==> tree.root == old(tree.root) && tree.t == old(tree.t) && tree.h == old(tree.h)
    ensures Regular(old(tree.View()), len) && |key| == len ==> ok && Regular(tree.View(), len)
  {
    hide BTree.Valid, Visible, Flat, Grows, ShortSuccessor, Remove, Regular, TF.DeleteFits, TF.Deleted;
    GrowsSelf(tree.store.ledger.pages);
    if Regular(tree.View(), len) && |key| == len {
      RegularRemove(tree.View(), key, len);
    }
    var res, prev := tree.Delete(key);
    if res.NoRoom? {
      return false, false;
    }
    ok, changed := true, res.changed;
  }

  method UpdateOne(tree: BTree, key: Bytes, val: Bytes, ghost len: nat) returns (ok: bool, changed: bool)
    requires tree.Valid() && key != [] && |key| <= MAX_KEY && |val| <= MAX_VAL
    modifies tree, tree.store`mem, tree.store`page, tree.store`free, tree.store`ledger
    ensures ok ==> changed == (At(old(tree.Contents()), key) != Found(val)) && Moved(tree, changed)
    ensures ok ==> tree.Contents() == old(tree.Contents())[key := val]
    ensures !ok <==> At(old(tree.Contents()), key) != Found(val) && !old(tree.RoomFor(key, val))
    ensures !ok ==> tree.root == old(tree.root) && tree.t == old(tree.t) && tree.h == old(tree.h)
    ensures Regular(old(tree.View()), len) && |key| == len && 14 + len + |val| <= 256 ==> ok && Regular(tree.View(), len)
  {
    hide BTree.Valid, Visible, Flat, Grows, SmallCase, Put, Regular, TF.UpdateFits, TF.Updated, SplitFits, TF.GrownOnly, EsSize;
    GrowsSelf(tree.store.ledger.pages);
    EmptyVisible();
    if Regular(tree.View(), len) && |key| == len && 14 + len + |val| <= 256 {
      RegularPut(tree.View(), key, val, len);
      RegularFirst(key, val, len);
    }
    var res, added, prev := tree.Update(key, val, Upsert);
    if res.NoRoom? {
      return false, false;
    }
    ok, changed := true, res.changed;
  }

  // ---- all keys ----

  /** The entry of the pending tree at position `i`, as the loop meets it. */
  lemma PendingEntry(t: Tree, h: nat, pages: map<nat, Node>, root: nat, i: nat)
    requires RootOK(pages, root, t, h) && 1 <= i < |Flat(t)|
    ensures Entered(Flat(t), i)
  {
    SentinelFirst(t, h, pages, root);
    FlatEntries(t, h);
    RootGood(pages, root, t, h);
    hide Flat, Good, Stored, RootOK, WF, Compare, LE, ToMap;
    assert EntryOK(Flat(t)[i]);
    SeqEntry(Flat(t), i);
  }

  ghost predicate Entered(s: seq<Entry>, i: nat)
    requires i < |s|
  {
    var e := s[i];
    && e.key != [] && |e.key| <= MAX_KEY && |e.val| <= MAX_VAL
    && e.key in Visible(s) && Visible(s)[e.key] == e.val
    && e.key !in Visible(s[..i])
    && Visible(s[..i + 1]) == Visible(s[..i])[e.key := e.val]
  }

  lemma SeqEntry(s: seq<Entry>, i: nat)
    requires Sorted(s) && 1 <= i < |s| && s[0].key == [] && EntryOK(s[i])
    ensures Entered(s, i)
  {
    hide ToMap, Lt;
    SeqPrefix(s, i);
    ToMapRepresents(s);
    assert Holds(s, ToMap(s), i);
    assert Lt(s[0].key, s[i].key);
    LtIrreflexive(s[0].key, s[i].key);
    KeyFresh(s, i);
    WithoutSentinel(ToMap(s[..i]), s[i].key, s[i].val);
  }

  lemma WithoutSentinel(m: map<Bytes, Bytes>, key: Bytes, val: Bytes)
    requires key != []
    ensures m[key := val] - {[]} == (m - {[]})[key := val]
  {
  }

  lemma SeqPrefix(s: seq<Entry>, i: nat)
    requires i < |s|
    ensures ToMap(s[..i + 1]) == ToMap(s[..i])[s[i].key := s[i].val]
  {
    assert s[..i + 1][..i] == s[..i];
  }

  lemma KeyFresh(s: seq<Entry>, i: nat)
    requires Sorted(s) && i < |s|
    ensures s[i].key !in ToMap(s[..i])
  {
    hide Compare, ToMap, Lt;
    ToMapRepresents(s[..i]);
    if s[i].key in ToMap(s[..i]) {
      assert Occurs(s[..i], s[i].key);
      var j :| 0 <= j < i && s[..i][j].key == s[i].key;
      LtIrreflexive(s[j].key, s[i].key);
      assert false;
    }
  }

  lemma {:induction false} FlatEntries(t: Tree, h: nat)
    requires WF(t, h)
    ensures forall i :: 0 <= i < |Flat(t)| ==> EntryOK(Flat(t)[i])
    decreases h, 1
  {
    if t.Inner? {
      KidEntries(t.kids, h);
    }
  }

  /** Every key of a tree is within the limit. */
  lemma ShortKeys(t: Tree, h: nat, pages: map<nat, Node>, root: nat)
    requires RootOK(pages, root, t, h)
    ensures forall k :: k in Visible(Flat(t)) ==> |k| <= MAX_KEY
  {
    FlatEntries(t, h);
    RootGood(pages, root, t, h);
    hide Flat, Good, WF, RootOK, ToMap, Stored;
    ToMapRepresents(Flat(t));
    forall k | k in Visible(Flat(t)) ensures |k| <= MAX_KEY {
      assert Occurs(Flat(t), k);
      var i :| 0 <= i < |Flat(t)| && Flat(t)[i].key == k;
      assert EntryOK(Flat(t)[i]);
    }
  }

  lemma {:induction false} KidEntries(kids: seq<Kid>, h: nat)
    requires h > 0 && forall i :: 0 <= i < |kids| ==> Good(kids[i].sub, h - 1)
    ensures forall i :: 0 <= i < |FlatKids(kids)| ==> EntryOK(FlatKids(kids)[i])
    decreases h, 0, |kids|
  {
    if kids != [] {
      FlatEntries(kids[0].sub, h - 1);
      KidEntries(kids[1..], h);
      hide Flat;
      var a, b := FlatKid(kids[0]), FlatKids(kids[1..]);
      assert FlatKids(kids) == a + b;
      forall i | 0 <= i < |a + b| ensures EntryOK((a + b)[i]) {
        assert i < |a| ==> (a + b)[i] == Flat(kids[0].sub)[i];
      }
    }
  }

  /** One more pending entry laid over the map. */
  lemma OverlayStep(m: map<Bytes, Bytes>, p: map<Bytes, Bytes>, key: Bytes, flagged: Bytes)
    requires key !in p
    ensures Overlay(m, p[key := flagged]) == Changed1(Overlay(m, p), key, flagged)
    ensures SameAt(m, Overlay(m, p), key)
  {
    hide Overlay;
    OverlayAt(m, p, key);
    forall k ensures At(Overlay(m, p[key := flagged]), k) == At(Changed1(Overlay(m, p), key, flagged), k) {
      OverlayAt(m, p[key := flagged], k);
      OverlayAt(m, p, k);
    }
    SameMaps(Overlay(m, p[key := flagged]), Changed1(Overlay(m, p), key, flagged));
  }

  /** Every difference is recorded, as a point, and nothing else. */
  ghost predicate RecordsDiff(writes: seq<KeyRange>, m: map<Bytes, Bytes>, m': map<Bytes, Bytes>) {
    && (forall r :: r in writes ==> exists k :: r == Point(k))
    && (forall k :: Point(k) in writes <==> !SameAt(m, m', k))
  }

  lemma RecordOne(writes: seq<KeyRange>, m: map<Bytes, Bytes>, m1: map<Bytes, Bytes>, key: Bytes, flagged: Bytes, modified: bool)
    requires RecordsDiff(writes, m, m1) && SameAt(m, m1, key)
    requires modified <==> !SameAt(m1, Changed1(m1, key, flagged), key)
    ensures RecordsDiff(if modified then writes + [Point(key)] else writes, m, Changed1(m1, key, flagged))
  {
    var m2 := Changed1(m1, key, flagged);
    var writes' := if modified then writes + [Point(key)] else writes;
    forall k ensures Point(k) in writes' <==> !SameAt(m, m2, k) {
      assert k != key ==> SameAt(m1, m2, k);
      assert Point(k) in writes' <==> Point(k) in writes || (modified && k == key);
    }
  }

  /** The pending values are well formed, and no other transaction has changed their keys. */
  ghost predicate Unconflicted(pending: map<Bytes, Bytes>, snap: map<Bytes, Bytes>, m: map<Bytes, Bytes>) {
    forall k :: k in pending ==> FlagOK(pending[k]) && SameAt(snap, m, k)
  }

  /** The cursor `it` stands on entry `i` of the pending tree. */
  ghost predicate Walking(it: BIter, tree: BTree, i: nat)
    reads it, tree
  {
    if tree.root == 0 then it.path == [] && it.pos == []
    else 1 <= i <= |Flat(tree.t)| && Good(tree.t, tree.h) && Pointing(tree.t, tree.h, it.path, it.pos, i)
  }

  lemma WalkValid(it: BIter, tree: BTree, i: nat)
    requires Walking(it, tree, i)
    ensures |it.path| == |it.pos|
    ensures it.Valid() <==> tree.root != 0 && i < |Flat(tree.t)|
  {
    hide Good, Pointing, Flat;
    if tree.root != 0 {
      CursorValid(it, tree.t, tree.h, i);
    }
  }

  lemma FirstTarget(t: Tree, h: nat, pages: map<nat, Node>, root: nat)
    requires RootOK(pages, root, t, h)
    ensures |Flat(t)| > 0 && LE(Flat(t), []) == 0 && Target(Flat(t), [], CmpGT) == 1
    ensures Visible(Flat(t)[..1]) == map[]
  {
    SentinelFirst(t, h, pages, root);
    RootGood(pages, root, t, h);
    hide Flat, Good, Stored, RootOK, LE, Sorted;
    OnlyAt(Flat(t), [], 0);
    OneVisible(Flat(t));
  }

  lemma OneVisible(s: seq<Entry>)
    requires s != [] && s[0].key == []
    ensures Visible(s[..1]) == map[]
  {
    assert s[..1] == [s[0]] && [s[0]][..0] == [];
    assert ToMap([s[0]]) == map[[] := s[0].val];
  }

  /** The first pending entry, if there is one. */
  method SeekFirst(pending: BTree) returns (iter: BIter)
    requires pending.Valid() && pending.Grown()
    ensures fresh(iter) && iter.store == pending.store && Walking(iter, pending, 1)
    ensures |iter.path| == |iter.pos|
  {
    hide Flat, Good, RootOK, PS.PageStore.Inv, BTree.Readable, Pointing, LE, Visible, Target, TF.GrownOnly, Turn;
    ValidReadable(pending);
    if pending.root != 0 {
      FirstTarget(pending.t, pending.h, pending.store.ledger.pages, pending.root);
      RootGood(pending.store.ledger.pages, pending.root, pending.t, pending.h);
      TurnInside(pending.t, pending.h, pending.store.ledger.pages, pending.root);
    }
    var ok;
    ok, iter := Seek(pending, [], CmpGT);
    WalkValid(iter, pending, 1);
  }

  /** A pending tree of three or more levels turns back to an entry behind the sentinel. */
  lemma TurnInside(t: Tree, h: nat, pages: map<nat, Node>, root: nat)
    requires RootOK(pages, root, t, h) && TF.GrownOnly(t, h)
    ensures h >= 2 ==> |Flat(t)| > 1 && 0 < Turn(t) < |Flat(t)|
  {
    SentinelFirst(t, h, pages, root);
    RootGood(pages, root, t, h);
    if h >= 2 {
      GoodInner(t, h);
      hide Flat, Good, Turn;
      TurnLate(t, h);
    }
  }

  /** Read the entry under the cursor. */
  method Entry1(iter: BIter, pending: BTree, ghost i: nat) returns (key: Bytes, flagged: Bytes)
    requires pending.Valid() && pending.root != 0 && Walking(iter, pending, i) && i < |Flat(pending.t)|
    ensures key == Flat(pending.t)[i].key && flagged == Flat(pending.t)[i].val && Entered(Flat(pending.t), i)
  {
    hide Flat, Good, RootOK, PS.PageStore.Inv, On, StartOf;
    PendingEntry(pending.t, pending.h, pending.store.ledger.pages, pending.root, i);
    key, flagged := iter.Deref(pending.t, pending.h);
  }

  /**
   * The next entry. In a tree of three or more levels the last entry is followed by the turn; the source does
   * not notice, the model does by the order of the keys.
   */
  method NextEntry(iter: BIter, pending: BTree, key: Bytes, ghost i: nat) returns (turned: bool)
    requires pending.Valid() && pending.Grown() && pending.root != 0 && iter.store == pending.store
    requires Walking(iter, pending, i) && i < |Flat(pending.t)| && key == Flat(pending.t)[i].key
    modifies iter
    ensures turned <==> i + 1 == |Flat(pending.t)| && pending.h >= 2
    ensures Walking(iter, pending, if turned then Turn(pending.t) else i + 1) && |iter.path| == |iter.pos|
  {
    hide Flat, Good, RootOK, PS.PageStore.Inv, PS.PageStore.Readable, PS.PageStore.Nodes, Pointing, Stored, Turn, TF.GrownOnly, Sorted, Lt, On, StartOf;
    ValidReadable(pending);
    RootGood(pending.store.ledger.pages, pending.root, pending.t, pending.h);
    TurnInside(pending.t, pending.h, pending.store.ledger.pages, pending.root);
    ghost var s := Flat(pending.t);
    ghost var deep := i + 1 == |s| && pending.h >= 2;
    ghost var i' := if deep then Turn(pending.t) else i + 1;
    iter.Next(pending.t, pending.h, i);
    WalkValid(iter, pending, i');
    turned := false;
    if iter.Valid() {
      var next, flagged := Entry1(iter, pending, i');
      KeysGrow(s, i, i');
      turned := !Lt(key, next);
    }
  }

  lemma KeysGrow(s: seq<Entry>, i: nat, j: nat)
    requires Sorted(s) && i < |s| && j < |s|
    ensures Lt(s[i].key, s[j].key) <==> i < j
  {
    hide Compare, Lt;
    if i < j {
      assert Lt(s[i].key, s[j].key);
    } else if j < i {
      assert Lt(s[j].key, s[i].key);
      LtNotGe(s[i].key, s[j].key);
      StrictlyBelow(s[j].key, s[i].key);
    } else if Lt(s[i].key, s[i].key) {
      LtIrreflexive(s[i].key, s[i].key);
      assert false;
    }
  }

  /**
   * How the loop of a commit ended. `AssertFails` and `Endless`: the pending tree has three or more levels, so
   * after its last entry the loop comes back to the turn; the first entry that modifies something is found
   * already applied, or if there is none the loop goes round forever. `NoPage`: a node overflowed.
   */
  datatype Transferred = Complete | NoPage | AssertFails | Endless

  /** Some entry from the turn on modifies the map. */
  ghost predicate Revisits(t: Tree, snap: map<Bytes, Bytes>) {
    exists i :: Turn(t) <= i < |Flat(t)| && Modifies(snap, Flat(t)[i].key, Flat(t)[i].val)
  }

  /** The loop of a commit: the pending entries in key order. */
  method TransferAll(tree: BTree, pending: BTree, snapshot: BTree, capture: bool, ghost len: nat)
    returns (res: Transferred, writes: seq<KeyRange>)
    requires tree.Valid() && pending.Valid() && pending.Grown() && snapshot.Readable()
    requires pending.store != tree.store && snapshot != tree && snapshot.store != tree.store
    requires Unconflicted(pending.Contents(), snapshot.Contents(), tree.Contents())
    modifies tree, tree.store`mem, tree.store`page, tree.store`free, tree.store`ledger
    ensures res.AssertFails? || res.Endless? <==> !res.NoPage? && pending.root != 0 && pending.h >= 2
    ensures res.AssertFails? ==> Revisits(pending.t, snapshot.Contents())
    ensures res.Endless? ==> !Revisits(pending.t, snapshot.Contents())
    ensures !res.NoPage? ==> tree.Valid() && tree.store.ledger.start == old(tree.store.ledger.start)
    ensures !res.NoPage? ==> Grows(old(tree.store.ledger.pages), tree.store.ledger.pages)
    ensures !res.NoPage? ==> tree.Contents() == Overlay(old(tree.Contents()), pending.Contents())
    ensures !res.NoPage? && capture ==> RecordsDiff(writes, old(tree.Contents()), tree.Contents())
    ensures !res.NoPage? && !capture ==> writes == []
    ensures !res.NoPage? && tree.Contents() == old(tree.Contents()) ==> SameTree(tree) && writes == []
    ensures !res.NoPage? && tree.root != old(tree.root) ==> tree.root != 0
    ensures res.NoPage? ==> Stopped(tree, old(tree.Contents()), pending.View())
    ensures Regular(old(tree.View()), len) && RegularPending(pending.Contents(), len) ==> !res.NoPage?
  {
    hide BTree.Valid, BTree.Readable, BIter.Valid, Visible, Flat, Grows, Overlay, SameAt, RecordsDiff, Walking, Entered, Regular,
      RegularPending, Changed1, FlagOK, Carried, Unconflicted, Turn, Revisits, TF.GrownOnly, Modifies, HasRoom, Stopped;
    ghost var m := tree.Contents();
    var iter := SeekFirst(pending);
    var full, turned;
    ghost var any;
    full, turned, writes, any := CarryOver(tree, pending, snapshot, capture, iter, len);
    if full {
      return NoPage, writes;
    }
    CarriedEnd(m, pending.View(), |pending.View()|, tree.Contents(), writes, capture, any);
    if !turned {
      return Complete, writes;
    }
    FlagsKept(pending.Contents(), snapshot.Contents(), m);
    res := Revisit(tree, pending, snapshot, iter, m, len);
  }

  lemma FlagsKept(pending: map<Bytes, Bytes>, snap: map<Bytes, Bytes>, m: map<Bytes, Bytes>)
    requires Unconflicted(pending, snap, m)
    ensures forall k :: k in pending ==> FlagOK(pending[k])
  {
  }

  /** The pending entries once, up to the end or to the turn of a deep tree. */
  method CarryOver(tree: BTree, pending: BTree, snapshot: BTree, capture: bool, iter: BIter, ghost len: nat)
    returns (full: bool, turned: bool, writes: seq<KeyRange>, ghost any: bool)
    requires tree.Valid() && pending.Valid() && pending.Grown() && snapshot.Readable()
    requires pending.store != tree.store && snapshot != tree && snapshot.store != tree.store
    requires Unconflicted(pending.Contents(), snapshot.Contents(), tree.Contents())
    requires iter.store == pending.store && Walking(iter, pending, 1) && |iter.path| == |iter.pos|
    modifies tree, tree.store`mem, tree.store`page, tree.store`free, tree.store`ledger, iter
    ensures !full ==> Moved(tree, any)
    ensures !full ==> Carried(old(tree.Contents()), pending.View(), |pending.View()|, tree.Contents(), writes, capture, any)
    ensures !full ==> (turned <==> pending.root != 0 && pending.h >= 2)
    ensures !full && turned ==> Walking(iter, pending, Turn(pending.t))
    ensures full ==> Stopped(tree, old(tree.Contents()), pending.View())
    ensures Regular(old(tree.View()), len) && RegularPending(pending.Contents(), len) ==> !full
  {
    hide BTree.Valid, BTree.Readable, BIter.Valid, Visible, Flat, Grows, Overlay, SameAt, RecordsDiff, Walking, Entered, Regular,
      RegularPending, Changed1, FlagOK, Carried, Unconflicted, Turn, Revisits, TF.GrownOnly, Modifies, HasRoom, Stopped;
    ghost var m, p, pages0 := tree.Contents(), pending.View(), tree.store.ledger.pages;
    ghost var regular := Regular(tree.View(), len) && RegularPending(pending.Contents(), len);
    ghost var i: nat, n: nat := 1, 1;
    full, turned, writes, any := false, false, [], false;
    GrowsSelf(pages0);
    CarriedStart(m, pending, capture);
    WalkValid(iter, pending, i);
    if pending.root != 0 && pending.h >= 2 {
      InsideTurn(pending);
    }
    while iter.Valid() && !turned
      invariant tree.Valid() && pending.Valid() && pending.Grown() && snapshot.Readable() && Walking(iter, pending, i)
      invariant iter.store == pending.store && |iter.path| == |iter.pos|
      invariant tree.store.ledger.start == old(tree.store.ledger.start) && Grows(pages0, tree.store.ledger.pages)
      invariant n <= |p| + 1 && Carried(m, p, n, tree.Contents(), writes, capture, any)
      invariant if turned then pending.root != 0 && pending.h >= 2 && n == |p| && i == Turn(pending.t) else i == n
      invariant !turned && pending.root != 0 && pending.h >= 2 ==> n < |p|
      invariant if any then tree.root != 0 else SameTree(tree)
      invariant regular ==> Regular(tree.View(), len)
      decreases if turned then 0 else |p| + 1 - n
    {
      WalkValid(iter, pending, i);
      var key, flagged := Entry1(iter, pending, i);
      ghost var m1, pages1 := tree.Contents(), tree.store.ledger.pages;
      BeforeStep(m, p, i, snapshot.Contents(), m1, writes, capture, any);
      var applied := TransferOne(tree, snapshot, key, flagged, len);
      if applied.Full? {
        full := true;
        StopsHere(tree, m, p, i, m1, writes, capture, any);
        return;
      }
      GrowsChain(pages0, pages1, tree.store.ledger.pages);
      AfterStep(m, p, i, m1, writes, capture, any, applied.modified);
      if applied.modified && capture {
        writes := writes + [Point(key)];
      }
      any := any || applied.modified;
      turned := NextEntry(iter, pending, key, i);
      n := i + 1;
      i := if turned then Turn(pending.t) else i + 1;
      WalkValid(iter, pending, i);
    }
    WalkValid(iter, pending, i);
    CarriedAll(m, p, n, tree.Contents(), writes, capture, any);
  }

  /** The loop of a commit goes on from the turn of a deep pending tree, with everything already applied. */
  method Revisit(tree: BTree, pending: BTree, snapshot: BTree, iter: BIter, ghost m: map<Bytes, Bytes>, ghost len: nat)
    returns (res: Transferred)
    requires tree.Valid() && pending.Valid() && pending.Grown() && snapshot.Readable()
    requires pending.root != 0 && pending.h >= 2 && iter.store == pending.store
    requires Walking(iter, pending, Turn(pending.t))
    requires pending.store != tree.store && snapshot != tree && snapshot.store != tree.store
    requires tree.Contents() == Overlay(m, pending.Contents()) && forall k :: k in pending.Contents() ==> FlagOK(pending.Contents()[k])
    modifies tree, tree.store`mem, tree.store`page, tree.store`free, tree.store`ledger, iter
    ensures res == if Revisits(pending.t, snapshot.Contents()) then AssertFails else Endless
    ensures tree.Valid() && SameTree(tree)
  {
    hide BTree.Valid, BTree.Readable, BIter.Valid, Visible, Flat, Overlay, SameAt, Walking, Entered, Changed1, FlagOK, Turn,
      TF.GrownOnly, Modifies, Grows;
    ghost var p := pending.View();
    ghost var i := Turn(pending.t);
    InsideTurn(pending);
    var turned := false;
    while !turned
      invariant tree.Valid() && pending.Valid() && pending.Grown() && snapshot.Readable() && SameTree(tree)
      invariant iter.store == pending.store && Turn(pending.t) <= i <= |p|
      invariant !turned ==> i < |p| && Walking(iter, pending, i)
      invariant turned ==> i == |p|
      invariant forall k :: Turn(pending.t) <= k < i ==> !Modifies(snapshot.Contents(), p[k].key, p[k].val)
      decreases |p| - i
    {
      var key, flagged := Entry1(iter, pending, i);
      AlreadyApplied(m, p, i);
      var applied := TransferOne(tree, snapshot, key, flagged, len);
      if applied.Disagrees? {
        return AssertFails;
      }
      turned := NextEntry(iter, pending, key, i);
      i := i + 1;
    }
    res := Endless;
  }

  lemma InsideTurn(pending: BTree)
    requires pending.Valid() && pending.Grown() && pending.root != 0 && pending.h >= 2
    ensures 0 < Turn(pending.t) < |pending.View()|
  {
    hide RootOK, TF.GrownOnly, Turn, PS.PageStore.Inv, Flat;
    TurnInside(pending.t, pending.h, pending.store.ledger.pages, pending.root);
  }

  /** An entry that has been applied does not modify anything the second time. */
  lemma AlreadyApplied(m: map<Bytes, Bytes>, p: seq<Entry>, i: nat)
    requires i < |p| && Entered(p, i) && forall k :: k in Visible(p) ==> FlagOK(Visible(p)[k])
    ensures !Modifies(Overlay(m, Visible(p)), p[i].key, p[i].val)
    ensures p[i].key != [] && |p[i].key| <= MAX_KEY && |p[i].val| <= MAX_VAL && FlagOK(p[i].val)
  {
    hide Visible, Overlay;
    OverlayAt(m, Visible(p), p[i].key);
  }

  /** The first `i` pending entries (the sentinel is one of them) have been carried over to the map `m`. */
  ghost predicate Carried(m: map<Bytes, Bytes>, p: seq<Entry>, i: nat, now: map<Bytes, Bytes>,
                          writes: seq<KeyRange>, capture: bool, any: bool) {
    var q := Visible(if i <= |p| then p[..i] else p);
    && now == Overlay(m, q)
    && (if capture then RecordsDiff(writes, m, now) else writes == [])
    && (if any then exists k :: k in q && !SameAt(m, now, k) else writes == [])
  }

  lemma CarriedStart(m: map<Bytes, Bytes>, pending: BTree, capture: bool)
    requires pending.Valid()
    ensures Carried(m, pending.View(), 1, m, [], capture, false)
  {
    EmptyVisible();
    hide RootOK, PS.PageStore.Inv, Flat, Visible, LE;
    if pending.root != 0 {
      FirstTarget(pending.t, pending.h, pending.store.ledger.pages, pending.root);
    }
    OverlayNothing(m);
  }

  lemma StopsHere(tree: BTree, m: map<Bytes, Bytes>, p: seq<Entry>, i: nat, now: map<Bytes, Bytes>, writes: seq<KeyRange>, capture: bool, any: bool)
    requires 1 <= i < |p| && Carried(m, p, i, now, writes, capture, any) && tree.Contents() == now
    requires !HasRoom(tree, p[i].key, p[i].val)
    ensures Stopped(tree, m, p)
  {
    hide HasRoom, Visible, Overlay;
    assert StoppedAt(tree, m, p, i);
  }

  lemma CarriedAll(m: map<Bytes, Bytes>, p: seq<Entry>, i: nat, now: map<Bytes, Bytes>, writes: seq<KeyRange>, capture: bool, any: bool)
    requires Carried(m, p, i, now, writes, capture, any) && i >= |p|
    ensures Carried(m, p, |p|, now, writes, capture, any)
  {
    hide Visible, Overlay, RecordsDiff;
    assert p[..|p|] == p;
  }

  lemma CarriedEnd(m: map<Bytes, Bytes>, p: seq<Entry>, i: nat, now: map<Bytes, Bytes>, writes: seq<KeyRange>, capture: bool, any: bool)
    requires Carried(m, p, i, now, writes, capture, any) && i >= |p|
    ensures now == Overlay(m, Visible(p))
    ensures if capture then RecordsDiff(writes, m, now) else writes == []
    ensures if any then now != m else writes == []
  {
    hide Visible, Overlay, RecordsDiff;
    assert p[..|p|] == p;
  }

  lemma OverlayNothing(m: map<Bytes, Bytes>)
    ensures Overlay(m, map[]) == m
  {
  }

  lemma BeforeStep(m: map<Bytes, Bytes>, p: seq<Entry>, i: nat, snap: map<Bytes, Bytes>, now: map<Bytes, Bytes>,
                   writes: seq<KeyRange>, capture: bool, any: bool)
    requires i < |p| && Entered(p, i) && Carried(m, p, i, now, writes, capture, any)
    requires Unconflicted(Visible(p), snap, m)
    ensures Modifies(snap, p[i].key, p[i].val) == Modifies(now, p[i].key, p[i].val)
    ensures p[i].key != [] && |p[i].key| <= MAX_KEY && |p[i].val| <= MAX_VAL && FlagOK(p[i].val)
    ensures forall len: nat :: RegularPending(Visible(p), len) ==> |p[i].key| == len && 13 + len + |p[i].val| <= 256
  {
    hide Visible, Overlay;
    OverlayStep(m, Visible(p[..i]), p[i].key, p[i].val);
  }

  /** A step of the loop is a step of the overlay, and leaves earlier differences alone. */
  lemma AfterStep(m: map<Bytes, Bytes>, p: seq<Entry>, i: nat, m1: map<Bytes, Bytes>, writes: seq<KeyRange>, capture: bool,
                  any: bool, modified: bool)
    requires i < |p| && Entered(p, i) && Carried(m, p, i, m1, writes, capture, any)
    requires modified <==> Modifies(m1, p[i].key, p[i].val)
    ensures Carried(m, p, i + 1, Changed1(m1, p[i].key, p[i].val),
                    if modified && capture then writes + [Point(p[i].key)] else writes, capture, any || modified)
  {
    hide Visible, Overlay, RecordsDiff;
    var key, m2 := p[i].key, Changed1(m1, p[i].key, p[i].val);
    OverlayStep(m, Visible(p[..i]), key, p[i].val);
    if capture {
      RecordOne(writes, m, m1, key, p[i].val, modified);
    }
    if any {
      var k :| k in Visible(p[..i]) && !SameAt(m, m1, k);
      assert k in Visible(p[..i + 1]) && !SameAt(m, m2, k);
    } else if modified {
      assert key in Visible(p[..i + 1]) && !SameAt(m, m2, key);
    }
  }
}
