/** A transaction: a snapshot, a pending tree over it, and the key ranges it depends on. */
module Transactions {
  import opened Bytes
  import opened Seqs
  import opened SortedSeq
  import opened Nodes
  import opened Trees
  import opened TreeOps
  import opened TreeUpdates
  import opened BTrees
  import opened Snapshots
  import opened Conflicts
  import opened Serial
  import opened Cursors
  import opened Positions
  import opened Merged
  import opened CombinedCursor
  import opened Slices
  import PageState
  import TF = TreeFits
  import Transfer
  import Readers
  import PageSteps
  import PS = PageStore

  /**
   * What an update or deletion reports. `PageLimit`: the pending tree ran out of page space. `Crashed`: the
   * flag of an empty value was asked for.
   */
  datatype WriteOut = Updated | NotUpdated | DuplicateKey | KeyLimit | ValueLimit | PageLimit | Crashed

  /** For reverting the updates of one statement. */
  datatype TXSaved = TXSaved(root: nat, deps: Slice)

  /** What a save point stands for. */
  datatype Mark = Mark(t: Tree, h: nat, ops: seq<Op>)

  /** What an update of the empty key reports; in a snapshot that is not empty it is found, with an empty value. */
  function SentinelUpdate(stored: bool, val: Bytes, mode: Mode): WriteOut {
    if mode == InsertOnly && stored then DuplicateKey
    else if if stored then val == [] else mode == UpdateOnly then NotUpdated
    else KeyLimit
  }

  class KVTX {
    const snapshot: BTree
    const version: nat
    const pending: BTree  // updates, in memory
    var arrays: seq<Backing>  // the backing arrays of `reads` and of the saved copies of it
    var deps: Slice  // ranges of keys that the transaction depends on
    var updateAttempted: bool
    var done: bool
    ghost const snap: Snap
    ghost var ops: seq<Op>

    constructor (version: nat, snapshot: BTree, ghost snap: Snap)
      requires snapshot.root == snap.root && snapshot.t == snap.t && snapshot.h == snap.h && snapshot.store.base != null
      ensures Own() && !done && this.version == version && this.snapshot == snapshot && this.snap == snap
      ensures ops == [] && Deps() == [] && fresh(pending) && fresh(pending.store) && Sees() == SnapMap(snap)
    {
      var store := new PS.PageStore.InMemory();
      this.pending := new BTree(store);
      this.version, this.snapshot, this.snap := version, snapshot, snap;
      arrays, deps, updateAttempted, done, ops := [Backing(0, [])], Slice(0, 0), false, false, [];
    }

    ghost predicate Own()
      reads this`arrays, this`deps, this`ops, this`updateAttempted, pending, pending.store, snapshot
    {
      && pending.Valid() && pending.Grown() && pending.store.inMemory && snapshot != pending && snapshot.store != pending.store
      && snapshot.root == snap.root && snapshot.t == snap.t && snapshot.h == snap.h && snapshot.store.base != null
      && pending.Contents() == PendingOf(ops)
      && SliceOK(arrays, deps) && LogOK(SnapMap(snap), ops, Deps(), updateAttempted)
    }

    /** The ranges that the transaction depends on. */
    function Deps(): seq<KeyRange>
      reads this`arrays, this`deps
    {
      RangesOf(arrays, deps)
    }

    /** The map this transaction works on: its snapshot with its own updates. */
    ghost function Sees(): map<Bytes, Bytes>
      reads this`ops
    {
      Run(SnapMap(snap), ops)
    }

    /** A save point of this transaction; its dependencies may have been overwritten. */
    ghost predicate Known(saved: TXSaved, mark: Mark)
      reads this`arrays, pending.store`ledger
    {
      KnownIn(pending.store.ledger.pages, arrays, saved, mark)
    }

    /** The save point still has the dependencies of its operations: it can be reverted to. */
    ghost predicate CanRevert(saved: TXSaved, mark: Mark)
      reads this`arrays, this`updateAttempted, pending.store`ledger
    {
      Known(saved, mark) && LogOK(SnapMap(snap), mark.ops, RangesOf(arrays, saved.deps), updateAttempted)
    }

    /** It will stay so: the transaction has not been reverted to an earlier save point in the same array. */
    ghost predicate Live(saved: TXSaved, mark: Mark)
      reads this`arrays, this`deps, this`updateAttempted, pending.store`ledger
    {
      LiveIn(pending.store.ledger.pages, SnapMap(snap), updateAttempted, arrays, deps, saved, mark)
    }

    /** Append a dependency range; a new backing array has some spare room. */
    method Depend(r: KeyRange) returns (ghost cap: nat)
      requires SliceOK(arrays, deps)
      modifies this`arrays, this`deps
      ensures cap > old(deps.len) && SliceOK(arrays, deps)
      ensures arrays == Appended(old(arrays), old(deps), r, cap) && deps == Longer(old(arrays), old(deps))
      ensures Deps() == old(Deps()) + [r]
    {
      var len := deps.len;
      var room: nat :| room > len;
      cap := room;
      AppendOK(arrays, deps, r, room);
      arrays, deps := Appended(arrays, deps, r, room), Longer(arrays, deps);
    }

    /** Save the state before a statement. */
    method Save() returns (saved: TXSaved, ghost mark: Mark)
      requires Own()
      ensures Live(saved, mark) && mark.ops == ops
      ensures saved.root == pending.root && saved.deps == deps
    {
      hide Visible, RootOK, PS.PageStore.Inv, LogOK, TF.GrownOnly;
      saved, mark := TXSaved(pending.root, deps), Mark(pending.t, pending.h, ops);
    }

    /**
     * Undo everything since the save point. The dependencies are what the saved slice reads now; if they
     * still cover the save point's operations, the transaction is as it was. Save points that reach
     * further than this one in the same array will be overwritten by the next dependencies.
     */
    method Revert(saved: TXSaved, ghost mark: Mark)
      requires Own() && Known(saved, mark)
      modifies this`deps, this`ops, pending, pending.store`ledger
      ensures ops == mark.ops && Sees() == Run(SnapMap(snap), mark.ops) && Deps() == RangesOf(arrays, saved.deps)
      ensures Own() <==> old(CanRevert(saved, mark))
      ensures forall s, m :: old(Known(s, m)) ==> Known(s, m)
      ensures forall s, m :: old(CanRevert(s, m)) ==> CanRevert(s, m) && (NotAhead(s.deps, saved.deps) ==> Live(s, m))
    {
      hide Visible, RootOK, LogOK, Flat, Pages, PageState.Core, PageSteps.Attached, TF.GrownOnly;
      ghost var sn := Snap(saved.root, mark.t, mark.h);
      PagesStored(pending.store.ledger.pages, sn);
      pending.root := saved.root;
      deps := saved.deps;
      pending.t, pending.h, ops := mark.t, mark.h, mark.ops;
      pending.store.ledger := pending.store.ledger.(inUse := SnapPages(sn));
      hide KnownIn;
      assert pending.store.Inv();
    }

    /**
     * Point query: pending updates first, then the snapshot. The empty key is the sentinel: `ok` is false
     * where its value is asked for a flag, and otherwise it is found in every snapshot that is not empty.
     */
    method Get(key: Bytes) returns (ok: bool, answer: Lookup)
      requires Own() && snapshot.Readable()
      modifies this`arrays, this`deps, this`ops
      ensures Own()
      ensures ok <==> key != [] || pending.root == 0
      ensures key != [] ==> answer == At(old(Sees()), key) && ops == old(ops) + [ReadKey(key, answer)]
      ensures key == [] ==> ops == old(ops) && (ok ==> answer == if snapshot.root != 0 then Found([]) else Missing)
      ensures Sees() == old(Sees()) && Deps() == old(Deps()) + [Point(key)]
      ensures KeepsMarks(this)
    {
      hide Visible, RootOK, LogOK, Flat, Pages, PS.PageStore.Inv, PS.PageStore.Readable, PS.PageStore.Nodes, KnownIn, LiveIn,
        PendingOf, Run, Legal, BTree.Readable, TF.GrownOnly, Appended, RangesOf;
      ghost var cap := Depend(Point(key));
      MarksAppend(pending.store.ledger.pages, SnapMap(snap), updateAttempted, old(arrays), old(deps), Point(key), cap);
      RunAt(SnapMap(snap), ops, key);
      PendingFlags(ops);
      ValidReadable(pending);
      var val, found := pending.Get(key);
      ok, answer := true, Missing;
      LogDepend(SnapMap(snap), ops, old(Deps()), updateAttempted, Point(key));
      if found && val == [] {
        return false, Missing;
      }
      if found && val[0] == FLAG_UPDATED {
        answer := Found(val[1..]);
      } else if !found {
        var old_, there := snapshot.Get(key);
        answer := if there then Found(old_) else Missing;
      }
      if key != [] {
        LogRead(SnapMap(snap), ops, old(Deps()), updateAttempted, ReadKey(key, answer));
        ops := ops + [ReadKey(key, answer)];
      }
    }

    /** Put one flagged value into the pending tree. */
    method PutPending(key: Bytes, flagged: Bytes, ghost op: Op) returns (out: WriteOut)
      requires Own() && updateAttempted && Point(key) in Deps()
      requires op.SetKey? || op.DelKey?
      requires op.key == key && flagged == if op.SetKey? then [FLAG_UPDATED] + op.val else [FLAG_DELETED]
      requires key in PendingOf(ops) ==> PendingOf(ops)[key] != flagged
      modifies this`ops, pending, pending.store`mem, pending.store`page, pending.store`free, pending.store`ledger
      ensures out == Updated || out == KeyLimit || out == ValueLimit || out == PageLimit
      ensures out != PageLimit ==> Own()
      ensures out != PageLimit ==> KeepsMarks(this)
      ensures out == KeyLimit <==> key == [] || |key| > MAX_KEY
      ensures out == ValueLimit <==> out != KeyLimit && |flagged| > MAX_VAL
      ensures out == PageLimit <==> out != KeyLimit && out != ValueLimit && !old(pending.RoomFor(key, flagged))
      ensures out == PageLimit ==> !pending.RoomFor(key, flagged)
      ensures out == PageLimit ==> !SmallCase(old(pending.View()), key, flagged)
      ensures ops == if out == Updated then old(ops) + [op] else old(ops)
      ensures out == Updated ==> Sees() == Effect(old(Sees()), op)
    {
      hide Visible, RootOK, LogOK, Flat, Pages, PS.PageStore.Inv, KnownIn, LiveIn, PendingOf, Run, Grows, SmallCase, Overlaps, TF.GrownOnly,
        TF.UpdateFits, TF.Updated, SplitFits, RangesOf, EsSize;
      ghost var pages := pending.store.ledger.pages;
      GrowsSelf(pages);
      MarksKept(pages, pages, SnapMap(snap), true, true, arrays, deps);
      LogWrite(SnapMap(snap), ops, Deps(), op);
      var res, added, prev := pending.Update(key, flagged, Upsert);
      if res.BadKey? {
        return KeyLimit;
      } else if res.BadValue? {
        return ValueLimit;
      } else if res.NoRoom? {
        return PageLimit;
      }
      assert res.changed;
      MarksKept(pages, pending.store.ledger.pages, SnapMap(snap), true, true, arrays, deps);
      ops := ops + [op];
      out := WriteOut.Updated;
    }

    /** Insert or update one key, as a pending update. */
    method Update(key: Bytes, val: Bytes, mode: Mode) returns (out: WriteOut, added: bool, prev: Bytes)
      requires Own() && snapshot.Readable()
      modifies this`arrays, this`deps, this`ops, this`updateAttempted
      modifies pending, pending.store`mem, pending.store`page, pending.store`free, pending.store`ledger
      ensures updateAttempted && Deps() == old(Deps()) + [Point(key)]
      ensures out != PageLimit ==> Own()
      ensures out != PageLimit ==> KeepsMarks(this)
      ensures out == Crashed <==> key == [] && old(pending.root) != 0
      ensures key == [] && out != Crashed ==>
                out == SentinelUpdate(snapshot.root != 0, val, mode)
      ensures key != [] ==> (out == DuplicateKey <==> mode == InsertOnly && key in old(Sees()))
      ensures key != [] ==>
                (out == NotUpdated <==>
                 out != DuplicateKey && (At(old(Sees()), key) == Found(val) || (key !in old(Sees()) && mode == UpdateOnly)))
      ensures out == KeyLimit ==> key == [] || |key| > MAX_KEY
      ensures out == ValueLimit ==> |key| <= MAX_KEY && |val| >= MAX_VAL
      ensures out == PageLimit || out == Updated ==>
                0 < |key| <= MAX_KEY && |val| < MAX_VAL && (out == Updated <==> old(pending.RoomFor(key, [FLAG_UPDATED] + val)))
      ensures out == PageLimit ==> !pending.RoomFor(key, [FLAG_UPDATED] + val)
      ensures out == PageLimit ==> !SmallCase(old(pending.View()), key, [FLAG_UPDATED] + val)
      ensures out == Updated ==> Sees() == old(Sees())[key := val]
      ensures out == Updated ==> At(old(Sees()), key) == if added then Missing else Found(prev)
      ensures out != Updated && out != PageLimit ==> Sees() == old(Sees())
      ensures PendingOf(ops) == if out == Updated then old(PendingOf(ops))[key := [FLAG_UPDATED] + val] else old(PendingOf(ops))
    {
      hide Visible, RootOK, LogOK, Flat, Pages, PS.PageStore.Inv, PS.PageStore.Readable, PS.PageStore.Nodes, KnownIn,
        PendingOf, Run, BTree.Readable, Grows, SmallCase, TF.GrownOnly, TF.UpdateFits, TF.Updated, SplitFits, RangesOf, KVTX.Live, KVTX.Known;
      added, prev := false, [];
      var ok, cur := GetToWrite(key);
      if !ok {
        return Crashed, added, prev;
      }
      if mode == InsertOnly && cur.Found? {
        return DuplicateKey, added, prev;
      }
      if (mode == UpdateOnly && cur.Missing?) || (cur.Found? && cur.val == val) {
        return NotUpdated, added, prev;
      }
      added := cur.Missing?;
      if cur.Found? {
        prev := cur.val;
      }
      NeverPending(pending, ops);
      if key != [] {
        Flagged(SnapMap(snap), ops, SetKey(key, val));
      }
      ghost var ops1 := ops;
      out := PutPending(key, [FLAG_UPDATED] + val, SetKey(key, val));
      WriteLeaves(ops1, SetKey(key, val));
    }

    /** Delete one key, as a pending update. */
    method Del(key: Bytes) returns (out: WriteOut, prev: Bytes)
      requires Own() && snapshot.Readable()
      modifies this`arrays, this`deps, this`ops, this`updateAttempted
      modifies pending, pending.store`mem, pending.store`page, pending.store`free, pending.store`ledger
      ensures updateAttempted && Deps() == old(Deps()) + [Point(key)]
      ensures out != PageLimit ==> Own()
      ensures out != PageLimit ==> KeepsMarks(this)
      ensures out == Crashed <==> key == [] && old(pending.root) != 0
      ensures key == [] && out != Crashed ==> out == if snapshot.root != 0 then KeyLimit else NotUpdated
      ensures out != DuplicateKey && out != ValueLimit && (key != [] ==> (out == NotUpdated <==> key !in old(Sees())))
      ensures out == KeyLimit ==> key == []
      ensures out == PageLimit || out == Updated ==>
                0 < |key| <= MAX_KEY && (out == Updated <==> old(pending.RoomFor(key, [FLAG_DELETED])))
      ensures out == PageLimit ==> !pending.RoomFor(key, [FLAG_DELETED])
      ensures out == PageLimit ==> !SmallCase(old(pending.View()), key, [FLAG_DELETED])
      ensures out == Updated ==> Sees() == old(Sees()) - {key} && At(old(Sees()), key) == Found(prev)
      ensures out != Updated && out != PageLimit ==> Sees() == old(Sees())
      ensures PendingOf(ops) == if out == Updated then old(PendingOf(ops))[key := [FLAG_DELETED]] else old(PendingOf(ops))
    {
      hide Visible, RootOK, LogOK, Flat, Pages, PS.PageStore.Inv, PS.PageStore.Readable, PS.PageStore.Nodes, KnownIn,
        PendingOf, Run, BTree.Readable, Grows, SmallCase, TF.GrownOnly, TF.UpdateFits, TF.Updated, SplitFits, RangesOf, KVTX.Live, KVTX.Known;
      prev := [];
      KeysShort();
      var ok, cur := GetToWrite(key);
      if !ok {
        return Crashed, prev;
      }
      if cur.Missing? {
        return NotUpdated, prev;
      }
      prev := cur.val;
      NeverPending(pending, ops);
      if key != [] {
        Flagged(SnapMap(snap), ops, DelKey(key));
      }
      ghost var ops1 := ops;
      out := PutPending(key, [FLAG_DELETED], DelKey(key));
      WriteLeaves(ops1, DelKey(key));
    }

    /** The point query at the start of an update; from here on the transaction is checked for conflicts. */
    method GetToWrite(key: Bytes) returns (ok: bool, answer: Lookup)
      requires Own() && snapshot.Readable()
      modifies this`arrays, this`deps, this`ops, this`updateAttempted
      ensures Own() && updateAttempted && Deps() == old(Deps()) + [Point(key)] && Sees() == old(Sees())
      ensures PendingOf(ops) == old(PendingOf(ops))
      ensures ok <==> key != [] || pending.root == 0
      ensures key != [] ==> answer == At(old(Sees()), key)
      ensures key == [] && ok ==> answer == if snapshot.root != 0 then Found([]) else Missing
      ensures KeepsMarks(this)
    {
      hide Visible, RootOK, LogOK, Flat, Pages, PS.PageStore.Inv, PS.PageStore.Readable, PS.PageStore.Nodes, KnownIn, LiveIn,
        PendingOf, Run, BTree.Readable, Grows, SmallCase, TF.GrownOnly, RangesOf;
      LogAttempt(SnapMap(snap), ops, Deps(), updateAttempted);
      GrowsSelf(pending.store.ledger.pages);
      MarksKept(pending.store.ledger.pages, pending.store.ledger.pages, SnapMap(snap), updateAttempted, true, arrays, deps);
      updateAttempted := true;
      ok, answer := Get(key);
      ReadLeaves(old(ops), ReadKey(key, answer));
    }

    /** Every key that the transaction sees is within the limit. */
    lemma KeysShort()
      requires Own() && snapshot.Readable()
      ensures forall k :: k in Sees() ==> |k| <= MAX_KEY
    {
      hide RootOK, LogOK, Flat, PS.PageStore.Inv, PS.PageStore.Readable, PS.PageStore.Nodes, PendingOf, Visible, TF.GrownOnly, Run;
      if snapshot.root != 0 {
        Transfer.ShortKeys(snapshot.t, snapshot.h, snapshot.store.Nodes(), snapshot.root);
      }
      if pending.root != 0 {
        Transfer.ShortKeys(pending.t, pending.h, pending.store.ledger.pages, pending.root);
      }
      Transfer.EmptyVisible();
      RunIsOverlay(SnapMap(snap), ops);
    }

    /**
     * A transaction whose written keys, with 14 bytes more for each, take at most 4078 bytes has a pending tree
     * of at most two levels.
     */
    lemma Shallow()
      requires Own() && HEADER + 14 + WriteSpace(ops) <= PAGE
      ensures pending.root != 0 ==> pending.h < 2
    {
      hide RootOK, LogOK, Flat, PS.PageStore.Inv, PendingOf, WriteSpace, TF.KeySpace, Sorted;
      if pending.root != 0 {
        RootGood(pending.store.ledger.pages, pending.root, pending.t, pending.h);
        SentinelFirst(pending.t, pending.h, pending.store.ledger.pages, pending.root);
        ToMapRepresents(pending.View());
        forall i | 0 <= i < |pending.View()| ensures pending.View()[i].key == [] || pending.View()[i].key in PendingOf(ops) {
          assert Holds(pending.View(), ToMap(pending.View()), i);
        }
        PendingSpace(pending.View(), ops);
      }
    }

    /**
     * A transaction that has pending values for more than n * n keys of at least `len` bytes, where n separators with
     * such keys do not fit a page, has a pending tree of at least three levels.
     */
    lemma Deep(len: nat, n: nat)
      requires Own() && n >= 1 && (14 + len) * n > PAGE - HEADER
      requires |PendingOf(ops)| > n * n && forall k :: k in PendingOf(ops) ==> |k| >= len
      ensures pending.root != 0 && pending.h >= 2
    {
      hide RootOK, LogOK, Flat, PS.PageStore.Inv, PendingOf, Sorted, Good, Visible, TF.GrownOnly;
      MapSize(pending.View());
      assert pending.View() != [];
      RootGood(pending.store.ledger.pages, pending.root, pending.t, pending.h);
      SentinelFirst(pending.t, pending.h, pending.store.ledger.pages, pending.root);
      forall e | e in pending.View() ensures e.key == [] || |e.key| >= len {
        var i :| 0 <= i < |pending.View()| && pending.View()[i] == e;
        ViewKeys(pending.View(), i);
      }
      if pending.h < 2 {
        TwoLevels(pending.t, pending.h, len, n);
      }
    }

    /**
     * Range query over the pending updates and the snapshot, from `key1` in the direction of `cmp1` up to
     * `key2`. `ok` is false where a seek past the last entry of a deep tree fails its assertion.
     */
    method Seek(key1: Bytes, cmp1: Cmp, key2: Bytes, cmp2: Cmp) returns (ok: bool, iter: CombinedIter)
      requires Own() && snapshot.Readable() && Upward(cmp1) != Upward(cmp2)
      modifies this`arrays, this`deps, this`ops
      ensures Own() && Sees() == old(Sees()) && iter.p == Snap(pending.root, pending.t, pending.h) && iter.s == snap
      ensures var range := if Upward(cmp1) then KeyRange(key1, key2) else KeyRange(key2, key1);
              Deps() == old(Deps()) + [range] && ops == old(ops) + [ReadRange(range, RangeOf(old(Sees()), range))]
      ensures KeepsMarks(this)
      ensures ok <==> Reaches(Snap(pending.root, pending.t, pending.h), key1, cmp1) && Reaches(snap, key1, cmp1)
      ensures IsView(pending.View()) && IsView(SnapView(snap)) && Bounded(pending.View(), key1) && Bounded(SnapView(snap), key1)
      ensures ok ==>
                && fresh(iter) && fresh(iter.top) && fresh(iter.bottom) && iter.Inv()
                && iter.top.store == pending.store && iter.bottom.store == snapshot.store
                && Backed(iter.top, iter.p) && Backed(iter.bottom, iter.s)
                && iter.direction == (if Upward(cmp1) then 1 else -1) && iter.endKey == key2 && iter.endCmp == cmp2
                && UpTo(iter.Rest(), cmp2, key2) == Scan(pending.View(), SnapView(snap), key1, cmp1, key2, cmp2)
    {
      hide Visible, RootOK, LogOK, Flat, Pages, PS.PageStore.Inv, PS.PageStore.Readable, PS.PageStore.Nodes, KnownIn, LiveIn,
        LE, Target, Standing, Run, PendingOf, Appended, RangesOf, TF.GrownOnly, Reaches;
      var range := if Upward(cmp1) then KeyRange(key1, key2) else KeyRange(key2, key1);
      ghost var op := ReadRange(range, RangeOf(Sees(), range));
      LogRead(SnapMap(snap), ops, Deps(), updateAttempted, op);
      ghost var cap := Depend(range);
      MarksAppend(pending.store.ledger.pages, SnapMap(snap), updateAttempted, old(arrays), old(deps), range, cap);
      ops := ops + [op];
      var direction := if Upward(cmp1) then 1 else -1;
      ValidReadable(pending);
      PendingFlags(ops);
      ok, iter := Combine(pending, snapshot, key1, cmp1, direction, key2, cmp2);
    }
  }

  /** Every save point is still one, and those that could be reverted to still can. */
  twostate predicate KeepsMarks(tx: KVTX)
    reads tx, tx.pending.store
  {
    && (forall s, m :: old(tx.Known(s, m)) ==> tx.Known(s, m))
    && (forall s, m :: old(tx.Live(s, m)) ==> tx.Live(s, m))
  }

  /** Both cursors, at their starts. */
  method Combine(pending: BTree, snapshot: BTree, key1: Bytes, cmp1: Cmp, direction: int, key2: Bytes, cmp2: Cmp)
    returns (ok: bool, iter: CombinedIter)
    requires pending.Valid() && pending.Readable() && snapshot.Readable() && direction == if Upward(cmp1) then 1 else -1
    requires forall k :: k in pending.Contents() ==> FlagOK(pending.Contents()[k])
    ensures iter.p == Snap(pending.root, pending.t, pending.h) && iter.s == Snap(snapshot.root, snapshot.t, snapshot.h)
    ensures ok <==> Reaches(iter.p, key1, cmp1) && Reaches(iter.s, key1, cmp1)
    ensures IsView(pending.View()) && IsView(snapshot.View()) && Bounded(pending.View(), key1) && Bounded(snapshot.View(), key1)
    ensures ok ==>
              && fresh(iter) && fresh(iter.top) && fresh(iter.bottom) && iter.Inv()
              && iter.top.store == pending.store && iter.bottom.store == snapshot.store
              && Backed(iter.top, iter.p) && Backed(iter.bottom, iter.s)
              && iter.direction == direction && iter.endKey == key2 && iter.endCmp == cmp2
              && iter.Rest() == Merge(ScanStart(pending.View(), key1, cmp1), ScanStart(snapshot.View(), key1, cmp1), Upward(cmp1))
  {
    hide Visible, RootOK, Flat, PS.PageStore.Inv, PS.PageStore.Readable, PS.PageStore.Nodes, BTree.Readable, LE, Standing, Ordered, Ahead, FlagOK, Reaches, IsView,
      Merge, BTree.Valid, ScanStart, Backed, Sorted;
    FlaggedView(pending);
    var ok1, top, i := SeekIn(pending, key1, cmp1);
    var ok2, bottom, j := SeekIn(snapshot, key1, cmp1);
    StartOrdered(pending.View(), key1, cmp1);
    StartOrdered(snapshot.View(), key1, cmp1);
    ViewSorted(pending.View());
    ViewSorted(snapshot.View());
    ok := ok1 && ok2;
    iter := new CombinedIter(top, bottom, direction, key2, cmp2,
                             Snap(pending.root, pending.t, pending.h), Snap(snapshot.root, snapshot.t, snapshot.h), i, j);
  }

  lemma ViewSorted(s: seq<Entry>)
    requires IsView(s)
    ensures Sorted(s)
  {
  }

  lemma FlaggedView(pending: BTree)
    requires pending.Valid() && forall k :: k in pending.Contents() ==> FlagOK(pending.Contents()[k])
    ensures forall n :: 0 <= n < |pending.View()| && n > 0 ==> pending.View()[n].val != []
  {
    hide RootOK, Visible, Flat, PS.PageStore.Inv;
    forall n | 0 < n < |pending.View()| ensures pending.View()[n].val != [] {
      Transfer.PendingEntry(pending.t, pending.h, pending.store.ledger.pages, pending.root, n);
      assert pending.View()[n].key in pending.Contents() && pending.Contents()[pending.View()[n].key] == pending.View()[n].val;
    }
  }

  /**
   * The seek does not run past the last entry of a tree of three or more levels, or it comes back to the
   * sentinel from there.
   */
  ghost predicate Reaches(sn: Snap, key: Bytes, cmp: Cmp) {
    sn.root != 0 && 0 <= LE(Flat(sn.t), key) < |Flat(sn.t)| ==>
      sn.h < 2 || Target(Flat(sn.t), key, cmp) < |Flat(sn.t)| || Turn(sn.t) == 0
  }

  ghost predicate Bounded(s: seq<Entry>, key: Bytes) {
    s != [] ==> 0 <= LE(s, key) < |s|
  }

  lemma EmptyAhead(s: seq<Entry>, asc: bool)
    ensures Ahead([], 0, asc) == [] && Ahead(s, 0, asc) == [] && Ahead(s, |s|, asc) == []
  {
  }

  /** Seek in one of the two trees. */
  method SeekIn(tree: BTree, key: Bytes, cmp: Cmp) returns (ok: bool, it: BIter, ghost i: nat)
    requires tree.Readable()
    ensures fresh(it) && it.store == tree.store && Backed(it, Snap(tree.root, tree.t, tree.h))
    ensures IsView(tree.View()) && Bounded(tree.View(), key)
    ensures ok <==> Reaches(Snap(tree.root, tree.t, tree.h), key, cmp)
    ensures ok ==>
              && Standing(it, Snap(tree.root, tree.t, tree.h), i)
              && Left(Snap(tree.root, tree.t, tree.h), i, Upward(cmp)) == ScanStart(tree.View(), key, cmp)
  {
    hide Flat, LE, Target, PS.PageStore.Readable, PS.PageStore.Nodes, Good, Pointing, Sorted, Stored, Ahead, RootOK, Turn;
    EmptyAhead(tree.View(), Upward(cmp));
    ok, it := Cursors.Seek(tree, key, cmp);
    i := 0;
    if tree.root != 0 {
      RootGood(tree.store.Nodes(), tree.root, tree.t, tree.h);
      SentinelFirst(tree.t, tree.h, tree.store.Nodes(), tree.root);
      TargetNearest(Flat(tree.t), key, cmp);
      i := Target(Flat(tree.t), key, cmp);
      if i == |Flat(tree.t)| && tree.h >= 2 {
        i := Turn(tree.t);
      }
    }
  }

  // ---- how deep the pending tree can be ----

  /** The keys of all updates and deletions, with 14 bytes for each. */
  function WriteSpace(ops: seq<Op>): nat {
    if ops == [] then 0
    else
      var op := ops[|ops| - 1];
      WriteSpace(ops[..|ops| - 1]) + if op.SetKey? || op.DelKey? then 14 + |op.key| else 0
  }

  /** Sorted entries that have only the keys of the operations take no more space than these. */
  lemma {:induction false} PendingSpace(s: seq<Entry>, ops: seq<Op>)
    requires Sorted(s) && forall i :: 0 <= i < |s| ==> s[i].key == [] || s[i].key in PendingOf(ops)
    ensures TF.KeySpace(s) <= 14 + WriteSpace(ops)
    decreases |ops|
  {
    hide TF.KeySpace, LE, Lt, Splice;
    if ops == [] {
      OnlySentinel(s);
    } else {
      var op := ops[|ops| - 1];
      if op.SetKey? || op.DelKey? {
        var r := Remove(s, op.key);
        RemoveSorted(s, op.key);
        TF.KeySpaceRemove(s, op.key);
        NotThere(s, op.key);
        forall i | 0 <= i < |r| ensures r[i].key == [] || r[i].key in PendingOf(ops[..|ops| - 1]) {
          assert r[i].key != op.key;
          var j :| 0 <= j < |s| && s[j].key == r[i].key;
        }
        PendingSpace(r, ops[..|ops| - 1]);
      } else {
        PendingSpace(s, ops[..|ops| - 1]);
      }
    }
  }

  lemma OnlySentinel(s: seq<Entry>)
    requires Sorted(s) && forall i :: 0 <= i < |s| ==> s[i].key == []
    ensures TF.KeySpace(s) <= 14
  {
    if |s| >= 2 {
      LtIrreflexive(s[0].key, s[1].key);
      assert false;
    }
    if s != [] {
      assert s == [s[0]];
      TF.KeySpaceOne(s[0]);
    }
  }

  /** A removed key is gone, and every other entry was there before. */
  lemma NotThere(s: seq<Entry>, key: Bytes)
    requires Sorted(s)
    ensures forall i :: 0 <= i < |Remove(s, key)| ==> Remove(s, key)[i].key != key
    ensures forall i :: 0 <= i < |Remove(s, key)| ==> exists j :: 0 <= j < |s| && s[j].key == Remove(s, key)[i].key
  {
    hide LE, Lt;
    var r := Remove(s, key);
    forall i | 0 <= i < |s| && s[i].key == key ensures Has(s, key) && i == LE(s, key) {
      OnlyAt(s, key, i);
    }
    if Has(s, key) {
      var at := LE(s, key);
      SpliceIndex(s, at, at + 1, []);
      forall i | 0 <= i < |r| ensures r[i].key != key && exists j :: 0 <= j < |s| && s[j].key == r[i].key {
        var j := if i < at then i else i + 1;
        assert r[i] == s[j];
      }
    } else {
      assert forall i :: 0 <= i < |r| ==> s[i].key == r[i].key;
    }
  }

  lemma ViewKeys(s: seq<Entry>, i: nat)
    requires i < |s| && Sorted(s)
    ensures s[i].key == [] || s[i].key in Visible(s)
  {
    hide ToMap;
    ToMapRepresents(s);
    assert Holds(s, ToMap(s), i);
  }

  lemma {:induction false} ToMapSize(s: seq<Entry>)
    ensures |ToMap(s)| <= |s|
    decreases |s|
  {
    if s != [] {
      ToMapSize(s[..|s| - 1]);
      InsertedSize(ToMap(s[..|s| - 1]), s[|s| - 1].key, s[|s| - 1].val);
    }
  }

  lemma InsertedSize(m: map<Bytes, Bytes>, k: Bytes, v: Bytes)
    ensures |m[k := v]| <= |m| + 1
  {
    assert m[k := v].Keys == m.Keys + {k};
  }

  /** A map has at most as many keys as there are entries. */
  lemma MapSize(s: seq<Entry>)
    ensures |Visible(s)| <= |s|
  {
    ToMapSize(s);
    hide ToMap;
    assert Visible(s).Keys == ToMap(s).Keys - {[]};
  }

  /** Entries with long keys, all but the first one, need some room. */
  lemma {:induction false} LongKeys(es: seq<Entry>, len: nat)
    requires es != [] && forall i :: 0 < i < |es| ==> |es[i].key| >= len
    ensures EsSize(es) >= (14 + len) * (|es| - 1)
    decreases |es|
  {
    var n := |es| - 1;
    if n > 0 {
      LongKeys(es[..n], len);
      assert (14 + len) * n == (14 + len) * (n - 1) + (14 + len);
    }
  }

  /** So many fit a page. */
  lemma PageHolds(es: seq<Entry>, len: nat, n: nat)
    requires (14 + len) * n > PAGE - HEADER && HEADER + EsSize(es) <= PAGE
    requires Sorted(es) && LongEnough(es, len)
    ensures |es| <= n
  {
    hide EsSize, Lt;
    if es != [] {
      forall i | 0 < i < |es| ensures |es[i].key| >= len {
        assert Lt(es[0].key, es[i].key);
        LtIrreflexive(es[0].key, es[i].key);
        NothingBefore(es[0].key, es[i].key);
      }
      LongKeys(es, len);
      if |es| - 1 >= n {
        Factor(14 + len, n, |es| - 1);
      }
    }
  }

  /** Every key but the empty one has at least `len` bytes. */
  ghost predicate LongEnough(s: seq<Entry>, len: nat) {
    forall e :: e in s ==> e.key == [] || |e.key| >= len
  }

  lemma NothingBefore(a: Bytes, b: Bytes)
    requires Lt(a, b)
    ensures b != []
  {
  }

  lemma Factor(a: nat, m: nat, n: nat)
    requires m <= n
    ensures a * m <= a * n
  {
  }

  lemma {:induction false} KidsHold(kids: seq<Kid>, n: nat)
    requires forall i :: 0 <= i < |kids| ==> |Flat(kids[i].sub)| <= n
    ensures |FlatKids(kids)| <= n * |kids|
    decreases |kids|
  {
    if kids == [] {
      NoKids();
    } else {
      KidsHead(kids);
      KidsHold(kids[1..], n);
      assert n * |kids| == n * |kids[1..]| + n;
    }
  }

  /** The entries of one kid, as part of all. */
  lemma KidPart(kids: seq<Kid>, i: nat)
    requires i < |kids| && Sorted(FlatKids(kids))
    ensures Sorted(Flat(kids[i].sub)) && forall e :: e in Flat(kids[i].sub) ==> e in FlatKids(kids)
  {
    hide Flat, FlatKids, Sorted;
    KidsCut(kids, i);
    KidsCut(kids[i..], 1);
    assert kids[i..][..1] == [kids[i]];
    OneKid(kids[i]);
    var a, b, c := FlatKids(kids[..i]), Flat(kids[i].sub), FlatKids(kids[i..][1..]);
    assert FlatKids(kids) == a + (b + c);
    assert (a + (b + c))[|a|..|a| + |b|] == b;
    SortedSlice(FlatKids(kids), |a|, |a| + |b|);
  }

  /** How many entries a tree of at most two levels has. */
  lemma TwoLevels(t: Tree, h: nat, len: nat, n: nat)
    requires Good(t, h) && h < 2 && Sorted(Flat(t)) && n >= 1 && (14 + len) * n > PAGE - HEADER
    requires LongEnough(Flat(t), len)
    ensures |Flat(t)| <= n * n
  {
    hide EsSize, Sorted;
    Factor(n, 1, n);
    if h == 0 {
      PageHolds(Flat(t), len, n);
    } else {
      hide Flat, FlatKids;
      forall i | 0 <= i < |t.kids| ensures |Flat(t.kids[i].sub)| <= n {
        KidPart(t.kids, i);
        PageHolds(Flat(t.kids[i].sub), len, n);
      }
      KidsHold(t.kids, n);
      SepsSorted(t.kids, 0);
      forall e | e in Seps(t.kids) ensures e.key == [] || |e.key| >= len {
        var i :| 0 <= i < |t.kids| && Seps(t.kids)[i] == e;
        KidPart(t.kids, i);
        GoodFirst(t.kids[i].sub, 0);
        assert Flat(t.kids[i].sub)[0] in FlatKids(t.kids);
      }
      PageHolds(Seps(t.kids), len, n);
      Factor(n, |t.kids|, n);
    }
  }

  // ---- save points ----

  /** The pending tree of the save point is still stored, and its slice is within its array. */
  ghost predicate KnownIn(pages: map<nat, Node>, arrays: seq<Backing>, saved: TXSaved, mark: Mark) {
    && SnapStored(pages, Snap(saved.root, mark.t, mark.h))
    && SnapMap(Snap(saved.root, mark.t, mark.h)) == PendingOf(mark.ops)
    && (saved.root != 0 ==> TF.GrownOnly(mark.t, mark.h))
    && SliceOK(arrays, saved.deps)
  }

  ghost predicate LiveIn(pages: map<nat, Node>, m: map<Bytes, Bytes>, attempted: bool, arrays: seq<Backing>, deps: Slice, saved: TXSaved, mark: Mark) {
    && KnownIn(pages, arrays, saved, mark) && LogOK(m, mark.ops, RangesOf(arrays, saved.deps), attempted)
    && NotAhead(saved.deps, deps)
  }

  /** Save points survive later updates, because pending pages are never overwritten. */
  lemma MarksKept(pages: map<nat, Node>, more: map<nat, Node>, m: map<Bytes, Bytes>, was: bool, attempted: bool, arrays: seq<Backing>, deps: Slice)
    requires Grows(pages, more) && (was ==> attempted)
    ensures forall s, mk :: KnownIn(pages, arrays, s, mk) ==> KnownIn(more, arrays, s, mk)
    ensures forall s, mk :: LiveIn(pages, m, was, arrays, deps, s, mk) ==> LiveIn(more, m, attempted, arrays, deps, s, mk)
  {
    hide Grows, SnapStored, SnapMap, TF.GrownOnly, SliceOK, RangesOf, NotAhead;
    forall s, mk | KnownIn(pages, arrays, s, mk) ensures KnownIn(more, arrays, s, mk) {
      Readers.SnapGrows(pages, more, Snap(s.root, mk.t, mk.h));
    }
  }

  /** They survive later dependencies, unless they reach further than the transaction's own slice. */
  lemma MarksAppend(pages: map<nat, Node>, m: map<Bytes, Bytes>, attempted: bool, arrays: seq<Backing>, deps: Slice, r: KeyRange, cap: nat)
    requires SliceOK(arrays, deps) && deps.len < cap
    ensures forall s, mk :: KnownIn(pages, arrays, s, mk) ==> KnownIn(pages, Appended(arrays, deps, r, cap), s, mk)
    ensures forall s, mk :: LiveIn(pages, m, attempted, arrays, deps, s, mk) ==>
                              LiveIn(pages, m, attempted, Appended(arrays, deps, r, cap), Longer(arrays, deps), s, mk)
  {
    hide SnapStored, SnapMap, TF.GrownOnly, SliceOK, RangesOf, NotAhead, Appended, Longer, Overwrites, LogOK;
    forall s, mk | KnownIn(pages, arrays, s, mk)
      ensures KnownIn(pages, Appended(arrays, deps, r, cap), s, mk)
      ensures LiveIn(pages, m, attempted, arrays, deps, s, mk) ==>
                LiveIn(pages, m, attempted, Appended(arrays, deps, r, cap), Longer(arrays, deps), s, mk)
    {
      AppendExact(arrays, deps, r, cap, s.deps);
    }
  }

  /** The empty key is never pending. */
  lemma NeverPending(pending: BTree, ops: seq<Op>)
    requires pending.Contents() == PendingOf(ops)
    ensures [] !in PendingOf(ops)
  {
  }

  /** A write that changes what the transaction sees changes the pending value. */
  lemma Flagged(m: map<Bytes, Bytes>, ops: seq<Op>, op: Op)
    requires match op
             case SetKey(key, val) => At(Run(m, ops), key) != Found(val)
             case DelKey(key) => At(Run(m, ops), key).Found?
             case _ => false
    ensures op.key in PendingOf(ops) ==>
              PendingOf(ops)[op.key] != if op.SetKey? then [FLAG_UPDATED] + op.val else [FLAG_DELETED]
  {
    RunAt(m, ops, op.key);
    hide Run, PendingOf;
    if op.SetKey? {
      assert ([FLAG_UPDATED] + op.val)[1..] == op.val;
    }
  }

  lemma LogAttempt(m: map<Bytes, Bytes>, ops: seq<Op>, deps: seq<KeyRange>, updateAttempted: bool)
    requires LogOK(m, ops, deps, updateAttempted)
    ensures LogOK(m, ops, deps, true)
  {
  }

  lemma LogWrite(m: map<Bytes, Bytes>, ops: seq<Op>, deps: seq<KeyRange>, op: Op)
    requires LogOK(m, ops, deps, true) && (op.SetKey? || op.DelKey?) && RangeIn(op) in deps
    ensures LogOK(m, ops + [op], deps, true) && Run(m, ops + [op]) == Effect(Run(m, ops), op)
    ensures op.SetKey? ==> PendingOf(ops + [op]) == PendingOf(ops)[op.key := [FLAG_UPDATED] + op.val]
    ensures op.DelKey? ==> PendingOf(ops + [op]) == PendingOf(ops)[op.key := [FLAG_DELETED]]
  {
    ReadMore(m, ops, op);
    hide PendingOf, Run, Legal;
  }

  /** The operations are a correct run whose dependencies are all listed. */
  ghost predicate LogOK(m: map<Bytes, Bytes>, ops: seq<Op>, deps: seq<KeyRange>, updateAttempted: bool) {
    && Covered(ops, deps) && Legal(m, ops)
    && (PendingOf(ops) != map[] ==> updateAttempted)
  }

  /** One more dependency does no harm. */
  lemma LogDepend(m: map<Bytes, Bytes>, ops: seq<Op>, deps: seq<KeyRange>, updateAttempted: bool, r: KeyRange)
    requires LogOK(m, ops, deps, updateAttempted)
    ensures LogOK(m, ops, deps + [r], updateAttempted)
  {
    hide PendingOf, Run, Legal;
  }

  lemma LogRead(m: map<Bytes, Bytes>, ops: seq<Op>, deps: seq<KeyRange>, updateAttempted: bool, op: Op)
    requires LogOK(m, ops, deps, updateAttempted) && AnswerOK(Run(m, ops), op)
    requires op.ReadKey? || op.ReadRange?
    ensures LogOK(m, ops + [op], deps + [RangeIn(op)], updateAttempted)
    ensures PendingOf(ops + [op]) == PendingOf(ops) && Run(m, ops + [op]) == Run(m, ops)
  {
    ReadMore(m, ops, op);
    hide PendingOf, Run, Legal, AnswerOK;
  }

  /** One more operation. */
  lemma ReadMore(m: map<Bytes, Bytes>, ops: seq<Op>, op: Op)
    ensures Run(m, ops + [op]) == Effect(Run(m, ops), op)
    ensures Legal(m, ops + [op]) <==> Legal(m, ops) && AnswerOK(Run(m, ops), op)
    ensures op.ReadKey? || op.ReadRange? ==> PendingOf(ops + [op]) == PendingOf(ops)
    ensures op.SetKey? ==> PendingOf(ops + [op]) == PendingOf(ops)[op.key := [FLAG_UPDATED] + op.val]
    ensures op.DelKey? ==> PendingOf(ops + [op]) == PendingOf(ops)[op.key := [FLAG_DELETED]]
  {
    assert (ops + [op])[..|ops|] == ops;
  }

  /** The pages of a stored tree are there. */
  lemma PagesStored(pages: map<nat, Node>, sn: Snap)
    requires SnapStored(pages, sn)
    ensures forall p :: p in SnapPages(sn) ==> p in pages
  {
    if sn.root != 0 {
      TreeStored(pages, sn.t);
    }
  }

  lemma {:induction false} TreeStored(pages: map<nat, Node>, t: Tree)
    requires Stored(pages, t)
    ensures forall p :: p in Pages(t) ==> p in pages
    decreases t
  {
    if t.Inner? {
      KidsStored(pages, t.kids);
    }
  }

  lemma {:induction false} KidsStored(pages: map<nat, Node>, kids: seq<Kid>)
    requires forall i :: 0 <= i < |kids| ==> StoredKid(pages, kids[i])
    ensures forall p :: p in PagesKids(kids) ==> p in pages
    decreases kids
  {
    if kids != [] {
      assert StoredKid(pages, kids[0]);
      KidStored(pages, kids[0]);
      KidsStored(pages, kids[1..]);
    }
  }

  lemma {:induction false} KidStored(pages: map<nat, Node>, k: Kid)
    requires StoredKid(pages, k)
    ensures forall p :: p in PagesKid(k) ==> p in pages
    decreases k
  {
    TreeStored(pages, k.sub);
  }
}
