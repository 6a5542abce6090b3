/** Range queries over the rows of a table. */
module RowScans {
  import opened Bytes
  import opened SortedSeq
  import opened Codec
  import opened Keys
  import opened Rows
  import opened Tables
  import opened BTrees
  import opened Snapshots
  import opened Merged
  import opened CombinedCursor
  import opened Transactions
  import opened Serial
  import opened Conflicts

  /** `SeekFailed`: a seek past the last entry of a deep tree fails its assertion. */
  datatype ScanOut = Opened(index: nat) | BadRange | BadColumn | NoIndex | SeekFailed(index: nat)

  /** Every column of the record exists and has the right type. */
  ghost predicate TypesFit(t: TableDef, rec: Record)
    requires |t.cols| == |t.types|
  {
    && |rec.cols| == |rec.vals|
    && forall i :: 0 <= i < |rec.cols| ==> rec.cols[i] in t.cols && ColType(t, rec.cols[i]) == TypeOf(rec.vals[i])
  }

  method CheckTypes(t: TableDef, rec: Record) returns (ok: bool)
    requires |t.cols| == |t.types|
    ensures ok <==> TypesFit(t, rec)
  {
    if |rec.cols| != |rec.vals| {
      return false;
    }
    for n := 0 to |rec.cols|
      invariant forall i :: 0 <= i < n ==> rec.cols[i] in t.cols && ColType(t, rec.cols[i]) == TypeOf(rec.vals[i])
    {
      var j := Position(t.cols, rec.cols[n]);
      if j < 0 || t.types[j] != TypeOf(rec.vals[n]) {
        return false;
      }
    }
    ok := true;
  }

  /** An empty bound fits every table and every index. */
  lemma EmptyBound(t: TableDef)
    requires TableOK(t)
    ensures TypesFit(t, Record([], [])) && |t.indexes| > 0 && Record([], []).cols <= t.indexes[0]
  {
  }

  /** The first index that covers both bounds. */
  method ChooseIndex(t: TableDef, cols1: seq<string>, cols2: seq<string>) returns (i: int)
    ensures -1 <= i < |t.indexes|
    ensures i >= 0 ==> cols1 <= t.indexes[i] && cols2 <= t.indexes[i]
    ensures forall j :: 0 <= j < (if i == -1 then |t.indexes| else i) ==> !(cols1 <= t.indexes[j] && cols2 <= t.indexes[j])
  {
    for n := 0 to |t.indexes|
      invariant forall j :: 0 <= j < n ==> !(cols1 <= t.indexes[j] && cols2 <= t.indexes[j])
    {
      if cols1 <= t.indexes[n] && cols2 <= t.indexes[n] {
        return n;
      }
    }
    return -1;
  }

  /**
   * Open a range query: the first index that covers both bounds, and the byte interval of the bounds
   * in that index.
   */
  method DbScan(tx: KVTX, t: TableDef, key1: Record, cmp1: Cmp, key2: Record, cmp2: Cmp) returns (out: ScanOut, iter: CombinedIter?)
    requires Usable(tx) && TableOK(t)
    modifies tx`arrays, tx`deps, tx`ops
    ensures Usable(tx) && KeepsMarks(tx) && tx.Sees() == old(tx.Sees())
    ensures out.BadRange? <==> Upward(cmp1) == Upward(cmp2)
    ensures out.BadColumn? <==> !out.BadRange? && !(TypesFit(t, key1) && TypesFit(t, key2))
    ensures out.NoIndex? <==> !out.BadRange? && !out.BadColumn?
                              && forall j :: 0 <= j < |t.indexes| ==> !(key1.cols <= t.indexes[j] && key2.cols <= t.indexes[j])
    ensures !out.BadRange? && key1 == key2 == Record([], []) ==> (out.Opened? || out.SeekFailed?) && out.index == 0
    ensures forall j, n :: 0 <= j < |t.indexes| && 0 <= n <= |t.indexes[j]| && key1.cols == t.indexes[j][..n] && key2.cols <= t.indexes[j] ==>
              !out.NoIndex? && (out.Opened? || out.SeekFailed? ==> out.index <= j)
    ensures out.Opened? || out.SeekFailed? ==>
              && TypesFit(t, key1) && TypesFit(t, key2)
              && out.index < |t.indexes| && key1.cols <= t.indexes[out.index] && key2.cols <= t.indexes[out.index]
              && (forall j :: 0 <= j < out.index ==> !(key1.cols <= t.indexes[j] && key2.cols <= t.indexes[j]))
              && var start := PartialKey(t.prefixes[out.index], key1.vals, cmp1);
                 (out.Opened? <==> Reaches(Snap(tx.pending.root, tx.pending.t, tx.pending.h), start, cmp1) && Reaches(tx.snap, start, cmp1))
    ensures out.Opened? || out.SeekFailed? ==>
              var start, end := PartialKey(t.prefixes[out.index], key1.vals, cmp1), PartialKey(t.prefixes[out.index], key2.vals, cmp2);
              tx.Deps() == old(tx.Deps()) + [if Upward(cmp1) then KeyRange(start, end) else KeyRange(end, start)]
    ensures out.Opened? ==>
              && iter != null && fresh(iter) && fresh(iter.top) && fresh(iter.bottom) && iter.Inv()
              && iter.top.store == tx.pending.store && iter.bottom.store == tx.snapshot.store
              && Backed(iter.top, iter.p) && Backed(iter.bottom, iter.s)
              && iter.p == Snap(tx.pending.root, tx.pending.t, tx.pending.h) && iter.s == tx.snap
              && var start, end := PartialKey(t.prefixes[out.index], key1.vals, cmp1), PartialKey(t.prefixes[out.index], key2.vals, cmp2);
                 && iter.direction == (if Upward(cmp1) then 1 else -1) && iter.endKey == end && iter.endCmp == cmp2
                 && IsView(tx.pending.View()) && IsView(SnapView(tx.snap)) && Bounded(tx.pending.View(), start) && Bounded(SnapView(tx.snap), start)
                 && UpTo(iter.Rest(), cmp2, end) == Scan(tx.pending.View(), SnapView(tx.snap), start, cmp1, end, cmp2)
  {
    hide KVTX.Own, BTree.Readable, KVTX.Sees, Visible, PartialKey, Scan, UpTo, Reaches, IsView, Bounded, RangeOf, CombinedIter.Inv, CombinedIter.Rest,
      KVTX.Known, KVTX.Live, Backed, TypesFit;
    iter := null;
    EmptyBound(t);
    if Upward(cmp1) == Upward(cmp2) {
      return BadRange, iter;
    }
    var ok := CheckTypes(t, key1);
    if !ok {
      return BadColumn, iter;
    }
    ok := CheckTypes(t, key2);
    if !ok {
      return BadColumn, iter;
    }
    var index := ChooseIndex(t, key1.cols, key2.cols);
    if index < 0 {
      return NoIndex, iter;
    }
    var keyStart := EncodeKeyPartial(t.prefixes[index], key1.vals, cmp1);
    var keyEnd := EncodeKeyPartial(t.prefixes[index], key2.vals, cmp2);
    Tables.Apart(tx);
    var ok', it := tx.Seek(keyStart, cmp1, keyEnd, cmp2);
    iter := it;
    out := if ok' then Opened(index) else SeekFailed(index);
  }

  // ---- what is in the interval ----

  /** The bound's values are leading columns of the index, with their types. */
  lemma BoundTypes(t: TableDef, i: nat, row: Row, rec: Record)
    requires TableOK(t) && RowOK(t, row) && i < |t.indexes| && TypesFit(t, rec) && rec.cols <= t.indexes[i]
    ensures forall c :: c in t.indexes[i] ==> c in row
    ensures SameTypes(Project(row, t.indexes[i]), rec.vals) && |rec.vals| <= |t.indexes[i]|
  {
    IndexKnown(t, i);
    var index := t.indexes[i];
    forall n | 0 <= n < |rec.vals| ensures TypeOf(Project(row, index)[n]) == TypeOf(rec.vals[n]) {
      assert rec.cols[n] == index[n] && index[n] in index;
    }
  }

  /** The row is between the bounds, column by column, in typed order. */
  ghost predicate RowBetween(t: TableDef, i: nat, row: Row, key1: Record, cmp1: Cmp, key2: Record, cmp2: Cmp)
    requires TableOK(t) && RowOK(t, row) && i < |t.indexes| && TypesFit(t, key1) && TypesFit(t, key2)
    requires key1.cols <= t.indexes[i] && key2.cols <= t.indexes[i]
  {
    BoundTypes(t, i, row, key1);
    BoundTypes(t, i, row, key2);
    TypedOK(Project(row, t.indexes[i]), cmp1, key1.vals) && TypedOK(Project(row, t.indexes[i]), cmp2, key2.vals)
  }

  /**
   * The keys of the database inside the interval of a range query are exactly the index keys of the
   * rows between the bounds.
   */
  lemma ScanRows(m: map<Bytes, Bytes>, t: TableDef, rows: map<seq<Value>, Row>, i: nat, key1: Record, cmp1: Cmp, key2: Record, cmp2: Cmp, k: Bytes)
    requires Stores(m, t, rows) && Prefixed(m) && i < |t.indexes| && Upward(cmp1) != Upward(cmp2)
    requires TypesFit(t, key1) && TypesFit(t, key2) && key1.cols <= t.indexes[i] && key2.cols <= t.indexes[i]
    ensures k in m && Inside2(k, PartialKey(t.prefixes[i], key1.vals, cmp1), cmp1, PartialKey(t.prefixes[i], key2.vals, cmp2), cmp2)
            <==> exists pk :: pk in rows && k == EntryKey(t, i, rows[pk]) && RowBetween(t, i, rows[pk], key1, cmp1, key2, cmp2)
  {
    hide CmpOK, PartialKey, EntryVal, IndexOK, Unique, RowOK, TypesFit, RowBetween, EntryKey;
    assert IndexStores(m, t, i, rows);
    forall pk | pk in rows
      ensures EntryKey(t, i, rows[pk]) in m
      ensures Inside2(EntryKey(t, i, rows[pk]), PartialKey(t.prefixes[i], key1.vals, cmp1), cmp1, PartialKey(t.prefixes[i], key2.vals, cmp2), cmp2)
              <==> RowBetween(t, i, rows[pk], key1, cmp1, key2, cmp2)
    {
      assert HasEntry(m, t, i, rows[pk]);
      RowInside(t, i, rows[pk], key1, cmp1, key2, cmp2);
    }
    if k in m && Inside2(k, PartialKey(t.prefixes[i], key1.vals, cmp1), cmp1, PartialKey(t.prefixes[i], key2.vals, cmp2), cmp2) {
      InsidePrefix(t.prefixes[i], k, key1.vals, cmp1, key2.vals, cmp2);
      assert Owned(k, t, i, rows);
    }
  }

  lemma RowInside(t: TableDef, i: nat, row: Row, key1: Record, cmp1: Cmp, key2: Record, cmp2: Cmp)
    requires TableOK(t) && RowOK(t, row) && i < |t.indexes| && TypesFit(t, key1) && TypesFit(t, key2) && Upward(cmp1) != Upward(cmp2)
    requires key1.cols <= t.indexes[i] && key2.cols <= t.indexes[i]
    ensures Inside2(EntryKey(t, i, row), PartialKey(t.prefixes[i], key1.vals, cmp1), cmp1, PartialKey(t.prefixes[i], key2.vals, cmp2), cmp2)
            <==> RowBetween(t, i, row, key1, cmp1, key2, cmp2)
  {
    BoundTypes(t, i, row, key1);
    BoundTypes(t, i, row, key2);
    hide CmpOK, PartialKey, Key, TypedOK;
    IntervalExact(t.prefixes[i], t.prefixes[i], Project(row, t.indexes[i]), key1.vals, cmp1, key2.vals, cmp2);
  }

  /** A key inside the interval has the prefix of the index. */
  lemma InsidePrefix(prefix: uint32, k: Bytes, part1: seq<Value>, cmp1: Cmp, part2: seq<Value>, cmp2: Cmp)
    requires |k| >= 4 && Upward(cmp1) != Upward(cmp2)
    requires Inside2(k, PartialKey(prefix, part1, cmp1), cmp1, PartialKey(prefix, part2, cmp2), cmp2)
    ensures HasPrefix(k, prefix)
  {
    hide CmpOK, PartialKey, BigEndian;
    var q := FromBigEndian(k[..4]);
    FromBigEndianBound(k[..4]);
    FourBytes();
    BigEndianForth(k[..4]);
    assert k == BigEndian(q, 4) + k[4..];
    if q != prefix {
      OtherPrefix(prefix, q, k[4..], part1, cmp1, part2, cmp2);
    }
  }

  // ---- what the scan yields ----

  /** The pair is the key and value of a row between the bounds. */
  ghost predicate OfRow(x: Pair, t: TableDef, rows: map<seq<Value>, Row>, i: nat, key1: Record, cmp1: Cmp, key2: Record, cmp2: Cmp)
    requires TableOK(t) && RowsOK(t, rows) && i < |t.indexes| && TypesFit(t, key1) && TypesFit(t, key2)
    requires key1.cols <= t.indexes[i] && key2.cols <= t.indexes[i]
  {
    exists pk :: pk in rows && x == Pair(EntryKey(t, i, rows[pk]), EntryVal(t, i, rows[pk])) && RowBetween(t, i, rows[pk], key1, cmp1, key2, cmp2)
  }

  /** The pairs are the keys and values of the rows between the bounds. */
  ghost predicate Yields(out: seq<Pair>, t: TableDef, rows: map<seq<Value>, Row>, i: nat, key1: Record, cmp1: Cmp, key2: Record, cmp2: Cmp)
    requires TableOK(t) && RowsOK(t, rows) && i < |t.indexes| && TypesFit(t, key1) && TypesFit(t, key2)
    requires key1.cols <= t.indexes[i] && key2.cols <= t.indexes[i]
  {
    forall x :: x in out <==> OfRow(x, t, rows, i, key1, cmp1, key2, cmp2)
  }

  /** A run of ordered pairs and its map have the same pairs. */
  lemma {:induction false} PairsIn(out: seq<Pair>, asc: bool, x: Pair)
    requires OrderedPairs(out, asc)
    ensures x in out <==> At(PairMap(out), x.key) == Found(x.val)
    decreases |out|
  {
    hide Before;
    if out != [] {
      assert out == [out[0]] + out[1..];
      PairsIn(out[1..], asc, x);
      if x in out[1..] {
        var j :| 0 < j < |out| && out[j] == x;
        BeforeFacts(asc, out[0].key, x.key, x.key);
      }
    }
  }

  /** The value of a key inside the interval is that of the row. */
  lemma PairOfRow(m: map<Bytes, Bytes>, t: TableDef, rows: map<seq<Value>, Row>, i: nat, key1: Record, cmp1: Cmp, key2: Record, cmp2: Cmp, x: Pair)
    requires Stores(m, t, rows) && Prefixed(m) && i < |t.indexes| && Upward(cmp1) != Upward(cmp2)
    requires TypesFit(t, key1) && TypesFit(t, key2) && key1.cols <= t.indexes[i] && key2.cols <= t.indexes[i]
    ensures At(m, x.key) == Found(x.val)
            && Inside2(x.key, PartialKey(t.prefixes[i], key1.vals, cmp1), cmp1, PartialKey(t.prefixes[i], key2.vals, cmp2), cmp2)
            <==> OfRow(x, t, rows, i, key1, cmp1, key2, cmp2)
  {
    hide PartialKey, EntryKey, EntryVal, Inside2, TypesFit, RowBetween, IndexOK, Unique, RowOK;
    assert IndexStores(m, t, i, rows);
    forall pk | pk in rows ensures HasEntry(m, t, i, rows[pk]) {
    }
    ScanRows(m, t, rows, i, key1, cmp1, key2, cmp2, x.key);
  }

  /**
   * A scan of the transaction's pending updates and its snapshot yields its pairs in order, each once, and these
   * are the keys and values of exactly the rows between the bounds if and only if no deletion is pending there.
   */
  lemma ScanYields(p: seq<Entry>, s: seq<Entry>, ops: seq<Op>, t: TableDef, rows: map<seq<Value>, Row>, i: nat,
                   key1: Record, cmp1: Cmp, key2: Record, cmp2: Cmp)
    requires TableOK(t) && i < |t.indexes| && Upward(cmp1) != Upward(cmp2)
    requires TypesFit(t, key1) && TypesFit(t, key2) && key1.cols <= t.indexes[i] && key2.cols <= t.indexes[i]
    requires IsView(p) && IsView(s) && Visible(p) == PendingOf(ops)
    requires Bounded(p, PartialKey(t.prefixes[i], key1.vals, cmp1)) && Bounded(s, PartialKey(t.prefixes[i], key1.vals, cmp1))
    requires Stores(Run(Visible(s), ops), t, rows) && Prefixed(Run(Visible(s), ops))
    ensures var start, end := PartialKey(t.prefixes[i], key1.vals, cmp1), PartialKey(t.prefixes[i], key2.vals, cmp2);
            var out := Scan(p, s, start, cmp1, end, cmp2);
            && OrderedPairs(out, Upward(cmp1))
            && (Yields(out, t, rows, i, key1, cmp1, key2, cmp2) <==> NoDeletion(PendingOf(ops), start, cmp1, end, cmp2))
  {
    hide PartialKey, Scan, IsView, LE, Visible, PendingOf, Run, Overlay, Over, Beyond, Inside2, PairMap, OrderedPairs, TypesFit, OfRow,
      IndexStores, Prefixed, NoDeletion, At, IndexOK, Unique, RowsOK, EntryKey, EntryVal;
    var start, end := PartialKey(t.prefixes[i], key1.vals, cmp1), PartialKey(t.prefixes[i], key2.vals, cmp2);
    var out, m := Scan(p, s, start, cmp1, end, cmp2), Run(Visible(s), ops);
    var inside := Beyond(Beyond(m, cmp1, start), cmp2, end);
    NotEmpty(t.prefixes[i], key1.vals, cmp1);
    ScanExact(p, s, start, cmp1, end, cmp2);
    PendingFlags(ops);
    RunIsOverlay(Visible(s), ops);
    ScanIsOverlay(PendingOf(ops), Visible(s), start, cmp1, end, cmp2);
    forall x ensures x in out <==> At(PairMap(out), x.key) == Found(x.val) {
      PairsIn(out, Upward(cmp1), x);
    }
    forall x: Pair ensures At(inside, x.key) == Found(x.val) <==> OfRow(x, t, rows, i, key1, cmp1, key2, cmp2) {
      BeyondAt(m, start, cmp1, end, cmp2, x.key);
      PairOfRow(m, t, rows, i, key1, cmp1, key2, cmp2, x);
    }
    SamePairs(PairMap(out), inside);
  }

  lemma NotEmpty(prefix: uint32, vals: seq<Value>, cmp: Cmp)
    ensures PartialKey(prefix, vals, cmp) != []
  {
  }

  /** Two maps are equal when they have the same pairs. */
  lemma SamePairs(a: map<Bytes, Bytes>, b: map<Bytes, Bytes>)
    ensures a == b <==> forall x: Pair :: At(a, x.key) == Found(x.val) <==> At(b, x.key) == Found(x.val)
  {
    if forall x: Pair :: At(a, x.key) == Found(x.val) <==> At(b, x.key) == Found(x.val) {
      forall k ensures At(a, k) == At(b, k) {
        if k in a {
          assert At(a, Pair(k, a[k]).key) == Found(Pair(k, a[k]).val);
        }
        if k in b {
          assert At(b, Pair(k, b[k]).key) == Found(Pair(k, b[k]).val);
        }
      }
      SameMaps(a, b);
    }
  }

  /** A query by the whole primary key finds the row with that key, if there is one. */
  lemma PointQuery(m: map<Bytes, Bytes>, t: TableDef, rows: map<seq<Value>, Row>, key: Record, k: Bytes)
    requires Stores(m, t, rows) && Prefixed(m) && TypesFit(t, key) && key.cols == t.indexes[0]
    ensures k in m && Inside2(k, PartialKey(t.prefixes[0], key.vals, CmpGE), CmpGE, PartialKey(t.prefixes[0], key.vals, CmpLE), CmpLE)
            <==> key.vals in rows && k == EntryKey(t, 0, rows[key.vals])
  {
    hide PartialKey, EntryKey, IndexStores, Inside2, TypesFit, RowBetween, IndexOK, Unique, Prefixed;
    ScanRows(m, t, rows, 0, key, CmpGE, key, CmpLE, k);
    forall pk | pk in rows ensures RowBetween(t, 0, rows[pk], key, CmpGE, key, CmpLE) <==> pk == key.vals {
      BetweenSame(t, rows[pk], key);
    }
  }

  /** Only a row with exactly these primary key columns is at the same time not before and not behind them. */
  lemma BetweenSame(t: TableDef, row: Row, key: Record)
    requires TableOK(t) && RowOK(t, row) && |t.indexes| >= 1 && TypesFit(t, key) && key.cols == t.indexes[0]
    ensures key.cols <= t.indexes[0] && forall c :: c in t.indexes[0] ==> c in row
    ensures RowBetween(t, 0, row, key, CmpGE, key, CmpLE) <==> Project(row, t.indexes[0]) == key.vals
  {
    hide IndexOK, Unique, CompareTuple;
    BoundTypes(t, 0, row, key);
    EqualTuples(Project(row, t.indexes[0]), key.vals);
  }

  lemma {:induction false} EqualTuples(a: seq<Value>, b: seq<Value>)
    requires SameTypes(a, b) && |a| == |b|
    ensures CompareTuple(a, b) == 0 <==> a == b
    decreases |a|
  {
    if a != [] {
      SameValue(a[0], b[0]);
      EqualTuples(a[1..], b[1..]);
      assert a == [a[0]] + a[1..] && b == [b[0]] + b[1..];
    }
  }
}
