/** Rows and their secondary indexes, on top of a transaction. */
module Tables {
  import opened Bytes
  import opened Codec
  import opened Keys
  import opened Rows
  import opened Nodes
  import opened TreeUpdates
  import opened BTrees
  import opened Transactions
  import opened Serial
  import opened Conflicts

  /**
   * How a row operation ended. `Failed`: an error of the store, the statement is to be reverted.
   * `Inconsistent`: an internal assertion of the source fails. `PageOut`: the run is over.
   */
  datatype RowOut = RowChanged(added: bool) | RowUnchanged | BadRow | DuplicateRow | Failed | Inconsistent | PageOut

  /** The record has the row's value for every column. */
  ghost predicate Matches(t: TableDef, rec: Record, row: Row) {
    && |rec.cols| == |rec.vals| && |t.cols| == |t.types| && RowOK(t, row)
    && (forall c :: c in t.cols ==> RecordGet(rec, c) == Some(row[c]))
  }

  /** The transaction can go on. */
  ghost predicate Usable(tx: KVTX)
    reads tx, tx.pending, tx.pending.store, tx.snapshot, tx.snapshot.store,
      (if tx.snapshot.store.base == null then {} else {tx.snapshot.store.base})`file
  {
    tx.Own() && tx.snapshot.Readable()
  }

  /** The transaction's objects are different objects. */
  lemma Apart(tx: KVTX)
    requires tx.Own()
    ensures tx.snapshot != tx.pending && tx.snapshot.store != tx.pending.store
  {
  }

  /** An update of the transaction that leaves it usable. */
  method PutKey(tx: KVTX, key: Bytes, val: Bytes, mode: Mode) returns (out: WriteOut, added: bool, prev: Bytes)
    requires Usable(tx) && key != []
    modifies tx`arrays, tx`deps, tx`ops, tx`updateAttempted, tx.pending
    modifies tx.pending.store`mem, tx.pending.store`page, tx.pending.store`free, tx.pending.store`ledger
    ensures out != Crashed && (out != PageLimit ==> Usable(tx) && KeepsMarks(tx))
    ensures out == DuplicateKey <==> mode == InsertOnly && key in old(tx.Sees())
    ensures out == NotUpdated <==>
              out != DuplicateKey && if key in old(tx.Sees()) then old(tx.Sees())[key] == val else mode == UpdateOnly
    ensures out == KeyLimit <==> out != DuplicateKey && out != NotUpdated && |key| > MAX_KEY
    ensures out == ValueLimit <==> out != DuplicateKey && out != NotUpdated && |key| <= MAX_KEY && |val| >= MAX_VAL
    ensures out == PageLimit ==> !tx.pending.RoomFor(key, [FLAG_UPDATED] + val)
    ensures out == Updated ==> tx.Sees() == old(tx.Sees())[key := val]
    ensures out == Updated ==> added == (key !in old(tx.Sees())) && (!added ==> prev == old(tx.Sees())[key])
    ensures out != Updated && out != PageLimit ==> tx.Sees() == old(tx.Sees())
  {
    hide KVTX.Own, BTree.Readable, KVTX.Sees, KVTX.Known, KVTX.Live, BTree.RoomFor, SmallCase;
    Apart(tx);
    out, added, prev := tx.Update(key, val, mode);
  }

  method DropKey(tx: KVTX, key: Bytes) returns (out: WriteOut, prev: Bytes)
    requires Usable(tx) && key != []
    modifies tx`arrays, tx`deps, tx`ops, tx`updateAttempted, tx.pending
    modifies tx.pending.store`mem, tx.pending.store`page, tx.pending.store`free, tx.pending.store`ledger
    ensures out != Crashed && (out != PageLimit ==> Usable(tx) && KeepsMarks(tx))
    ensures out != DuplicateKey && out != KeyLimit && out != ValueLimit && (out == NotUpdated <==> key !in old(tx.Sees()))
    ensures out == Updated ==> |key| <= MAX_KEY
    ensures out == PageLimit ==> !tx.pending.RoomFor(key, [FLAG_DELETED])
    ensures out == Updated ==> tx.Sees() == old(tx.Sees()) - {key} && prev == old(tx.Sees())[key]
    ensures out != Updated && out != PageLimit ==> tx.Sees() == old(tx.Sees())
  {
    hide KVTX.Own, BTree.Readable, KVTX.Sees, KVTX.Known, KVTX.Live, BTree.RoomFor, SmallCase;
    Apart(tx);
    out, prev := tx.Del(key);
  }

  // ---- the index keys of a record ----

  /** The values of some columns of a record; a missing one counts as 0. */
  ghost function RecVals(rec: Record, cols: seq<string>): (r: seq<Value>)
    requires |rec.cols| == |rec.vals|
    ensures |r| == |cols|
  {
    seq(|cols|, i requires 0 <= i < |cols| => if RecordGet(rec, cols[i]).Some? then RecordGet(rec, cols[i]).v else I64(0))
  }

  ghost function RecKey(t: TableDef, i: nat, rec: Record): Bytes
    requires i < |t.indexes| == |t.prefixes| && |rec.cols| == |rec.vals|
  {
    Key(t.prefixes[i], RecVals(rec, t.indexes[i]))
  }

  /** The record has the row's value for every column of the index. */
  ghost predicate RightKey(t: TableDef, i: nat, rec: Record, row: Row)
    requires i < |t.indexes| && |rec.cols| == |rec.vals|
  {
    forall n :: 0 <= n < |t.indexes[i]| ==> t.indexes[i][n] in row && RecordGet(rec, t.indexes[i][n]) == Some(row[t.indexes[i][n]])
  }

  ghost predicate RightKeys(t: TableDef, rec: Record, row: Row)
    requires |rec.cols| == |rec.vals|
  {
    forall i :: 1 <= i < |t.indexes| ==> RightKey(t, i, rec, row)
  }

  /** From `m` to `m'` only keys of the record in secondary indexes have changed. */
  ghost predicate OnlyRecord(t: TableDef, rec: Record, m: map<Bytes, Bytes>, m': map<Bytes, Bytes>)
    requires |t.indexes| == |t.prefixes| && |rec.cols| == |rec.vals|
  {
    forall k :: SameAt(m, m', k) || exists i :: 1 <= i < |t.indexes| && k == RecKey(t, i, rec)
  }

  lemma OnlyRecordStep(t: TableDef, rec: Record, m: map<Bytes, Bytes>, m1: map<Bytes, Bytes>, m2: map<Bytes, Bytes>, i: nat)
    requires |t.indexes| == |t.prefixes| && |rec.cols| == |rec.vals| && OnlyRecord(t, rec, m, m1)
    requires 1 <= i < |t.indexes| && forall k :: k != RecKey(t, i, rec) ==> SameAt(m1, m2, k)
    ensures OnlyRecord(t, rec, m, m2)
  {
    hide RecKey;
    forall k ensures SameAt(m, m2, k) || exists j :: 1 <= j < |t.indexes| && k == RecKey(t, j, rec) {
      if k == RecKey(t, i, rec) {
        assert exists j :: 1 <= j < |t.indexes| && k == RecKey(t, j, rec);
      } else {
        assert SameAt(m1, m2, k);
        assert SameAt(m, m1, k) || exists j :: 1 <= j < |t.indexes| && k == RecKey(t, j, rec);
      }
    }
  }

  lemma OnlyRecordTable(t: TableDef, rec: Record, m: map<Bytes, Bytes>, m': map<Bytes, Bytes>)
    requires TableOK(t) && |rec.cols| == |rec.vals| && OnlyRecord(t, rec, m, m')
    ensures OnlyTable(t, m, m')
  {
    forall k ensures SameAt(m, m', k) || OfTable(t, k) {
      if !SameAt(m, m', k) {
        var i :| 1 <= i < |t.indexes| && k == RecKey(t, i, rec);
        assert HasPrefix(k, t.prefixes[i]);
      }
    }
  }

  lemma MatchedRight(t: TableDef, rec: Record, row: Row)
    requires TableOK(t) && Matches(t, rec, row)
    ensures RightKeys(t, rec, row)
  {
    forall i | 1 <= i < |t.indexes| ensures RightKey(t, i, rec, row) {
      IndexKnown(t, i);
    }
  }

  /** Right values are there, have their types, and give the row's key. */
  lemma RightValues(t: TableDef, i: nat, rec: Record, row: Row)
    requires TableOK(t) && RowOK(t, row) && i < |t.indexes| && |rec.cols| == |rec.vals| && RightKey(t, i, rec, row)
    ensures forall c :: c in t.indexes[i] ==> c in t.cols
    ensures HasAll(t, rec, t.indexes[i]) && RecVals(rec, t.indexes[i]) == Project(row, t.indexes[i])
    ensures RecKey(t, i, rec) == EntryKey(t, i, row)
  {
    IndexKnown(t, i);
    hide RecordGet;
  }

  /** Values of the right types that are not the row's give another key. */
  lemma WrongKey(t: TableDef, i: nat, rec: Record, row: Row, j: nat)
    requires TableOK(t) && RowOK(t, row) && i < |t.indexes| && j < |t.indexes| && |rec.cols| == |rec.vals| && !RightKey(t, i, rec, row)
    requires forall c :: c in t.indexes[i] ==> c in t.cols
    requires HasAll(t, rec, t.indexes[i])
    ensures RecKey(t, j, rec) != EntryKey(t, i, row)
  {
    hide RecordGet, Encoded;
    var cols := t.indexes[i];
    if j == i {
      ProjectTypes(t, row, cols);
      forall n | 0 <= n < |cols| ensures Types(RecVals(rec, cols))[n] == ColTypes(t, cols)[n] {
      }
      assert Types(RecVals(rec, cols)) == ColTypes(t, cols);
      KeyOrder(t.prefixes[i], RecVals(rec, cols), t.prefixes[i], Project(row, cols));
      if RecVals(rec, cols) == Project(row, cols) {
        forall n | 0 <= n < |cols| ensures cols[n] in row && RecordGet(rec, cols[n]) == Some(row[cols[n]]) {
          assert cols[n] in cols;
          assert RecVals(rec, cols)[n] == Project(row, cols)[n];
        }
      }
    } else {
      KeyPrefix(t, i, row, j);
      assert HasPrefix(RecKey(t, j, rec), t.prefixes[j]);
    }
  }

  lemma MatchedValues(t: TableDef, rec: Record, row: Row, cols: seq<string>, vals: seq<Value>)
    requires TableOK(t) && Matches(t, rec, row) && forall c :: c in cols ==> c in t.cols
    requires |vals| == |cols| && forall i :: 0 <= i < |cols| && RecordGet(rec, cols[i]).Some? ==> vals[i] == RecordGet(rec, cols[i]).v
    ensures vals == Project(row, cols)
  {
    forall i | 0 <= i < |cols| ensures vals[i] == row[cols[i]] {
      assert cols[i] in cols;
    }
  }

  /** The pending value of an index key that is added or removed. */
  function IndexFlag(add: bool): Bytes {
    if add then [FLAG_UPDATED] else [FLAG_DELETED]
  }

  lemma UsableShort(tx: KVTX)
    requires Usable(tx)
    ensures forall k :: k in tx.Sees() ==> |k| <= MAX_KEY
  {
    hide KVTX.Own, BTree.Readable, KVTX.Sees;
    tx.KeysShort();
  }

  /** The record has all columns of index `i`, and its key is new there, or is there to be removed. */
  ghost predicate Agrees(t: TableDef, i: nat, rec: Record, add: bool, m: map<Bytes, Bytes>)
    requires TableOK(t) && i < |t.indexes| && |rec.cols| == |rec.vals|
  {
    IndexKnown(t, i);
    HasAll(t, rec, t.indexes[i]) && add == (RecKey(t, i, rec) !in m)
  }

  /** The keys of the record from index `i` on have not changed. */
  ghost predicate Later(t: TableDef, rec: Record, i: nat, m: map<Bytes, Bytes>, m': map<Bytes, Bytes>)
    requires |t.indexes| == |t.prefixes| && |rec.cols| == |rec.vals|
  {
    forall j :: i <= j < |t.indexes| ==> SameAt(m, m', RecKey(t, j, rec))
  }

  lemma LaterStep(t: TableDef, rec: Record, i: nat, m: map<Bytes, Bytes>, m1: map<Bytes, Bytes>, m2: map<Bytes, Bytes>)
    requires TableOK(t) && |rec.cols| == |rec.vals| && i < |t.indexes| && Later(t, rec, i, m, m1)
    requires forall k :: k != RecKey(t, i, rec) ==> SameAt(m1, m2, k)
    ensures Later(t, rec, i + 1, m, m2)
  {
    hide RecKey, IndexOK, Unique;
    forall j | i < j < |t.indexes| ensures SameAt(m, m2, RecKey(t, j, rec)) {
      OtherIndexKey(t, rec, i, j);
      assert SameAt(m, m1, RecKey(t, j, rec)) && SameAt(m1, m2, RecKey(t, j, rec));
    }
  }

  lemma OtherIndexKey(t: TableDef, rec: Record, i: nat, j: nat)
    requires TableOK(t) && |rec.cols| == |rec.vals| && i < j < |t.indexes|
    ensures RecKey(t, j, rec) != RecKey(t, i, rec)
  {
    assert HasPrefix(RecKey(t, j, rec), t.prefixes[j]) && HasPrefix(RecKey(t, i, rec), t.prefixes[i]);
    if RecKey(t, j, rec) == RecKey(t, i, rec) {
      OnePrefix(RecKey(t, i, rec), t.prefixes[i], t.prefixes[j]);
    }
  }

  /** Add or remove one key of an index; it is expected to be new or to be there. */
  method IndexKey(tx: KVTX, key: Bytes, add: bool) returns (res: WriteOut, expected: bool)
    requires Usable(tx) && key != []
    modifies tx`arrays, tx`deps, tx`ops, tx`updateAttempted, tx.pending
    modifies tx.pending.store`mem, tx.pending.store`page, tx.pending.store`free, tx.pending.store`ledger
    ensures res != PageLimit ==> Usable(tx) && KeepsMarks(tx)
    ensures expected ==> res == Updated || res == KeyLimit || res == PageLimit
    ensures if expected then res == PageLimit || add == (key !in old(tx.Sees())) else res != PageLimit && add == (key in old(tx.Sees()))
    ensures expected && res != PageLimit ==> (res == KeyLimit <==> |key| > MAX_KEY) && (!add ==> res == Updated)
    ensures res == PageLimit ==> !tx.pending.RoomFor(key, IndexFlag(add))
    ensures res == Updated && expected ==> tx.Sees() == if add then old(tx.Sees())[key := []] else old(tx.Sees()) - {key}
    ensures res != PageLimit ==> forall k :: k != key ==> SameAt(old(tx.Sees()), tx.Sees(), k)
  {
    hide Usable, KVTX.Sees, KVTX.Known, KVTX.Live, BTree.RoomFor;
    if add {
      UsableShort(tx);
      assert [FLAG_UPDATED] + [] == IndexFlag(true);
      var added, prev;
      res, added, prev := PutKey(tx, key, [], Upsert);
      expected := !(res == NotUpdated || (res == Updated && !added));
    } else {
      var prev;
      res, prev := DropKey(tx, key);
      expected := res != NotUpdated;
    }
  }

  /**
   * Add or remove the key of a record in every secondary index. If the record is `good`, that is, it has
   * the row's values in every secondary index, and the indexes are those of `before`, the internal
   * assertions hold. In any case only keys of the record change.
   */
  method IndexOp(tx: KVTX, t: TableDef, add: bool, rec: Record, ghost good: bool, ghost row: Row,
                 ghost now: map<seq<Value>, Row>, ghost before: map<seq<Value>, Row>)
    returns (out: RowOut)
    requires Usable(tx) && TableOK(t) && |rec.cols| == |rec.vals| && RowOK(t, row) && (forall c :: c in t.indexes[0] ==> c in row)
    requires good ==> RightKeys(t, rec, row) && Midway(tx.Sees(), t, 1, now, before, before)
    requires good ==> var pk := Project(row, t.indexes[0]); if add then pk !in before else pk in before && before[pk] == row
    modifies tx`arrays, tx`deps, tx`ops, tx`updateAttempted, tx.pending
    modifies tx.pending.store`mem, tx.pending.store`page, tx.pending.store`free, tx.pending.store`ledger
    ensures out.RowChanged? || out.Failed? || out.PageOut? || out.Inconsistent?
    ensures !out.PageOut? ==> Usable(tx) && KeepsMarks(tx) && OnlyRecord(t, rec, old(tx.Sees()), tx.Sees())
    ensures out.RowChanged? ==> forall i :: 1 <= i < |t.indexes| ==> (IndexKnown(t, i); HasAll(t, rec, t.indexes[i]))
    ensures out.RowChanged? ==>
              forall i :: 1 <= i < |t.indexes| ==> Agrees(t, i, rec, add, old(tx.Sees())) && |RecKey(t, i, rec)| <= MAX_KEY
    ensures out.Inconsistent? ==> exists i :: 1 <= i < |t.indexes| && !Agrees(t, i, rec, add, old(tx.Sees()))
    ensures out.Failed? ==> add && exists i :: 1 <= i < |t.indexes| && |RecKey(t, i, rec)| > MAX_KEY
    ensures out.PageOut? ==> exists i :: 1 <= i < |t.indexes| && !tx.pending.RoomFor(RecKey(t, i, rec), IndexFlag(add))
    ensures good ==> !out.Inconsistent?
    ensures good && out.RowChanged? ==>
              var pk := Project(row, t.indexes[0]);
              Midway(tx.Sees(), t, |t.indexes|, now, if add then before[pk := row] else before - {pk}, before)
  {
    hide Usable, Midway, Project, EntryKey, EntryVal, RowOK, IndexOK, Unique, KVTX.Sees, HasAll, Key, RecKey, RightKey, OnlyRecord,
      KVTX.Known, KVTX.Live, RecordGet, BTree.RoomFor, Agrees, Later, IndexFlag;
    ghost var pk, m := Project(row, t.indexes[0]), tx.Sees();
    ghost var done := if add then before[pk := row] else before - {pk};
    if good {
      MidwayRows(tx.Sees(), t, now, before);
      RowsChanged(t, before, pk, row);
      MidwayStart(tx.Sees(), t, now, before, done);
    }
    OnlyRecordNone(t, rec, m);
    LaterNone(t, rec, m);
    var i := 1;
    while i < |t.indexes|
      invariant 1 <= i <= |t.indexes| && Usable(tx) && (good ==> Midway(tx.Sees(), t, i, now, done, before))
      invariant KeepsMarks(tx) && OnlyRecord(t, rec, m, tx.Sees())
      invariant Later(t, rec, i, m, tx.Sees())
      invariant forall j :: 1 <= j < i ==> Agrees(t, j, rec, add, m) && |RecKey(t, j, rec)| <= MAX_KEY
    {
      IndexKnown(t, i);
      var ok, vals := GetValues(t, rec, t.indexes[i]);
      if good {
        RightValues(t, i, rec, row);
      }
      AgreesIs(t, i, rec, add, m, tx.Sees());
      if !ok {
        return Inconsistent;
      }
      GotVals(t, i, rec, vals);
      var key := EncodeKey(t.prefixes[i], vals);
      KeyNotEmpty(t.prefixes[i], vals);
      ghost var m1 := tx.Sees();
      if good {
        if add {
          MidwayAdd(m1, t, i, now, before, pk, row);
        } else {
          MidwayRemove(m1, t, i, now, before, pk);
        }
      }
      var res, expected := IndexKey(tx, key, add);
      if res != PageLimit {
        OnlyRecordStep(t, rec, m, m1, tx.Sees(), i);
        LaterStep(t, rec, i, m, m1, tx.Sees());
      }
      if !expected {
        return Inconsistent;
      }
      if res == PageLimit {
        return PageOut;
      } else if res == KeyLimit || res == ValueLimit {
        return Failed;
      }
      i := i + 1;
    }
    AllHave(t, rec, add, m);
    out := RowChanged(add);
  }

  lemma LaterNone(t: TableDef, rec: Record, m: map<Bytes, Bytes>)
    requires |t.indexes| == |t.prefixes| && |rec.cols| == |rec.vals|
    ensures Later(t, rec, 1, m, m)
  {
  }

  lemma AgreesIs(t: TableDef, i: nat, rec: Record, add: bool, m: map<Bytes, Bytes>, m': map<Bytes, Bytes>)
    requires TableOK(t) && i < |t.indexes| && |rec.cols| == |rec.vals| && Later(t, rec, i, m, m')
    ensures (IndexKnown(t, i); Agrees(t, i, rec, add, m) <==> HasAll(t, rec, t.indexes[i]) && add == (RecKey(t, i, rec) !in m'))
  {
    hide RecKey, HasAll;
    assert SameAt(m, m', RecKey(t, i, rec));
  }

  lemma AllHave(t: TableDef, rec: Record, add: bool, m: map<Bytes, Bytes>)
    requires TableOK(t) && |rec.cols| == |rec.vals| && forall j :: 1 <= j < |t.indexes| ==> Agrees(t, j, rec, add, m)
    ensures forall i :: 1 <= i < |t.indexes| ==> (IndexKnown(t, i); HasAll(t, rec, t.indexes[i]))
  {
    hide RecKey, HasAll;
    forall i | 1 <= i < |t.indexes| ensures (IndexKnown(t, i); HasAll(t, rec, t.indexes[i])) {
      assert Agrees(t, i, rec, add, m);
    }
  }

  lemma OnlyRecordNone(t: TableDef, rec: Record, m: map<Bytes, Bytes>)
    requires |t.indexes| == |t.prefixes| && |rec.cols| == |rec.vals|
    ensures OnlyRecord(t, rec, m, m)
  {
  }

  lemma GotVals(t: TableDef, i: nat, rec: Record, vals: seq<Value>)
    requires TableOK(t) && i < |t.indexes| && |rec.cols| == |rec.vals| && (forall c :: c in t.indexes[i] ==> c in t.cols)
    requires HasAll(t, rec, t.indexes[i])
    requires |vals| == |t.indexes[i]| && forall n :: 0 <= n < |vals| ==> vals[n] == RecordGet(rec, t.indexes[i][n]).v
    ensures vals == RecVals(rec, t.indexes[i]) && Key(t.prefixes[i], vals) == RecKey(t, i, rec)
  {
    hide RecordGet;
  }

  lemma KeyNotEmpty(prefix: uint32, vals: seq<Value>)
    ensures Key(prefix, vals) != []
  {
  }

  lemma KeyHasPrefix(prefix: uint32, vals: seq<Value>)
    ensures HasPrefix(Key(prefix, vals), prefix)
  {
  }

  lemma MidwayStart(m: map<Bytes, Bytes>, t: TableDef, now: map<seq<Value>, Row>, before: map<seq<Value>, Row>, done: map<seq<Value>, Row>)
    requires Midway(m, t, 1, now, before, before) && RowsOK(t, done)
    ensures Midway(m, t, 1, now, done, before)
  {
    hide IndexStores;
  }

  lemma RowFacts(t: TableDef, rec: Record, row: Row)
    requires TableOK(t) && Matches(t, rec, row)
    ensures RowOK(t, row) && (forall c :: c in t.cols ==> c in row) && (forall c :: c in t.indexes[0] ==> c in row)
  {
    IndexKnown(t, 0);
  }

  lemma RowsChanged(t: TableDef, rows: map<seq<Value>, Row>, pk: seq<Value>, row: Row)
    requires TableOK(t) && RowsOK(t, rows) && RowOK(t, row) && (forall c :: c in t.indexes[0] ==> c in row)
    requires pk == Project(row, t.indexes[0])
    ensures RowsOK(t, rows[pk := row]) && RowsOK(t, rows - {pk})
  {
    hide RowOK, Project;
  }

  lemma MidwayRows(m: map<Bytes, Bytes>, t: TableDef, now: map<seq<Value>, Row>, before: map<seq<Value>, Row>)
    requires Midway(m, t, 1, now, before, before)
    ensures RowsOK(t, before)
  {
  }

  lemma MidwayIndexes(m: map<Bytes, Bytes>, t: TableDef, now: map<seq<Value>, Row>, rows: map<seq<Value>, Row>)
    requires TableOK(t) && RowsOK(t, rows) && Midway(m, t, 1, now, rows, rows)
    ensures forall j :: 1 <= j < |t.indexes| ==> IndexStores(m, t, j, rows)
  {
    hide IndexStores;
  }

  lemma IndexKnown(t: TableDef, i: nat)
    requires TableOK(t) && i < |t.indexes|
    ensures forall c :: c in t.indexes[i] ==> c in t.cols
  {
    assert IndexOK(t, t.indexes[i]);
  }

  // ---- the row itself ----

  /** The row that a complete record describes. */
  ghost function RowOf(t: TableDef, rec: Record): Row
    requires |rec.cols| == |rec.vals|
  {
    map c | c in t.cols && RecordGet(rec, c).Some? :: RecordGet(rec, c).v
  }

  lemma RowOfMatches(t: TableDef, rec: Record)
    requires TableOK(t) && |rec.cols| == |rec.vals| && (forall c :: c in t.indexes[0] + RestCols(t) ==> c in t.cols)
    requires HasAll(t, rec, t.indexes[0] + RestCols(t))
    ensures Matches(t, rec, RowOf(t, rec))
  {
    RestKnown(t);
    var cols := t.indexes[0] + RestCols(t);
    forall c | c in t.cols ensures RecordGet(rec, c).Some? && TypeOf(RecordGet(rec, c).v) == ColType(t, c) {
      assert c in cols;
      var i :| 0 <= i < |cols| && cols[i] == c;
    }
  }

  /** Two rows with the same primary key are equal if their other columns are. */
  lemma SameRow(t: TableDef, a: Row, b: Row)
    requires TableOK(t) && RowOK(t, a) && RowOK(t, b)
    requires forall c :: c in t.indexes[0] ==> c in a && c in b
    requires Project(a, t.indexes[0]) == Project(b, t.indexes[0])
    ensures EntryKey(t, 0, a) == EntryKey(t, 0, b) && (EntryVal(t, 0, a) == EntryVal(t, 0, b) <==> a == b)
  {
    hide Encoded, BigEndian, IndexOK, Unique, Types, Compare;
    RestKnown(t);
    ProjectTypes(t, a, RestCols(t));
    ProjectTypes(t, b, RestCols(t));
    EncodingOrder(Project(a, RestCols(t)), Project(b, RestCols(t)));
    if Project(a, RestCols(t)) == Project(b, RestCols(t)) {
      forall c | c in t.cols ensures a[c] == b[c] {
        SameColumn(t, a, b, c);
      }
      assert a == b;
    }
  }

  lemma SameColumn(t: TableDef, a: Row, b: Row, c: string)
    requires TableOK(t) && RowOK(t, a) && RowOK(t, b) && c in t.cols
    requires forall x :: x in t.indexes[0] ==> x in a && x in b
    requires Project(a, t.indexes[0]) == Project(b, t.indexes[0])
    requires (RestKnown(t); Project(a, RestCols(t)) == Project(b, RestCols(t)))
    ensures a[c] == b[c]
  {
    RestKnown(t);
    var cols := if c in t.indexes[0] then t.indexes[0] else RestCols(t);
    var i :| 0 <= i < |cols| && cols[i] == c;
    assert Project(a, cols)[i] == Project(b, cols)[i];
  }

  /** The row key has been written: the first index is new, the others are still to be brought up to date. */
  lemma RowWritten(m: map<Bytes, Bytes>, t: TableDef, rows: map<seq<Value>, Row>, pk: seq<Value>, row: Row)
    requires Stores(m, t, rows) && RowOK(t, row) && (forall c :: c in t.indexes[0] ==> c in row) && pk == Project(row, t.indexes[0])
    ensures EntryKey(t, 0, row) in m <==> pk in rows
    ensures pk in rows ==> m[EntryKey(t, 0, row)] == EntryVal(t, 0, rows[pk])
    ensures Midway(m[EntryKey(t, 0, row) := EntryVal(t, 0, row)], t, 1, rows[pk := row], rows, rows)
  {
    hide IndexStores, EntryKey, EntryVal, RowOK, IndexOK, Unique, Project, SameOn, HasPrefix;
    var m' := m[EntryKey(t, 0, row) := EntryVal(t, 0, row)];
    RowsChanged(t, rows, pk, row);
    if pk in rows {
      ReplaceEntry(m, t, rows, pk, row);
    } else {
      AddEntry(m, t, 0, rows, pk, row);
    }
    forall j | 1 <= j < |t.indexes| ensures IndexStores(m', t, j, rows) {
      OtherIndex(m, t, 0, row, EntryVal(t, 0, row), j);
      IndexSame(m, m', t, j, rows);
    }
  }

  lemma ReplaceEntry(m: map<Bytes, Bytes>, t: TableDef, rows: map<seq<Value>, Row>, pk: seq<Value>, row: Row)
    requires TableOK(t) && RowsOK(t, rows) && IndexStores(m, t, 0, rows) && pk in rows
    requires RowOK(t, row) && (forall c :: c in t.indexes[0] ==> c in row) && pk == Project(row, t.indexes[0])
    ensures RowsOK(t, rows[pk := row])
    ensures EntryKey(t, 0, row) in m && m[EntryKey(t, 0, row)] == EntryVal(t, 0, rows[pk])
    ensures IndexStores(m[EntryKey(t, 0, row) := EntryVal(t, 0, row)], t, 0, rows[pk := row])
  {
    hide EntryKey, EntryVal, RowOK, IndexOK, Unique, Project, IndexStores;
    var k := EntryKey(t, 0, row);
    KnownColumns(t, rows[pk]);
    SameRow(t, rows[pk], row);
    RemoveEntry(m, t, 0, rows, pk);
    var less := m - {k};
    AddEntry(less, t, 0, rows - {pk}, pk, row);
    assert less[k := EntryVal(t, 0, row)] == m[k := EntryVal(t, 0, row)];
    assert (rows - {pk})[pk := row] == rows[pk := row];
  }

  /** All indexes have been passed: start over, or finish. */
  lemma MidwayEnd(m: map<Bytes, Bytes>, t: TableDef, now: map<seq<Value>, Row>, done: map<seq<Value>, Row>, before: map<seq<Value>, Row>)
    requires TableOK(t) && Midway(m, t, |t.indexes|, now, done, before)
    ensures Midway(m, t, 1, now, done, done)
    ensures now == done ==> Stores(m, t, now)
  {
    hide IndexStores;
  }

  /** Values in the order of the primary key and then the rest, as a record. */
  lemma RebuiltRecord(t: TableDef, rec: Record, row: Row)
    requires TableOK(t) && RowOK(t, row)
    requires (RestKnown(t); rec == Record(t.indexes[0] + RestCols(t), Project(row, t.indexes[0] + RestCols(t))))
    ensures Matches(t, rec, row)
  {
    RestKnown(t);
    var cols := t.indexes[0] + RestCols(t);
    forall c | c in t.cols ensures RecordGet(rec, c) == Some(row[c]) {
      assert c in cols;
      var i :| 0 <= i < |cols| && cols[i] == c;
      PositionOf(cols, i);
    }
  }

  /** A key of the row is longer than the limit, or its stored value leaves no room for the flag. */
  ghost predicate Oversized(t: TableDef, row: Row)
    requires TableOK(t) && RowOK(t, row)
  {
    |EntryVal(t, 0, row)| >= MAX_VAL || exists i :: 0 <= i < |t.indexes| && |EntryKey(t, i, row)| > MAX_KEY
  }

  /** The pending tree has no page room for one of the keys of the row. */
  ghost predicate NoRoomFor(pending: BTree, t: TableDef, row: Row)
    requires TableOK(t) && RowOK(t, row)
    reads pending
  {
    exists i :: 0 <= i < |t.indexes| && !pending.RoomFor(EntryKey(t, i, row), [FLAG_UPDATED] + EntryVal(t, i, row))
  }

  /** It has no page room for the deletion of one. */
  ghost predicate NoRoomWithout(pending: BTree, t: TableDef, row: Row)
    requires TableOK(t) && RowOK(t, row)
    reads pending
  {
    exists i :: 0 <= i < |t.indexes| && !pending.RoomFor(EntryKey(t, i, row), [FLAG_DELETED])
  }

  /** What is true of the row's own key. */
  lemma OwnKey(t: TableDef, row: Row, pending: BTree)
    requires TableOK(t) && RowOK(t, row)
    ensures |EntryKey(t, 0, row)| > MAX_KEY || |EntryVal(t, 0, row)| >= MAX_VAL ==> Oversized(t, row)
    ensures !pending.RoomFor(EntryKey(t, 0, row), [FLAG_UPDATED] + EntryVal(t, 0, row)) ==> NoRoomFor(pending, t, row)
  {
    hide EntryKey, EntryVal, RowOK, BTree.RoomFor;
  }

  /** What is true of the index keys of a complete record is true of those of its row. */
  lemma RowKeys(t: TableDef, rec: Record, row: Row, pending: BTree)
    requires TableOK(t) && RowOK(t, row) && |rec.cols| == |rec.vals| && RightKeys(t, rec, row)
    ensures (exists i :: 1 <= i < |t.indexes| && |RecKey(t, i, rec)| > MAX_KEY) ==> Oversized(t, row)
    ensures (forall i :: 1 <= i < |t.indexes| ==> |RecKey(t, i, rec)| <= MAX_KEY) ==>
              (Oversized(t, row) <==> |EntryKey(t, 0, row)| > MAX_KEY || |EntryVal(t, 0, row)| >= MAX_VAL)
    ensures (exists i :: 1 <= i < |t.indexes| && !pending.RoomFor(RecKey(t, i, rec), IndexFlag(true))) ==> NoRoomFor(pending, t, row)
    ensures (exists i :: 1 <= i < |t.indexes| && !pending.RoomFor(RecKey(t, i, rec), IndexFlag(false))) ==> NoRoomWithout(pending, t, row)
  {
    hide RecKey, EntryKey, RightKey, RowOK, BTree.RoomFor;
    forall i | 1 <= i < |t.indexes|
      ensures RecKey(t, i, rec) == EntryKey(t, i, row) && [FLAG_UPDATED] + EntryVal(t, i, row) == IndexFlag(true)
    {
      RightValues(t, i, rec, row);
    }
  }

  /** Write a row: insert it, or replace the row with its primary key, and bring every index up to date. */
  method DbUpdate(tx: KVTX, t: TableDef, rec: Record, mode: Mode, ghost rows: map<seq<Value>, Row>) returns (out: RowOut, ghost row: Row)
    requires Usable(tx) && |rec.cols| == |rec.vals| && Stores(tx.Sees(), t, rows)
    modifies tx`arrays, tx`deps, tx`ops, tx`updateAttempted, tx.pending
    modifies tx.pending.store`mem, tx.pending.store`page, tx.pending.store`free, tx.pending.store`ledger
    ensures !out.Inconsistent? && (!out.PageOut? ==> Usable(tx) && KeepsMarks(tx) && OnlyTable(t, old(tx.Sees()), tx.Sees()))
    ensures out.BadRow? <==> !HasAll(t, rec, (RestKnown(t); t.indexes[0] + RestCols(t)))
    ensures !out.BadRow? ==> Matches(t, rec, row) && forall c :: c in t.indexes[0] ==> c in row
    ensures !out.BadRow? ==>
              var pk := Project(row, t.indexes[0]);
              && (out.DuplicateRow? <==> mode == InsertOnly && pk in rows)
              && (out.RowUnchanged? <==> !out.DuplicateRow? && if pk in rows then rows[pk] == row else mode == UpdateOnly)
              && (out.RowChanged? ==> out.added == (pk !in rows) && Stores(tx.Sees(), t, rows[pk := row]))
              && (out.Failed? ==> Oversized(t, row)) && (out.RowChanged? ==> !Oversized(t, row))
              && (out.PageOut? ==> NoRoomFor(tx.pending, t, row) || (pk in rows && NoRoomWithout(tx.pending, t, rows[pk])))
    ensures out.BadRow? || out.DuplicateRow? || out.RowUnchanged? ==> tx.Sees() == old(tx.Sees())
  {
    hide Usable, Midway, Matches, Project, EntryKey, EntryVal, RowOK, IndexOK, Unique, KVTX.Sees, HasAll, IndexStores, Encoded, Decode, RowOf, OfTable, OnlyTable, KVTX.Known, KVTX.Live, RecordGet, Oversized, NoRoomFor, NoRoomWithout;
    RestKnown(t);
    OnlyTableNone(t, tx.Sees());
    row := map[];
    var rest := NonPrimaryKeyCols(t);
    var cols := t.indexes[0] + rest;
    var ok, values := GetValues(t, rec, cols);
    if !ok {
      return BadRow, row;
    }
    row := RowOf(t, rec);
    RowOfMatches(t, rec);
    RowFacts(t, rec, row);
    MatchedValues(t, rec, row, cols, values);
    out := WriteRow(tx, t, rec, mode, rest, values, rows, row);
  }

  method WriteRow(tx: KVTX, t: TableDef, rec: Record, mode: Mode, rest: seq<string>, values: seq<Value>, ghost rows: map<seq<Value>, Row>, ghost row: Row)
    returns (out: RowOut)
    requires Usable(tx) && |rec.cols| == |rec.vals| && Stores(tx.Sees(), t, rows) && Matches(t, rec, row)
    requires rest == RestCols(t) && (forall c :: c in t.indexes[0] + rest ==> c in row) && values == Project(row, t.indexes[0] + rest)
    modifies tx`arrays, tx`deps, tx`ops, tx`updateAttempted, tx.pending
    modifies tx.pending.store`mem, tx.pending.store`page, tx.pending.store`free, tx.pending.store`ledger
    ensures !out.Inconsistent? && !out.BadRow?
    ensures !out.PageOut? ==> Usable(tx) && KeepsMarks(tx) && OnlyTable(t, old(tx.Sees()), tx.Sees())
    ensures forall c :: c in t.indexes[0] ==> c in row
    ensures var pk := Project(row, t.indexes[0]);
            && (out.DuplicateRow? <==> mode == InsertOnly && pk in rows)
            && (out.RowUnchanged? <==> !out.DuplicateRow? && if pk in rows then rows[pk] == row else mode == UpdateOnly)
            && (out.RowChanged? ==> out.added == (pk !in rows) && Stores(tx.Sees(), t, rows[pk := row]))
            && (out.Failed? ==> Oversized(t, row)) && (out.RowChanged? ==> !Oversized(t, row))
            && (out.PageOut? ==> NoRoomFor(tx.pending, t, row) || (pk in rows && NoRoomWithout(tx.pending, t, rows[pk])))
    ensures out.DuplicateRow? || out.RowUnchanged? ==> tx.Sees() == old(tx.Sees())
  {
    hide Usable, Midway, Matches, Project, EntryKey, EntryVal, RowOK, IndexOK, Unique, KVTX.Sees, HasAll, IndexStores, Encoded, Decode, Key,
      OfTable, KVTX.Known, KVTX.Live, OnlyTable, OnlyRecord, RightKey, RecordGet, BTree.RoomFor, Oversized, NoRoomFor, NoRoomWithout;
    RowFacts(t, rec, row);
    RestKnown(t);
    ghost var m, pk := tx.Sees(), Project(row, t.indexes[0]);
    ghost var now := rows[pk := row];
    var npk := |t.indexes[0]|;
    var key := EncodeKey(t.prefixes[0], values[..npk]);
    var val := EncodeValues([], values[npk..]);
    RowEncoded(t, row, values, val);
    RowWritten(m, t, rows, pk, row);
    if pk in rows {
      KnownColumns(t, rows[pk]);
      SameRow(t, rows[pk], row);
    }
    var res, added, prev := PutKey(tx, key, val, mode);
    OwnKey(t, row, tx.pending);
    if res == PageLimit {
      return PageOut;
    }
    KeyPrefix(t, 0, row, 0);
    OneKey(t, m, tx.Sees(), 0, key);
    if res == KeyLimit || res == ValueLimit {
      return Failed;
    } else if res == DuplicateKey {
      return DuplicateRow;
    } else if res == NotUpdated {
      return RowUnchanged;
    }
    out := MoveIndexKeys(tx, t, rec, rest, values, prev, added, rows, row);
    if !out.PageOut? {
      OnlyTableChain(t, m, m[key := val], tx.Sees());
    }
  }

  /** The row has been written: its old index keys are deleted, the new ones are added. */
  method MoveIndexKeys(tx: KVTX, t: TableDef, rec: Record, rest: seq<string>, values: seq<Value>, prev: Bytes, added: bool,
                       ghost rows: map<seq<Value>, Row>, ghost row: Row)
    returns (out: RowOut)
    requires Usable(tx) && |rec.cols| == |rec.vals| && TableOK(t) && RowsOK(t, rows) && Matches(t, rec, row)
    requires rest == RestCols(t) && (forall c :: c in t.indexes[0] + rest ==> c in row) && values == Project(row, t.indexes[0] + rest)
    requires forall c :: c in t.indexes[0] ==> c in row
    requires var pk := Project(row, t.indexes[0]);
             && added == (pk !in rows) && (!added ==> prev == EntryVal(t, 0, rows[pk]))
             && Midway(tx.Sees(), t, 1, rows[pk := row], rows, rows)
    modifies tx`arrays, tx`deps, tx`ops, tx`updateAttempted, tx.pending
    modifies tx.pending.store`mem, tx.pending.store`page, tx.pending.store`free, tx.pending.store`ledger
    ensures out.RowChanged? || out.Failed? || out.PageOut?
    ensures !out.PageOut? ==> Usable(tx) && KeepsMarks(tx) && OnlyTable(t, old(tx.Sees()), tx.Sees())
    ensures out.RowChanged? ==> out.added == added && Stores(tx.Sees(), t, rows[Project(row, t.indexes[0]) := row])
    ensures out.Failed? ==> Oversized(t, row)
    ensures out.RowChanged? ==> (Oversized(t, row) <==> |EntryKey(t, 0, row)| > MAX_KEY || |EntryVal(t, 0, row)| >= MAX_VAL)
    ensures out.PageOut? ==> NoRoomFor(tx.pending, t, row) || (!added && NoRoomWithout(tx.pending, t, rows[Project(row, t.indexes[0])]))
  {
    hide Usable, Midway, Matches, Project, EntryKey, EntryVal, RowOK, IndexOK, Unique, KVTX.Sees, HasAll, IndexStores, Encoded, Decode, Key,
      OfTable, KVTX.Known, KVTX.Live, OnlyTable, OnlyRecord, RightKey, RecordGet, Stores, BTree.RoomFor, RecKey, Oversized, NoRoomFor, NoRoomWithout, IndexFlag, Agrees;
    RowFacts(t, rec, row);
    RestKnown(t);
    ghost var m, pk := tx.Sees(), Project(row, t.indexes[0]);
    ghost var now := rows[pk := row];
    var npk := |t.indexes[0]|;
    OnlyTableNone(t, m);
    ghost var before := rows;
    if !added {
      KnownColumns(t, rows[pk]);
      var d := DecodeValues(prev, Types(values[npk..]));
      OldDecoded(t, rows[pk], row, values, prev);
      assert d.Values?;
      var oldRec := Record(t.indexes[0] + rest, values[..npk] + d.vals);
      RebuiltRecord(t, oldRec, rows[pk]);
      MatchedRight(t, oldRec, rows[pk]);
      var o := IndexOp(tx, t, false, oldRec, true, rows[pk], now, rows);
      RowKeys(t, oldRec, rows[pk], tx.pending);
      if !o.PageOut? {
        OnlyRecordTable(t, oldRec, m, tx.Sees());
      }
      if !o.RowChanged? {
        return o;
      }
      before := rows - {pk};
      MidwayEnd(tx.Sees(), t, now, before, rows);
    }
    MatchedRight(t, rec, row);
    ghost var m2 := tx.Sees();
    var o := IndexOp(tx, t, true, rec, true, row, now, before);
    RowKeys(t, rec, row, tx.pending);
    if !o.PageOut? {
      OnlyRecordTable(t, rec, m2, tx.Sees());
      OnlyTableChain(t, m, m2, tx.Sees());
    }
    if !o.RowChanged? {
      return o;
    }
    assert before[pk := row] == now;
    MidwayEnd(tx.Sees(), t, now, now, before);
    out := RowChanged(added);
  }

  lemma KnownColumns(t: TableDef, row: Row)
    requires TableOK(t) && RowOK(t, row)
    ensures forall c :: c in t.indexes[0] ==> c in row
  {
    IndexKnown(t, 0);
  }

  /** The first values are the primary key, the others the stored value. */
  lemma RowEncoded(t: TableDef, row: Row, values: seq<Value>, val: Bytes)
    requires TableOK(t) && RowOK(t, row) && (RestKnown(t); values == Project(row, t.indexes[0] + RestCols(t)))
    requires val == [] + Encoded(values[|t.indexes[0]|..])
    ensures Key(t.prefixes[0], values[..|t.indexes[0]|]) == EntryKey(t, 0, row) && val == EntryVal(t, 0, row) && EntryKey(t, 0, row) != []
  {
    hide Encoded, BigEndian, IndexOK, Unique;
    RestKnown(t);
    KnownColumns(t, row);
    KeyPrefix(t, 0, row, 0);
    ProjectSplit(row, t.indexes[0], RestCols(t));
    hide Project;
    assert [] + Encoded(values[|t.indexes[0]|..]) == Encoded(values[|t.indexes[0]|..]);
  }

  lemma ProjectSplit(row: Row, a: seq<string>, b: seq<string>)
    requires forall c :: c in a + b ==> c in row
    ensures forall c :: c in a ==> c in row
    ensures forall c :: c in b ==> c in row
    ensures Project(row, a + b)[..|a|] == Project(row, a) && Project(row, a + b)[|a|..] == Project(row, b)
    ensures Project(row, a) + Project(row, b) == Project(row, a + b)
  {
    assert forall c :: c in a ==> c in a + b;
    assert forall c :: c in b ==> c in a + b;
  }

  /** Decoding the old value with the types of the new one gives the old columns. */
  lemma OldDecoded(t: TableDef, old_: Row, row: Row, values: seq<Value>, prev: Bytes)
    requires TableOK(t) && RowOK(t, old_) && RowOK(t, row) && (RestKnown(t); values == Project(row, t.indexes[0] + RestCols(t)))
    requires (forall c :: c in t.indexes[0] ==> c in old_ && c in row) && Project(old_, t.indexes[0]) == Project(row, t.indexes[0])
    requires prev == EntryVal(t, 0, old_)
    ensures Decode(prev, Types(values[|t.indexes[0]|..])).Values?
    ensures values[..|t.indexes[0]|] + Decode(prev, Types(values[|t.indexes[0]|..])).vals
            == (RestKnown(t); Project(old_, t.indexes[0] + RestCols(t)))
  {
    hide Encoded, Decode, IndexOK, Unique, Types, ColTypes;
    RestKnown(t);
    ProjectTypes(t, old_, RestCols(t));
    ProjectTypes(t, row, RestCols(t));
    ProjectSplit(row, t.indexes[0], RestCols(t));
    ProjectSplit(old_, t.indexes[0], RestCols(t));
    hide Project;
    DecodeExact(prev, Types(values[|t.indexes[0]|..]), Project(old_, RestCols(t)));
  }

  // ---- deleting ----

  /** The table lists its primary key first, in key order; or it has no secondary index. */
  predicate Aligned(t: TableDef)
    requires t.indexes != []
  {
    |t.indexes| == 1 || t.cols == t.indexes[0] + Others(t.cols, t.indexes[0])
  }

  /** The record whose index keys a deletion removes: the row's values, primary key first, under the columns in table order. */
  ghost function Paired(t: TableDef, row: Row): (rec: Record)
    requires TableOK(t) && RowOK(t, row)
    ensures |rec.cols| == |rec.vals|
  {
    RestKnown(t);
    RestLength(t);
    Record(t.cols, Project(row, t.indexes[0] + RestCols(t)))
  }

  /** All the index keys that a deletion is going to remove are there. */
  ghost predicate KeysThere(m: map<Bytes, Bytes>, t: TableDef, row: Row)
    requires TableOK(t) && RowOK(t, row)
  {
    forall i :: 1 <= i < |t.indexes| ==> Agrees(t, i, Paired(t, row), false, m)
  }

  /** The pending tree has no page room for the deletion of one of the row's keys. */
  ghost predicate NoRoomDeleting(pending: BTree, t: TableDef, row: Row)
    requires TableOK(t) && RowOK(t, row)
    reads pending
  {
    || !pending.RoomFor(EntryKey(t, 0, row), IndexFlag(false))
    || exists i :: 1 <= i < |t.indexes| && !pending.RoomFor(RecKey(t, i, Paired(t, row)), IndexFlag(false))
  }

  /** Taking away the row's own key does not matter for the keys in secondary indexes. */
  lemma KeysThereStill(m: map<Bytes, Bytes>, t: TableDef, row: Row)
    requires TableOK(t) && RowOK(t, row)
    ensures KeysThere(m - {EntryKey(t, 0, row)}, t, row) <==> KeysThere(m, t, row)
  {
    forall i | 1 <= i < |t.indexes|
      ensures Agrees(t, i, Paired(t, row), false, m - {EntryKey(t, 0, row)}) <==> Agrees(t, i, Paired(t, row), false, m)
    {
      NotRowKey(t, row, Paired(t, row), i);
    }
  }

  /** The key that is computed for the row is its own. */
  lemma DeletedKey(t: TableDef, row: Row, pk: seq<Value>, pending: BTree)
    requires TableOK(t) && RowOK(t, row) && (forall c :: c in t.indexes[0] ==> c in row) && pk == Project(row, t.indexes[0])
    ensures Key(t.prefixes[0], pk) == EntryKey(t, 0, row)
    ensures !pending.RoomFor(Key(t.prefixes[0], pk), [FLAG_DELETED]) ==> NoRoomDeleting(pending, t, row)
  {
    hide BTree.RoomFor, RecKey;
  }

  lemma NotRowKey(t: TableDef, row: Row, rec: Record, i: nat)
    requires TableOK(t) && RowOK(t, row) && |rec.cols| == |rec.vals| && 1 <= i < |t.indexes|
    ensures RecKey(t, i, rec) != EntryKey(t, 0, row)
  {
    KeyPrefix(t, 0, row, i);
    assert HasPrefix(RecKey(t, i, rec), t.prefixes[i]);
  }

  /**
   * Delete a row by its primary key. The old index keys are computed from values in the order primary
   * key, other columns, paired with the columns in table order; that is right for aligned tables.
   */
  method DbDelete(tx: KVTX, t: TableDef, rec: Record, ghost rows: map<seq<Value>, Row>) returns (out: RowOut, ghost pk: seq<Value>)
    requires Usable(tx) && |rec.cols| == |rec.vals| && Stores(tx.Sees(), t, rows)
    modifies tx`arrays, tx`deps, tx`ops, tx`updateAttempted, tx.pending
    modifies tx.pending.store`mem, tx.pending.store`page, tx.pending.store`free, tx.pending.store`ledger
    ensures !out.DuplicateRow?
    ensures !out.PageOut? ==> Usable(tx) && KeepsMarks(tx) && OnlyTable(t, old(tx.Sees()), tx.Sees())
    ensures out.BadRow? <==> !HasAll(t, rec, (IndexKnown(t, 0); t.indexes[0]))
    ensures !out.BadRow? ==> |pk| == |t.indexes[0]| && forall i :: 0 <= i < |pk| ==> RecordGet(rec, t.indexes[0][i]) == Some(pk[i])
    ensures !out.Failed? && (out.RowUnchanged? <==> !out.BadRow? && pk !in rows)
    ensures out.RowChanged? ==> KeysThere(old(tx.Sees()), t, rows[pk])
    ensures out.Inconsistent? ==> !KeysThere(old(tx.Sees()), t, rows[pk])
    ensures out.PageOut? ==> NoRoomDeleting(tx.pending, t, rows[pk])
    ensures out.BadRow? || out.RowUnchanged? ==> tx.Sees() == old(tx.Sees())
    ensures out.RowChanged? ==> (Stores(tx.Sees(), t, rows - {pk}) <==> RightDelete(t, rows[pk]))
    ensures out.Inconsistent? ==> !RightDelete(t, rows[pk])
    ensures Aligned(t) ==> !out.Inconsistent? && (out.RowChanged? ==> Stores(tx.Sees(), t, rows - {pk}))
  {
    hide Usable, Midway, Matches, Project, EntryKey, EntryVal, RowOK, IndexOK, Unique, KVTX.Sees, IndexStores, Encoded, Decode, Key, OfTable, KVTX.Known,
      KVTX.Live, OnlyTable, RightKeys, KeysThere, BTree.RoomFor, RecKey, NoRoomDeleting;
    IndexKnown(t, 0);
    ghost var m := tx.Sees();
    var ok, values := GetValues(t, rec, t.indexes[0]);
    pk := values;
    OnlyTableNone(t, m);
    if !ok {
      return BadRow, pk;
    }
    var key := EncodeKey(t.prefixes[0], values);
    KeyNotEmpty(t.prefixes[0], values);
    KeyHasPrefix(t.prefixes[0], values);
    RowKeyIn(m, t, rows, rec, pk);
    var res, prev := DropKey(tx, key);
    if pk in rows {
      DeletedKey(t, rows[pk], pk, tx.pending);
      KeysThereStill(m, t, rows[pk]);
    }
    if res == PageLimit {
      return PageOut, pk;
    }
    OneKey(t, m, tx.Sees(), 0, key);
    if res == KeyLimit || res == ValueLimit {
      return Failed, pk;
    } else if res == NotUpdated {
      return RowUnchanged, pk;
    }
    ghost var m1 := tx.Sees();
    out := DropIndexKeys(tx, t, values, prev, rows);
    if !out.PageOut? {
      OnlyTableChain(t, m, m1, tx.Sees());
    }
    if Aligned(t) {
      AlignedRight(t, rows[pk]);
    }
  }

  /** The row is gone: decode what it was, and delete its keys in the secondary indexes. */
  method DropIndexKeys(tx: KVTX, t: TableDef, values: seq<Value>, prev: Bytes, ghost rows: map<seq<Value>, Row>) returns (out: RowOut)
    requires Usable(tx) && TableOK(t) && RowsOK(t, rows) && values in rows && RowOK(t, rows[values])
    requires (forall c :: c in t.indexes[0] ==> c in rows[values]) && values == Project(rows[values], t.indexes[0])
    requires prev == EntryVal(t, 0, rows[values]) && Midway(tx.Sees(), t, 1, rows - {values}, rows, rows)
    modifies tx`arrays, tx`deps, tx`ops, tx`updateAttempted, tx.pending
    modifies tx.pending.store`mem, tx.pending.store`page, tx.pending.store`free, tx.pending.store`ledger
    ensures out.RowChanged? || out.PageOut? || out.Inconsistent?
    ensures !out.PageOut? ==> Usable(tx) && KeepsMarks(tx) && OnlyTable(t, old(tx.Sees()), tx.Sees())
    ensures out.RowChanged? ==> KeysThere(old(tx.Sees()), t, rows[values])
    ensures out.Inconsistent? ==> !KeysThere(old(tx.Sees()), t, rows[values])
    ensures out.PageOut? ==> NoRoomDeleting(tx.pending, t, rows[values])
    ensures out.RowChanged? ==> (Stores(tx.Sees(), t, rows - {values}) <==> RightDelete(t, rows[values]))
    ensures out.Inconsistent? ==> !RightDelete(t, rows[values])
  {
    hide Usable, Midway, Matches, Project, EntryKey, EntryVal, RowOK, IndexOK, Unique, KVTX.Sees, IndexStores, Encoded, Decode, Key, Stores,
      KVTX.Known, KVTX.Live, OnlyTable, OnlyRecord, RightKeys, Agrees, BTree.RoomFor, RecKey, IndexFlag;
    var rest := NonPrimaryKeyCols(t);
    RestKnown(t);
    var types := TypesOf(t, rest);
    var d := DecodeValues(prev, types);
    OldRow(t, rows[values], values, prev);
    assert d.Values?;
    var old_ := Record(t.cols, values + d.vals);
    assert old_ == Paired(t, rows[values]);
    ghost var m, right := tx.Sees(), RightDelete(t, rows[values]);
    out := IndexOp(tx, t, false, old_, right, rows[values], rows - {values}, rows);
    if !out.PageOut? {
      OnlyRecordTable(t, old_, m, tx.Sees());
    }
    if out.RowChanged? {
      if right {
        MidwayEnd(tx.Sees(), t, rows - {values}, rows - {values}, rows);
      } else {
        MidwayIndexes(m, t, rows - {values}, rows);
        KeyLeft(t, rows, values, old_, m, tx.Sees());
      }
    }
  }

  /** Values in the order primary key, other columns, paired with the columns in table order, give the row's index keys. */
  ghost predicate RightDelete(t: TableDef, row: Row)
    requires TableOK(t) && RowOK(t, row)
  {
    RightKeys(t, Paired(t, row), row)
  }

  /** A wrong key leaves the right one behind. */
  lemma KeyLeft(t: TableDef, rows: map<seq<Value>, Row>, pk: seq<Value>, rec: Record, m: map<Bytes, Bytes>, m': map<Bytes, Bytes>)
    requires TableOK(t) && RowsOK(t, rows) && pk in rows && |rec.cols| == |rec.vals| && !RightKeys(t, rec, rows[pk])
    requires forall j :: 1 <= j < |t.indexes| ==> IndexStores(m, t, j, rows)
    requires OnlyRecord(t, rec, m, m') && forall i :: 1 <= i < |t.indexes| ==> (IndexKnown(t, i); HasAll(t, rec, t.indexes[i]))
    ensures !Stores(m', t, rows - {pk})
  {
    hide EntryKey, EntryVal, RowOK, IndexOK, Unique, Project, RecKey, HasAll, RightKey, HasPrefix;
    var row := rows[pk];
    var i :| 1 <= i < |t.indexes| && !RightKey(t, i, rec, row);
    var k := EntryKey(t, i, row);
    IndexKnown(t, i);
    assert IndexStores(m, t, i, rows) && HasEntry(m, t, i, rows[pk]);
    forall j | 1 <= j < |t.indexes| ensures k != RecKey(t, j, rec) {
      WrongKey(t, i, rec, row, j);
    }
    assert SameAt(m, m', k);
    KeyPrefix(t, i, row, i);
    if Stores(m', t, rows - {pk}) {
      assert IndexStores(m', t, i, rows - {pk});
      assert Owned(k, t, i, rows - {pk});
      var q :| q in rows - {pk} && k == EntryKey(t, i, rows[q]);
      EntryUnique(t, i, row, rows[q]);
      assert false;
    }
  }

  /** In an aligned table every row is paired rightly. */
  lemma AlignedRight(t: TableDef, row: Row)
    requires TableOK(t) && RowOK(t, row) && Aligned(t)
    ensures RightDelete(t, row)
  {
    RestKnown(t);
    if |t.indexes| > 1 {
      var rec := Record(t.cols, Project(row, t.indexes[0] + RestCols(t)));
      RebuiltRecord(t, rec, row);
      MatchedRight(t, rec, row);
    }
  }

  /**
   * Deletion keeps the indexes, for every row, exactly if the table is aligned: a primary key column out of
   * its place is wrong in every secondary index.
   */
  lemma DeleteExact(t: TableDef)
    requires TableOK(t)
    ensures Aligned(t) <==> forall row :: RowOK(t, row) ==> RightDelete(t, row)
  {
    if Aligned(t) {
      forall row | RowOK(t, row) ensures RightDelete(t, row) {
        AlignedRight(t, row);
      }
    } else {
      var j := Misplaced(t);
      var row := Marked(t, t.cols[j]);
      MarkedOK(t, t.cols[j]);
      WrongRow(t, j, row);
    }
  }

  /** Some primary key column is not where the primary key would come first. */
  lemma Misplaced(t: TableDef) returns (j: nat)
    requires TableOK(t) && t.cols != t.indexes[0] + RestCols(t)
    ensures j < |t.cols| && t.cols[j] in t.indexes[0] && |t.indexes[0] + RestCols(t)| == |t.cols|
    ensures t.cols[j] != (t.indexes[0] + RestCols(t))[j]
  {
    RestLength(t);
    IndexKnown(t, 0);
    var pk, order := t.indexes[0], t.indexes[0] + RestCols(t);
    if forall i :: 0 <= i < |pk| ==> t.cols[i] == pk[i] {
      assert t.cols[..|pk|] == pk;
      FrontOthers(t.cols, pk);
      assert false;
    }
    var i :| 0 <= i < |pk| && t.cols[i] != pk[i];
    j := Position(t.cols, pk[i]);
    RestKnown(t);
    assert order[i] == pk[i] && j != i;
    assert order[j] != order[i];
  }

  /** If the primary key comes first, what follows are the other columns in their order. */
  lemma FrontOthers(cols: seq<string>, pk: seq<string>)
    requires Unique(cols) && |pk| <= |cols| && cols[..|pk|] == pk
    ensures cols == pk + Others(cols, pk)
  {
    hide Unique, Others;
    var rest := cols[|pk|..];
    assert cols == pk + rest;
    RestApart(cols, |pk|);
    OthersConcat(pk, rest, pk);
    NoneOther(pk, pk);
    AllOther(rest, pk);
  }

  lemma RestApart(cols: seq<string>, n: nat)
    requires Unique(cols) && n <= |cols|
    ensures forall c :: c in cols[n..] ==> c !in cols[..n]
  {
    forall i, j | 0 <= i < n <= j < |cols| ensures cols[i] != cols[j] {
    }
  }

  lemma {:induction false} OthersConcat(a: seq<string>, b: seq<string>, pk: seq<string>)
    ensures Others(a + b, pk) == Others(a, pk) + Others(b, pk)
    decreases |b|
  {
    if b == [] {
      assert a + b == a;
    } else {
      OthersConcat(a, b[..|b| - 1], pk);
      assert (a + b)[..|a + b| - 1] == a + b[..|b| - 1];
    }
  }

  lemma {:induction false} NoneOther(a: seq<string>, pk: seq<string>)
    requires forall c :: c in a ==> c in pk
    ensures Others(a, pk) == []
    decreases |a|
  {
    if a != [] {
      NoneOther(a[..|a| - 1], pk);
    }
  }

  lemma {:induction false} AllOther(a: seq<string>, pk: seq<string>)
    requires forall c :: c in a ==> c !in pk
    ensures Others(a, pk) == a
    decreases |a|
  {
    if a != [] {
      AllOther(a[..|a| - 1], pk);
    }
  }

  lemma WrongRow(t: TableDef, j: nat, row: Row)
    requires TableOK(t) && RowOK(t, row) && |t.indexes| > 1 && j < |t.cols| && t.cols[j] in t.indexes[0]
    requires |t.indexes[0] + RestCols(t)| == |t.cols| && t.cols[j] != (t.indexes[0] + RestCols(t))[j]
    requires forall x :: x in t.cols && x != t.cols[j] ==> row[x] != row[t.cols[j]]
    ensures !RightDelete(t, row)
  {
    RestKnown(t);
    var order, c := t.indexes[0] + RestCols(t), t.cols[j];
    var rec := Record(t.cols, Project(row, order));
    PositionOf(t.cols, j);
    assert order[j] in order;
    assert RecordGet(rec, c) == Some(row[order[j]]);
    assert IndexOK(t, t.indexes[1]);
    var n :| 0 <= n < |t.indexes[1]| && t.indexes[1][n] == c;
    assert !RightKey(t, 1, rec, row);
  }

  method TypesOf(t: TableDef, cols: seq<string>) returns (types: seq<byte>)
    requires |t.cols| == |t.types| && forall c :: c in cols ==> c in t.cols
    ensures types == ColTypes(t, cols)
  {
    types := [];
    for n := 0 to |cols|
      invariant |types| == n && forall i :: 0 <= i < n ==> types[i] == ColType(t, cols[i])
    {
      types := types + [ColType(t, cols[n])];
    }
  }

  /** The row key is there exactly if the table has the row; without it, the row is gone. */
  lemma RowKeyIn(m: map<Bytes, Bytes>, t: TableDef, rows: map<seq<Value>, Row>, rec: Record, pk: seq<Value>)
    requires Stores(m, t, rows) && |rec.cols| == |rec.vals| && |pk| == |t.indexes[0]| && (forall c :: c in t.indexes[0] ==> c in t.cols)
    requires HasAll(t, rec, t.indexes[0]) && forall i :: 0 <= i < |pk| ==> pk[i] == RecordGet(rec, t.indexes[0][i]).v
    ensures Key(t.prefixes[0], pk) in m <==> pk in rows
    ensures pk in rows ==>
              && RowOK(t, rows[pk]) && (forall c :: c in t.indexes[0] ==> c in rows[pk]) && pk == Project(rows[pk], t.indexes[0])
              && m[Key(t.prefixes[0], pk)] == EntryVal(t, 0, rows[pk])
              && Midway(m - {Key(t.prefixes[0], pk)}, t, 1, rows - {pk}, rows, rows)
  {
    if pk in rows {
      RowRemoved(m, t, rows, pk);
    } else {
      NoSuchRow(m, t, rows, rec, pk);
    }
  }

  lemma NoSuchRow(m: map<Bytes, Bytes>, t: TableDef, rows: map<seq<Value>, Row>, rec: Record, pk: seq<Value>)
    requires Stores(m, t, rows) && |rec.cols| == |rec.vals| && |pk| == |t.indexes[0]| && (forall c :: c in t.indexes[0] ==> c in t.cols)
    requires HasAll(t, rec, t.indexes[0]) && forall i :: 0 <= i < |pk| ==> pk[i] == RecordGet(rec, t.indexes[0][i]).v
    requires pk !in rows
    ensures Key(t.prefixes[0], pk) !in m
  {
    hide Encoded, IndexOK, Unique, RecordGet;
    var k := Key(t.prefixes[0], pk);
    assert IndexStores(m, t, 0, rows);
    assert k[..4] == BigEndian(t.prefixes[0], 4);
    forall q | q in rows ensures k != EntryKey(t, 0, rows[q]) {
      KnownColumns(t, rows[q]);
      ProjectTypes(t, rows[q], t.indexes[0]);
      assert Types(pk) == ColTypes(t, t.indexes[0]);
      KeyOrder(t.prefixes[0], pk, t.prefixes[0], q);
    }
    assert !Owned(k, t, 0, rows);
  }

  lemma RowRemoved(m: map<Bytes, Bytes>, t: TableDef, rows: map<seq<Value>, Row>, pk: seq<Value>)
    requires Stores(m, t, rows) && pk in rows
    ensures RowOK(t, rows[pk]) && (forall c :: c in t.indexes[0] ==> c in rows[pk]) && pk == Project(rows[pk], t.indexes[0])
    ensures Key(t.prefixes[0], pk) in m && m[Key(t.prefixes[0], pk)] == EntryVal(t, 0, rows[pk])
    ensures Midway(m - {Key(t.prefixes[0], pk)}, t, 1, rows - {pk}, rows, rows)
  {
    hide IndexStores, EntryVal, IndexOK, Unique, Project, SameOn, HasPrefix, Encoded, RowOK;
    var row := rows[pk];
    KnownColumns(t, row);
    var m' := m - {Key(t.prefixes[0], pk)};
    RemoveEntry(m, t, 0, rows, pk);
    forall j | 1 <= j < |t.indexes| ensures IndexStores(m', t, j, rows) {
      OtherIndex(m, t, 0, row, [], j);
      IndexSame(m, m', t, j, rows);
    }
  }

  lemma RestLength(t: TableDef)
    requires TableOK(t)
    ensures |t.indexes[0]| + |RestCols(t)| == |t.cols|
  {
    RestKnown(t);
    UniqueFits(t.indexes[0] + RestCols(t), t.cols);
    UniqueFits(t.cols, t.indexes[0] + RestCols(t));
  }

  /** The stored value decodes to the other columns; paired with the columns of an aligned table that is the row. */
  lemma OldRow(t: TableDef, row: Row, pk: seq<Value>, prev: Bytes)
    requires TableOK(t) && RowOK(t, row) && (forall c :: c in t.indexes[0] ==> c in row) && pk == Project(row, t.indexes[0])
    requires prev == EntryVal(t, 0, row)
    ensures forall c :: c in RestCols(t) ==> c in t.cols
    ensures var d := Decode(prev, ColTypes(t, RestCols(t)));
            && d.Values? && |pk| + |d.vals| == |t.cols| && pk + d.vals == (RestKnown(t); Project(row, t.indexes[0] + RestCols(t)))
            && (t.cols == t.indexes[0] + RestCols(t) ==> Matches(t, Record(t.cols, pk + d.vals), row))
  {
    hide Encoded, Decode, IndexOK, Unique, Types;
    RestKnown(t);
    RestLength(t);
    ProjectTypes(t, row, RestCols(t));
    DecodeExact(prev, ColTypes(t, RestCols(t)), Project(row, RestCols(t)));
    ProjectSplit(row, t.indexes[0], RestCols(t));
    if t.cols == t.indexes[0] + RestCols(t) {
      RebuiltRecord(t, Record(t.cols, pk + Project(row, RestCols(t))), row);
    }
  }

  /** A row of the table in which only column `c` has a value other than 0 or the empty string. */
  ghost function Marked(t: TableDef, c: string): Row
    requires |t.cols| == |t.types|
  {
    map x | x in t.cols ::
      if ColType(t, x) == TYPE_INT64 then I64(if x == c then 1 else 0) else Str(if x == c then [1] else [])
  }

  lemma MarkedOK(t: TableDef, c: string)
    requires TableOK(t)
    ensures RowOK(t, Marked(t, c)) && forall x :: x in t.cols && x != c && c in t.cols ==> Marked(t, c)[x] != Marked(t, c)[c]
  {
    var row := Marked(t, c);
    forall x | x in row ensures TypeOf(row[x]) == ColType(t, x) {
      var p := Position(t.cols, x);
      assert t.types[p] == TYPE_BYTES || t.types[p] == TYPE_INT64;
    }
  }

  /**
   * Values in the order primary key, other columns, paired with the columns in table order: that is the
   * row, for every row, exactly if the table lists its columns in that order.
   */
  lemma PairingExact(t: TableDef)
    requires TableOK(t)
    ensures forall c :: c in t.indexes[0] + RestCols(t) <==> c in t.cols
    ensures t.cols == t.indexes[0] + RestCols(t) <==>
              forall row :: RowOK(t, row) ==> Matches(t, Record(t.cols, Project(row, t.indexes[0] + RestCols(t))), row)
  {
    RestKnown(t);
    RestLength(t);
    var order := t.indexes[0] + RestCols(t);
    if t.cols == order {
      forall row | RowOK(t, row) ensures Matches(t, Record(t.cols, Project(row, order)), row) {
        RebuiltRecord(t, Record(t.cols, Project(row, order)), row);
      }
    } else {
      var j :| 0 <= j < |t.cols| && t.cols[j] != order[j];
      Mispaired(t, order, j);
    }
  }

  lemma Mispaired(t: TableDef, order: seq<string>, j: nat)
    requires TableOK(t) && |order| == |t.cols| && (forall c :: c in order ==> c in t.cols)
    requires j < |t.cols| && t.cols[j] != order[j]
    ensures var row := Marked(t, t.cols[j]); RowOK(t, row) && !Matches(t, Record(t.cols, Project(row, order)), row)
  {
    var c := t.cols[j];
    var row := Marked(t, c);
    MarkedOK(t, c);
    PositionOf(t.cols, j);
    assert order[j] in order;
    assert RecordGet(Record(t.cols, Project(row, order)), c) == Some(row[order[j]]);
  }
}
