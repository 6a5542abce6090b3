/** Statements: several row operations that take effect together or not at all. */
module Statements {
  import opened Bytes
  import opened Codec
  import opened Rows
  import opened Tables
  import opened TreeUpdates
  import opened BTrees
  import opened Transactions
  import opened Serial
  import opened Slices

  /** How a statement ended. `Failed`: an error, reported to the user. `Over`: the pending tree ran out of page space. */
  datatype StmtOut = Finished(added: nat, updated: nat) | Failed | Over

  ghost predicate Full(recs: seq<Record>) {
    forall i :: 0 <= i < |recs| ==> |recs[i].cols| == |recs[i].vals|
  }

  /** The rows of the table after inserting or updating one row. */
  ghost function With(t: TableDef, mode: Mode, row: Row, rows: map<seq<Value>, Row>): map<seq<Value>, Row>
    requires |t.indexes| >= 1
  {
    if forall c :: c in t.indexes[0] ==> c in row then
      if mode == UpdateOnly && Project(row, t.indexes[0]) !in rows then rows else rows[Project(row, t.indexes[0]) := row]
    else rows
  }

  /** The rows of the table after the records have been inserted or updated, first to last. */
  ghost function After(t: TableDef, mode: Mode, recs: seq<Record>, rows: map<seq<Value>, Row>): map<seq<Value>, Row>
    requires |t.indexes| >= 1 && Full(recs)
  {
    if recs == [] then rows
    else With(t, mode, RowOf(t, recs[|recs| - 1]), After(t, mode, recs[..|recs| - 1], rows))
  }

  /** The record has every column of the table, with the right types. */
  ghost predicate Whole(t: TableDef, rec: Record)
    requires TableOK(t) && |rec.cols| == |rec.vals|
  {
    RestKnown(t);
    HasAll(t, rec, t.indexes[0] + RestCols(t))
  }

  lemma WholeRow(t: TableDef, rec: Record)
    requires TableOK(t) && |rec.cols| == |rec.vals| && Whole(t, rec)
    ensures RowOK(t, RowOf(t, rec)) && forall c :: c in t.indexes[0] ==> c in RowOf(t, rec)
  {
    hide RowOK, IndexOK, Unique, HasAll, RowOf;
    RestKnown(t);
    RowOfMatches(t, rec);
    RowFacts(t, rec, RowOf(t, rec));
  }

  /** Inserting or updating the row changes the table. */
  ghost predicate Writes(t: TableDef, mode: Mode, rec: Record, rows: map<seq<Value>, Row>)
    requires TableOK(t) && |rec.cols| == |rec.vals| && Whole(t, rec)
  {
    WholeRow(t, rec);
    var row := RowOf(t, rec);
    var pk := Project(row, t.indexes[0]);
    if pk in rows then rows[pk] != row else mode != UpdateOnly
  }

  /** An incomplete record, a duplicate, or a row to be written that is too large. */
  ghost predicate Fails(t: TableDef, mode: Mode, rec: Record, rows: map<seq<Value>, Row>)
    requires TableOK(t) && |rec.cols| == |rec.vals|
  {
    !Whole(t, rec) ||
    (WholeRow(t, rec);
     || (mode == InsertOnly && Project(RowOf(t, rec), t.indexes[0]) in rows)
     || (Writes(t, mode, rec, rows) && Oversized(t, RowOf(t, rec))))
  }

  /** The pending tree has no page room for the row, or for the deletion of the row that it replaces. */
  ghost predicate Crowded(pending: BTree, t: TableDef, rec: Record, rows: map<seq<Value>, Row>)
    requires TableOK(t) && |rec.cols| == |rec.vals|
    reads pending
  {
    Whole(t, rec) &&
    (WholeRow(t, rec);
     var pk := Project(RowOf(t, rec), t.indexes[0]);
     NoRoomFor(pending, t, RowOf(t, rec)) || (pk in rows && RowOK(t, rows[pk]) && NoRoomWithout(pending, t, rows[pk])))
  }

  /** How many of the records change the table. */
  ghost function Written(t: TableDef, mode: Mode, recs: seq<Record>, rows: map<seq<Value>, Row>): nat
    requires TableOK(t) && Full(recs)
  {
    if recs == [] then 0
    else
      var n := |recs| - 1;
      Written(t, mode, recs[..n], rows)
      + if Whole(t, recs[n]) && Writes(t, mode, recs[n], After(t, mode, recs[..n], rows)) then 1 else 0
  }

  lemma OnlyRow(t: TableDef, rec: Record, row: Row)
    requires Matches(t, rec, row)
    ensures row == RowOf(t, rec)
  {
    forall c | c in t.cols ensures RecordGet(rec, c) == Some(row[c]) {
    }
  }

  lemma StoresTable(m: map<Bytes, Bytes>, t: TableDef, rows: map<seq<Value>, Row>)
    requires Stores(m, t, rows)
    ensures TableOK(t) && |t.indexes| >= 1
  {
  }

  /** Insert or update one row of a statement. */
  method SetRow(tx: KVTX, t: TableDef, rec: Record, mode: Mode, ghost rows: map<seq<Value>, Row>) returns (out: RowOut)
    requires Usable(tx) && |rec.cols| == |rec.vals| && Stores(tx.Sees(), t, rows) && TableOK(t)
    modifies tx`arrays, tx`deps, tx`ops, tx`updateAttempted, tx.pending
    modifies tx.pending.store`mem, tx.pending.store`page, tx.pending.store`free, tx.pending.store`ledger
    ensures !out.Inconsistent? && (!out.PageOut? ==> Usable(tx) && KeepsMarks(tx) && OnlyTable(t, old(tx.Sees()), tx.Sees()))
    ensures out.RowChanged? ==> Whole(t, rec) && Writes(t, mode, rec, rows) && !Fails(t, mode, rec, rows)
    ensures out.RowUnchanged? ==> Whole(t, rec) && !Writes(t, mode, rec, rows) && !Fails(t, mode, rec, rows)
    ensures out.BadRow? || out.DuplicateRow? || out.Failed? ==> Fails(t, mode, rec, rows)
    ensures out.PageOut? ==> Crowded(tx.pending, t, rec, rows)
    ensures out.RowChanged? || out.RowUnchanged? ==>
              var next := With(t, mode, RowOf(t, rec), rows);
              && Stores(tx.Sees(), t, next)
              && |next| == |rows| + (if out.RowChanged? && out.added then 1 else 0)
              && (mode == InsertOnly ==> out.RowChanged? && out.added)
  {
    hide Usable, IndexStores, KVTX.Sees, KVTX.Known, KVTX.Live, OnlyTable, Matches, Project, HasAll, RowOf, Oversized, NoRoomFor, NoRoomWithout,
      IndexOK, Unique, RowOK;
    ghost var row;
    out, row := DbUpdate(tx, t, rec, mode, rows);
    RestKnown(t);
    if !out.BadRow? {
      OnlyRow(t, rec, row);
    }
    if out.RowChanged? || out.RowUnchanged? {
      ghost var pk := Project(row, t.indexes[0]);
      assert |rows[pk := row]| == |rows| + if pk in rows then 0 else 1;
      assert out.RowUnchanged? && pk in rows ==> rows[pk := row] == rows;
    }
  }

  /** The first `n` records have been inserted or updated without an error; `updated` of them have changed the table. */
  ghost predicate Progress(t: TableDef, mode: Mode, recs: seq<Record>, rows: map<seq<Value>, Row>, n: nat, now: map<seq<Value>, Row>, updated: nat)
    requires TableOK(t) && Full(recs) && n <= |recs|
  {
    && now == After(t, mode, recs[..n], rows) && updated == Written(t, mode, recs[..n], rows)
    && forall k :: 0 <= k < n ==> !FailsAt(t, mode, recs, rows, k)
  }

  /** Record `k` fails after the earlier ones. */
  ghost predicate FailsAt(t: TableDef, mode: Mode, recs: seq<Record>, rows: map<seq<Value>, Row>, k: nat)
    requires TableOK(t) && Full(recs) && k < |recs|
  {
    Fails(t, mode, recs[k], After(t, mode, recs[..k], rows))
  }

  /** There is no page room for record `k` after the earlier ones. */
  ghost predicate CrowdedAt(pending: BTree, t: TableDef, mode: Mode, recs: seq<Record>, rows: map<seq<Value>, Row>, k: nat)
    requires TableOK(t) && Full(recs) && k < |recs|
    reads pending
  {
    Crowded(pending, t, recs[k], After(t, mode, recs[..k], rows))
  }

  lemma ProgressNone(t: TableDef, mode: Mode, recs: seq<Record>, rows: map<seq<Value>, Row>)
    requires TableOK(t) && Full(recs)
    ensures Progress(t, mode, recs, rows, 0, rows, 0)
  {
  }

  lemma ProgressStep(t: TableDef, mode: Mode, recs: seq<Record>, rows: map<seq<Value>, Row>, n: nat, now: map<seq<Value>, Row>, updated: nat)
    requires TableOK(t) && Full(recs) && n < |recs| && Progress(t, mode, recs, rows, n, now, updated)
    requires Whole(t, recs[n]) && !Fails(t, mode, recs[n], now)
    ensures Progress(t, mode, recs, rows, n + 1, With(t, mode, RowOf(t, recs[n]), now),
                     updated + if Writes(t, mode, recs[n], now) then 1 else 0)
  {
    hide With, RowOf, Fails, Writes, Whole, IndexOK, Unique;
    assert recs[..n + 1][..n] == recs[..n];
  }

  lemma ProgressNow(t: TableDef, mode: Mode, recs: seq<Record>, rows: map<seq<Value>, Row>, n: nat, now: map<seq<Value>, Row>, updated: nat, pending: BTree)
    requires TableOK(t) && Full(recs) && n < |recs| && Progress(t, mode, recs, rows, n, now, updated)
    ensures FailsAt(t, mode, recs, rows, n) == Fails(t, mode, recs[n], now)
    ensures CrowdedAt(pending, t, mode, recs, rows, n) == Crowded(pending, t, recs[n], now)
  {
    hide Fails, Crowded, After, Written;
  }

  lemma ProgressAll(t: TableDef, mode: Mode, recs: seq<Record>, rows: map<seq<Value>, Row>, now: map<seq<Value>, Row>, updated: nat)
    requires TableOK(t) && Full(recs) && Progress(t, mode, recs, rows, |recs|, now, updated)
    ensures now == After(t, mode, recs, rows) && updated == Written(t, mode, recs, rows)
    ensures forall k :: 0 <= k < |recs| ==> !FailsAt(t, mode, recs, rows, k)
  {
    hide After, Written, FailsAt;
    assert recs[..|recs|] == recs;
  }

  /** Insert or update the rows of one statement; the first error stops it. */
  method ExecInsert(tx: KVTX, t: TableDef, recs: seq<Record>, mode: Mode, ghost rows: map<seq<Value>, Row>) returns (out: StmtOut)
    requires Usable(tx) && Stores(tx.Sees(), t, rows) && Full(recs)
    modifies tx`arrays, tx`deps, tx`ops, tx`updateAttempted, tx.pending
    modifies tx.pending.store`mem, tx.pending.store`page, tx.pending.store`free, tx.pending.store`ledger
    ensures TableOK(t) && (!out.Over? ==> Usable(tx) && KeepsMarks(tx) && OnlyTable(t, old(tx.Sees()), tx.Sees()))
    ensures out.Finished? ==>
              && Stores(tx.Sees(), t, After(t, mode, recs, rows))
              && out.added <= out.updated == Written(t, mode, recs, rows) && |After(t, mode, recs, rows)| == |rows| + out.added
              && (mode == InsertOnly ==> out.added == |recs|)
    ensures out.Failed? <==> !out.Over? && exists n :: 0 <= n < |recs| && FailsAt(t, mode, recs, rows, n)
    ensures out.Over? ==> exists n :: 0 <= n < |recs| && CrowdedAt(tx.pending, t, mode, recs, rows, n)
  {
    hide Usable, Stores, KVTX.Sees, KVTX.Known, KVTX.Live, OnlyTable, With, RowOf, Fails, Writes, Whole, Crowded, TableOK, Progress, After, Written,
      FailsAt, CrowdedAt;
    ghost var m := tx.Sees();
    StoresTable(m, t, rows);
    OnlyTableNone(t, m);
    ProgressNone(t, mode, recs, rows);
    ghost var now := rows;
    var added, updated := 0, 0;
    for n := 0 to |recs|
      invariant Usable(tx) && KeepsMarks(tx) && OnlyTable(t, m, tx.Sees()) && Stores(tx.Sees(), t, now)
      invariant Progress(t, mode, recs, rows, n, now, updated)
      invariant added <= updated && |now| == |rows| + added && (mode == InsertOnly ==> added == n)
    {
      ghost var m1 := tx.Sees();
      var res := SetRow(tx, t, recs[n], mode, now);
      ProgressNow(t, mode, recs, rows, n, now, updated, tx.pending);
      if res.PageOut? {
        return Over;
      }
      OnlyTableChain(t, m, m1, tx.Sees());
      if !res.RowChanged? && !res.RowUnchanged? {
        return StmtOut.Failed;
      }
      ProgressStep(t, mode, recs, rows, n, now, updated);
      if res.RowChanged? {
        added, updated := added + (if res.added then 1 else 0), updated + 1;
      }
      now := With(t, mode, RowOf(t, recs[n]), now);
    }
    ProgressAll(t, mode, recs, rows, now, updated);
    out := Finished(added, updated);
  }

  lemma LiveKnown(tx: KVTX, saved: TXSaved, mark: Mark)
    requires tx.Live(saved, mark)
    ensures tx.Known(saved, mark) && tx.CanRevert(saved, mark) && NotAhead(saved.deps, tx.deps)
  {
    hide KnownIn;
  }

  /** Undo a statement; the save points taken before it stay usable. */
  method Undo(tx: KVTX, saved: TXSaved, ghost mark: Mark)
    requires Usable(tx) && tx.Live(saved, mark)
    modifies tx`deps, tx`ops, tx.pending, tx.pending.store`ledger
    ensures Usable(tx) && tx.ops == mark.ops
    ensures forall s, k :: old(tx.Known(s, k)) ==> tx.Known(s, k)
    ensures forall s, k :: old(tx.Live(s, k)) && NotAhead(s.deps, saved.deps) ==> tx.Live(s, k)
  {
    hide KVTX.Own, BTree.Readable, KVTX.CanRevert, KVTX.Known, KVTX.Live;
    forall s, k | tx.Live(s, k) ensures tx.CanRevert(s, k) && tx.Known(s, k) {
      LiveKnown(tx, s, k);
    }
    Apart(tx);
    tx.Revert(saved, mark);
  }

  /**
   * Execute a statement: on an error everything it has written is undone, and the table is as before. Other
   * tables are not touched either way, and save points taken before stay usable.
   */
  method ExecStmt(tx: KVTX, t: TableDef, recs: seq<Record>, mode: Mode, ghost rows: map<seq<Value>, Row>) returns (out: StmtOut)
    requires Usable(tx) && Stores(tx.Sees(), t, rows) && Full(recs)
    modifies tx`arrays, tx`deps, tx`ops, tx`updateAttempted, tx.pending
    modifies tx.pending.store`mem, tx.pending.store`page, tx.pending.store`free, tx.pending.store`ledger
    ensures TableOK(t) && (!out.Over? ==> Usable(tx) && KeepsMarks(tx) && OnlyTable(t, old(tx.Sees()), tx.Sees()))
    ensures out.Finished? ==>
              && Stores(tx.Sees(), t, After(t, mode, recs, rows))
              && out.added <= out.updated == Written(t, mode, recs, rows) && |After(t, mode, recs, rows)| == |rows| + out.added
              && (mode == InsertOnly ==> out.added == |recs|)
    ensures out.Failed? <==> !out.Over? && exists n :: 0 <= n < |recs| && FailsAt(t, mode, recs, rows, n)
    ensures out.Over? ==> exists n :: 0 <= n < |recs| && CrowdedAt(tx.pending, t, mode, recs, rows, n)
    ensures out.Failed? ==> tx.ops == old(tx.ops) && tx.Sees() == old(tx.Sees()) && Stores(tx.Sees(), t, rows)
  {
    hide KVTX.Own, BTree.Readable, Stores, OnlyTable, KVTX.CanRevert, KVTX.Known, KVTX.Live, After, Run, FailsAt, Written, CrowdedAt, TableOK;
    OnlyTableNone(t, tx.Sees());
    Apart(tx);
    var saved;
    ghost var mark;
    saved, mark := tx.Save();
    forall s, k | tx.Live(s, k) ensures NotAhead(s.deps, saved.deps) {
      LiveKnown(tx, s, k);
    }
    out := ExecInsert(tx, t, recs, mode, rows);
    if out.Failed? {
      Undo(tx, saved, mark);
    }
  }
}
