/** What the recorded writes of committed transactions mean: the keys on which two versions differ, no more and no less. */
module Histories {
  import opened Bytes
  import opened Conflicts
  import opened Serial
  import opened Snapshots
  import opened Commits
  import opened Transfer

  /** The map of version `v`: the result of the transactions that it includes. */
  ghost function MapAt(memo: Memo, v: nat): map<Bytes, Bytes> {
    if v in memo.points && memo.points[v] <= |memo.journal| then RunAll(memo.origin, memo.journal[..memo.points[v]]) else map[]
  }

  /** The commit that made version `v` changed the key. */
  ghost predicate Changed(memo: Memo, v: nat, k: Bytes) {
    v > 0 && !SameAt(MapAt(memo, v - 1), MapAt(memo, v), k)
  }

  /** One of the versions after `u`, up to `version`, changed a key inside the dependencies. */
  ghost predicate Touched(memo: Memo, u: nat, version: nat, deps: seq<KeyRange>) {
    exists v, k :: u < v <= version && InReads(k, deps) && Changed(memo, v, k)
  }

  /** The entry records exactly the keys that its version changed, each as a point. */
  ghost predicate EntryExact(memo: Memo, e: CommittedTX) {
    && e.version > 0 && e.version - 1 in memo.points && e.version in memo.points
    && RecordsDiff(e.writes, MapAt(memo, e.version - 1), MapAt(memo, e.version))
  }

  ghost predicate Traced(memo: Memo, version: nat, history: seq<CommittedTX>) {
    && (forall v :: v in memo.points ==> v <= version && memo.points[v] <= |memo.journal|)
    && (forall e :: e in history ==> EntryExact(memo, e))
  }

  lemma TracedNone(memo: Memo, version: nat)
    requires memo.points == map[version := 0]
    ensures Traced(memo, version, [])
  {
  }

  /** Neither forgetting entries nor forgetting versions does harm. */
  lemma TracedLess(memo: Memo, version: nat, history: seq<CommittedTX>, memo': Memo, history': seq<CommittedTX>)
    requires Traced(memo, version, history) && forall e :: e in history' ==> e in history
    requires memo'.points == memo.points && memo'.journal == memo.journal && memo'.origin == memo.origin
    ensures Traced(memo', version, history')
  {
    hide RunAll, RecordsDiff;
    forall e | e in history' ensures EntryExact(memo', e) {
      assert EntryExact(memo, e);
    }
  }

  /** One more transaction leaves the maps of the versions alone. */
  lemma SameMapAt(memo: Memo, ops: seq<Op>, memo': Memo, v: nat)
    requires v in memo.points && v in memo'.points && memo'.points[v] == memo.points[v] <= |memo.journal|
    requires memo'.journal == memo.journal + [ops] && memo'.origin == memo.origin
    ensures MapAt(memo', v) == MapAt(memo, v)
  {
    hide RunAll;
    assert memo'.journal[..memo.points[v]] == memo.journal[..memo.points[v]];
  }

  lemma TracedMore(memo: Memo, version: nat, history: seq<CommittedTX>, ops: seq<Op>, memo': Memo)
    requires Traced(memo, version, history)
    requires memo'.journal == memo.journal + [ops] && memo'.origin == memo.origin
    requires memo'.points == memo.points || memo'.points == memo.points[version + 1 := |memo.journal| + 1]
    ensures Traced(memo', if memo'.points == memo.points then version else version + 1, history)
  {
    hide RunAll, RecordsDiff, MapAt;
    forall e | e in history ensures EntryExact(memo', e) {
      assert EntryExact(memo, e);
      SameMapAt(memo, ops, memo', e.version - 1);
      SameMapAt(memo, ops, memo', e.version);
    }
  }

  /** The map of the current version, before and after a commit. */
  lemma CommitMaps(memo: Memo, v: nat, ops: seq<Op>, memo': Memo)
    requires Serialized(memo, v) && Traced(memo, v, [])
    requires memo'.journal == memo.journal + [ops] && memo'.origin == memo.origin && memo'.points == memo.points[v + 1 := |memo.journal| + 1]
    ensures MapAt(memo', v) == SnapMap(memo.snaps[v]) && MapAt(memo', v + 1) == Run(SnapMap(memo.snaps[v]), ops)
  {
    hide SnapMap, SerialRun, RunAll, Run;
    RunAllMore(memo.origin, memo.journal, ops);
    SameMapAt(memo, ops, memo', v);
    assert memo'.journal[..|memo.journal| + 1] == memo'.journal;
  }

  /** A commit that records exactly what it changes, or nothing. */
  lemma TracedCommit(memo: Memo, v: nat, history: seq<CommittedTX>, ops: seq<Op>, memo': Memo, writes: seq<KeyRange>)
    requires Serialized(memo, v) && Traced(memo, v, history)
    requires memo'.journal == memo.journal + [ops] && memo'.origin == memo.origin && memo'.points == memo.points[v + 1 := |memo.journal| + 1]
    requires writes != [] ==> RecordsDiff(writes, SnapMap(memo.snaps[v]), Run(SnapMap(memo.snaps[v]), ops))
    ensures Traced(memo', v + 1, NextHistory(history, v + 1, writes))
  {
    hide SnapMap, SerialRun, RunAll, Run, RecordsDiff, MapAt;
    TracedMore(memo, v, history, ops, memo');
    CommitMaps(memo, v, ops, memo');
    var e := CommittedTX(v + 1, writes);
    assert writes != [] ==> EntryExact(memo', e);
  }

  /** A conflict is exactly a dependency that a newer version has changed. */
  lemma ConflictExact(memo: Memo, version: nat, history: seq<CommittedTX>, u: nat, deps: seq<KeyRange>)
    requires Traced(memo, version, history) && HistoryOK(history, version) && Unbroken(history, u, version)
    ensures Conflicting(history, u, deps) <==> Touched(memo, u, version, deps)
  {
    hide MapAt, SameAt, ByStart, Inside, Overlaps;
    if Conflicting(history, u, deps) {
      var i :| 0 <= i < |history| && u < history[i].version && AnyOverlap(deps, history[i].writes);
      var e := history[i];
      assert e in history && EntryExact(memo, e);
      var r, w :| r in deps && w in e.writes && Overlaps(r, w);
      var k :| w == Point(k);
      PointOverlaps(r, k);
      assert InReads(k, deps) && Changed(memo, e.version, k);
    }
    if Touched(memo, u, version, deps) {
      var v, k :| u < v <= version && InReads(k, deps) && Changed(memo, v, k);
      assert EntryFor(history, v);
      var i :| 0 <= i < |history| && history[i].version == v;
      assert history[i] in history && EntryExact(memo, history[i]);
      assert Recorded(history, u, k);
      RecordedConflicts(history, u, deps, k);
    }
  }
}
