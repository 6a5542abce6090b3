/** Conflict detection: read ranges against the writes that newer committed transactions left in the history. */
module Conflicts {
  import opened Bytes
  import opened SortedSeq

  /** All keys from `start` to `stop`, both included; empty when `stop` is before `start`. */
  datatype KeyRange = KeyRange(start: Bytes, stop: Bytes)

  /** The changes of a committed transaction. */
  datatype CommittedTX = CommittedTX(version: nat, writes: seq<KeyRange>)

  predicate VersionBefore(a: nat, b: nat) {
    a < b
  }

  predicate Inside(k: Bytes, r: KeyRange) {
    Le(r.start, k) && Le(k, r.stop)
  }

  function Point(k: Bytes): KeyRange {
    KeyRange(k, k)
  }

  /** Neither range ends before the other starts. */
  ghost predicate Overlaps(a: KeyRange, b: KeyRange) {
    Le(b.start, a.stop) && Le(a.start, b.stop)
  }

  ghost predicate AnyOverlap(r1: seq<KeyRange>, r2: seq<KeyRange>) {
    exists a, b :: a in r1 && b in r2 && Overlaps(a, b)
  }

  ghost predicate ByStart(rs: seq<KeyRange>) {
    forall i, j :: 0 <= i < j < |rs| ==> Le(rs[i].start, rs[j].start)
  }

  /** The two-pointer check is exact for lists sorted by start, whatever their stops are. */
  method SortedRangesOverlap(r1: seq<KeyRange>, r2: seq<KeyRange>) returns (yes: bool)
    requires ByStart(r1) && ByStart(r2)
    ensures yes <==> AnyOverlap(r1, r2)
  {
    hide Compare, Le, Lt, AnyOverlap;
    var i1, i2 := 0, 0;
    while i1 < |r1| && i2 < |r2|
      invariant i1 <= |r1| && i2 <= |r2|
      invariant forall i, j :: 0 <= i < |r1| && 0 <= j < |r2| && (i < i1 || j < i2) ==> !Overlaps(r1[i], r2[j])
      decreases |r1| - i1 + |r2| - i2
    {
      var a, b := r1[i1], r2[i2];
      LtNotGe(a.stop, b.start);
      LtNotGe(b.stop, a.start);
      if Lt(a.stop, b.start) {
        forall j | i2 <= j < |r2| ensures !Overlaps(a, r2[j]) {
          Apart(a.stop, b.start, r2[j].start, j == i2);
        }
        i1 := i1 + 1;
      } else if Lt(b.stop, a.start) {
        forall i | i1 <= i < |r1| ensures !Overlaps(r1[i], b) {
          Apart(b.stop, a.start, r1[i].start, i == i1);
        }
        i2 := i2 + 1;
      } else {
        Overlapping(r1, r2, i1, i2);
        return true;
      }
    }
    NoOverlap(r1, r2);
    return false;
  }

  lemma Apart(stop: Bytes, start: Bytes, later: Bytes, same: bool)
    requires Lt(stop, start) && if same then later == start else Le(start, later)
    ensures !Le(later, stop)
  {
    if !same {
      LeLtTransitive(stop, start, later);
    }
    LtNotGe(stop, later);
  }

  lemma Overlapping(r1: seq<KeyRange>, r2: seq<KeyRange>, i: nat, j: nat)
    requires i < |r1| && j < |r2| && Overlaps(r1[i], r2[j])
    ensures AnyOverlap(r1, r2)
  {
  }

  lemma NoOverlap(r1: seq<KeyRange>, r2: seq<KeyRange>)
    requires forall i, j :: 0 <= i < |r1| && 0 <= j < |r2| ==> !Overlaps(r1[i], r2[j])
    ensures !AnyOverlap(r1, r2)
  {
  }

  /** A point lies in a range exactly if the two overlap, inverted ranges included. */
  lemma PointOverlaps(r: KeyRange, k: Bytes)
    ensures Overlaps(r, Point(k)) <==> Inside(k, r)
  {
  }

  // ---- sorting ----

  ghost predicate Insertable(rs: seq<KeyRange>, at: nat, r: KeyRange) {
    && at <= |rs|
    && (forall i :: 0 <= i < at ==> Le(rs[i].start, r.start))
    && (forall i :: at <= i < |rs| ==> Le(r.start, rs[i].start))
  }

  /** Sort ranges by start, keeping every range. */
  method SortRanges(rs: seq<KeyRange>) returns (sorted: seq<KeyRange>)
    ensures ByStart(sorted) && multiset(sorted) == multiset(rs)
  {
    hide Compare, Le;
    sorted := [];
    for n := 0 to |rs|
      invariant ByStart(sorted) && multiset(sorted) == multiset(rs[..n])
    {
      var at := InsertAt(sorted, rs[n]);
      Inserted(sorted, at, rs[n]);
      assert sorted == sorted[..at] + sorted[at..];
      assert rs[..n + 1] == rs[..n] + [rs[n]];
      sorted := sorted[..at] + [rs[n]] + sorted[at..];
    }
    assert rs[..|rs|] == rs;
  }

  method InsertAt(rs: seq<KeyRange>, r: KeyRange) returns (at: nat)
    requires ByStart(rs)
    ensures Insertable(rs, at, r)
  {
    hide Compare, Le, Lt;
    at := |rs|;
    while at > 0 && Lt(r.start, rs[at - 1].start)
      invariant at <= |rs|
      invariant forall i :: at <= i < |rs| ==> Le(r.start, rs[i].start)
    {
      StrictlyBelow(r.start, rs[at - 1].start);
      at := at - 1;
    }
    if at > 0 {
      LtNotGe(r.start, rs[at - 1].start);
      forall i | 0 <= i < at ensures Le(rs[i].start, r.start) {
        if i < at - 1 {
          LeLtTransitive(rs[i].start, rs[at - 1].start, r.start);
        }
      }
    }
  }

  lemma StrictlyBelow(a: Bytes, b: Bytes)
    requires Lt(a, b)
    ensures Le(a, b)
  {
  }

  lemma Inserted(rs: seq<KeyRange>, at: nat, r: KeyRange)
    requires ByStart(rs) && Insertable(rs, at, r)
    ensures ByStart(rs[..at] + [r] + rs[at..])
  {
    hide Compare, Le;
  }

  // ---- the history ----

  ghost predicate Ascending(history: seq<CommittedTX>) {
    forall i, j :: 0 <= i < j < |history| ==> history[i].version < history[j].version
  }

  ghost predicate HistoryOK(history: seq<CommittedTX>, version: nat) {
    && Ascending(history)
    && (forall i :: 0 <= i < |history| ==> history[i].version <= version && ByStart(history[i].writes))
  }

  /** Some range in `deps` was written by a version newer than `version`. */
  ghost predicate Conflicting(history: seq<CommittedTX>, version: nat, deps: seq<KeyRange>) {
    exists i :: 0 <= i < |history| && version < history[i].version && AnyOverlap(deps, history[i].writes)
  }

  /** Search the history from its newest entry down to `version`. */
  method DetectConflicts(history: seq<CommittedTX>, version: nat, deps: seq<KeyRange>, ghost current: nat)
    returns (sorted: seq<KeyRange>, conflict: bool)
    requires HistoryOK(history, current)
    ensures multiset(sorted) == multiset(deps) && ByStart(sorted)
    ensures conflict <==> Conflicting(history, version, deps)
  {
    hide ByStart, AnyOverlap;
    sorted := SortRanges(deps);
    var i := |history|;
    while i > 0
      invariant 0 <= i <= |history|
      invariant forall j :: i <= j < |history| ==> version < history[j].version && !AnyOverlap(deps, history[j].writes)
    {
      i := i - 1;
      if !VersionBefore(version, history[i].version) {
        return sorted, false;
      }
      var found := SortedRangesOverlap(sorted, history[i].writes);
      SameRanges(sorted, deps, history[i].writes);
      if found {
        return sorted, true;
      }
    }
    return sorted, false;
  }

  lemma SameRanges(sorted: seq<KeyRange>, deps: seq<KeyRange>, writes: seq<KeyRange>)
    requires multiset(sorted) == multiset(deps)
    ensures AnyOverlap(sorted, writes) == AnyOverlap(deps, writes)
  {
    SameElements(sorted, deps);
  }

  lemma SameLength<T>(a: seq<T>, b: seq<T>)
    requires multiset(a) == multiset(b)
    ensures |a| == |b|
  {
    assert |multiset(a)| == |a| && |multiset(b)| == |b|;
  }

  lemma SameElements<T>(a: seq<T>, b: seq<T>)
    requires multiset(a) == multiset(b)
    ensures forall x :: x in a <==> x in b
  {
    forall x ensures x in a <==> x in b {
      assert x in a <==> x in multiset(a);
      assert x in b <==> x in multiset(b);
    }
  }

  // ---- the history is sufficient ----

  /** Version newer than `v` has recorded a write of `k`. */
  ghost predicate Recorded(history: seq<CommittedTX>, v: nat, k: Bytes) {
    exists i :: 0 <= i < |history| && v < history[i].version && Point(k) in history[i].writes
  }

  ghost predicate SameAt(a: map<Bytes, Bytes>, b: map<Bytes, Bytes>, k: Bytes) {
    (k in a <==> k in b) && (k in a ==> a[k] == b[k])
  }

  /** Every key on which `then_` and `now` differ was recorded after version `v`. */
  ghost predicate Sufficient(history: seq<CommittedTX>, v: nat, before: map<Bytes, Bytes>, now: map<Bytes, Bytes>) {
    forall k :: !SameAt(before, now, k) ==> Recorded(history, v, k)
  }

  /** The history has an entry for version `v`. */
  ghost predicate EntryFor(history: seq<CommittedTX>, v: nat) {
    exists i :: 0 <= i < |history| && history[i].version == v
  }

  /** It has one for every version after `u`. */
  ghost predicate Unbroken(history: seq<CommittedTX>, u: nat, version: nat) {
    forall v :: u < v <= version ==> EntryFor(history, v)
  }

  lemma UnbrokenNext(history: seq<CommittedTX>, u: nat, version: nat, entry: CommittedTX)
    requires Unbroken(history, u, version) && entry.version == version + 1
    ensures Unbroken(history + [entry], u, version + 1)
  {
    var more := history + [entry];
    forall v | u < v <= version + 1 ensures EntryFor(more, v) {
      if v <= version {
        assert EntryFor(history, v);
        var i :| 0 <= i < |history| && history[i].version == v;
        assert more[i] == history[i];
      } else {
        assert more[|history|] == entry;
      }
    }
  }

  ghost predicate InReads(k: Bytes, deps: seq<KeyRange>) {
    exists r :: r in deps && Inside(k, r)
  }

  /** Without a conflict, everything that was read is still the same. */
  lemma NoConflictSame(history: seq<CommittedTX>, v: nat, deps: seq<KeyRange>, before: map<Bytes, Bytes>, now: map<Bytes, Bytes>)
    requires Sufficient(history, v, before, now) && !Conflicting(history, v, deps)
    ensures forall k :: InReads(k, deps) ==> SameAt(before, now, k)
  {
    hide Compare, Le, SameAt;
    forall k | InReads(k, deps) ensures SameAt(before, now, k) {
      if !SameAt(before, now, k) {
        RecordedConflicts(history, v, deps, k);
        assert false;
      }
    }
  }

  lemma RecordedConflicts(history: seq<CommittedTX>, v: nat, deps: seq<KeyRange>, k: Bytes)
    requires Recorded(history, v, k) && InReads(k, deps)
    ensures Conflicting(history, v, deps)
  {
    hide Compare, Le, Overlaps, Inside;
    var i :| 0 <= i < |history| && v < history[i].version && Point(k) in history[i].writes;
    var r :| r in deps && Inside(k, r);
    PointOverlaps(r, k);
    assert AnyOverlap(deps, history[i].writes);
  }

  /** Drop what no ongoing transaction can conflict with. */
  method TrimHistory(history: seq<CommittedTX>, minVersion: nat, ghost current: nat) returns (trimmed: seq<CommittedTX>)
    requires HistoryOK(history, current)
    ensures HistoryOK(trimmed, current)
    ensures forall v, k :: minVersion <= v && Recorded(history, v, k) ==> Recorded(trimmed, v, k)
    ensures forall e :: e in trimmed <==> e in history && minVersion < e.version
    ensures forall u :: minVersion <= u && Unbroken(history, u, current) ==> Unbroken(trimmed, u, current)
  {
    hide ByStart;
    var idx := 0;
    while idx < |history| && !VersionBefore(minVersion, history[idx].version)
      invariant idx <= |history|
      invariant forall i :: 0 <= i < idx ==> history[i].version <= minVersion
    {
      idx := idx + 1;
    }
    trimmed := history[idx..];
    Trimmed(history, idx, minVersion);
    forall u | minVersion <= u && Unbroken(history, u, current) ensures Unbroken(trimmed, u, current) {
      KeptEntries(history, trimmed, minVersion, u, current);
    }
    forall v, k | minVersion <= v && Recorded(history, v, k) ensures Recorded(trimmed, v, k) {
      var i :| 0 <= i < |history| && v < history[i].version && Point(k) in history[i].writes;
      assert trimmed[i - idx] == history[i];
    }
  }

  lemma Trimmed(history: seq<CommittedTX>, idx: nat, minVersion: nat)
    requires Ascending(history) && idx <= |history| && forall i :: 0 <= i < idx ==> history[i].version <= minVersion
    requires idx < |history| ==> minVersion < history[idx].version
    ensures forall e :: e in history[idx..] <==> e in history && minVersion < e.version
  {
    forall e | e in history && minVersion < e.version ensures e in history[idx..] {
      var i :| 0 <= i < |history| && history[i] == e;
      assert history[idx..][i - idx] == e;
    }
  }

  lemma KeptEntries(history: seq<CommittedTX>, trimmed: seq<CommittedTX>, minVersion: nat, u: nat, version: nat)
    requires minVersion <= u && Unbroken(history, u, version)
    requires forall e :: e in history && minVersion < e.version ==> e in trimmed
    ensures Unbroken(trimmed, u, version)
  {
    forall v | u < v <= version ensures EntryFor(trimmed, v) {
      assert EntryFor(history, v);
      var i :| 0 <= i < |history| && history[i].version == v;
      assert history[i] in trimmed;
    }
  }

  /** A new entry records the new differences. */
  lemma SufficientMore(history: seq<CommittedTX>, v: nat, before: map<Bytes, Bytes>, mid: map<Bytes, Bytes>, now: map<Bytes, Bytes>,
                       entry: CommittedTX)
    requires Sufficient(history, v, before, mid) && v < entry.version
    requires forall k :: !SameAt(mid, now, k) ==> Point(k) in entry.writes
    ensures Sufficient(history + [entry], v, before, now)
  {
    var more := history + [entry];
    forall k | !SameAt(before, now, k) ensures Recorded(more, v, k) {
      if SameAt(mid, now, k) {
        assert Recorded(history, v, k);
        var i :| 0 <= i < |history| && v < history[i].version && Point(k) in history[i].writes;
        assert more[i] == history[i];
      } else {
        assert more[|history|] == entry;
      }
    }
  }

  /** The least of the current version and the ongoing ones. */
  ghost predicate Oldest(v: nat, ongoing: seq<nat>, version: nat) {
    && v <= version && (forall i :: 0 <= i < |ongoing| ==> v <= ongoing[i])
    && (v == version || v in ongoing)
  }

  /** Everything is released that only older versions need: `maxVer` is the oldest version in use, and no entry is that old. */
  ghost predicate Tidy(maxVer: nat, ongoing: seq<nat>, version: nat, history: seq<CommittedTX>) {
    Oldest(maxVer, ongoing, version) && forall e :: e in history ==> maxVer < e.version
  }

  /** The oldest version that is still in use. */
  method OldestVersion(ongoing: seq<nat>, version: nat) returns (oldest: nat)
    ensures Oldest(oldest, ongoing, version)
  {
    oldest := version;
    for n := 0 to |ongoing|
      invariant oldest <= version && forall i :: 0 <= i < n ==> oldest <= ongoing[i]
      invariant oldest == version || oldest in ongoing
    {
      if VersionBefore(ongoing[n], oldest) {
        oldest := ongoing[n];
      }
    }
  }
}
