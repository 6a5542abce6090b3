/** The merge of two ordered runs of entries: what the combined cursor of a transaction yields. */
module Merged {
  import opened Bytes
  import opened SortedSeq
  import opened BTrees
  import opened Cursors
  import opened Serial

  datatype Pair = Pair(key: Bytes, val: Bytes)

  /** `a` comes before `b` in the scan direction. */
  ghost predicate Before(asc: bool, a: Bytes, b: Bytes) {
    if asc then Lt(a, b) else Lt(b, a)
  }

  /** The value behind the flag byte; empty for a deletion. */
  function Stripped(v: Bytes): Bytes {
    if v == [] then [] else v[1..]
  }

  /** The entries that a cursor at position `i` has before it; position 0 is the sentinel. */
  ghost function Ahead(s: seq<Entry>, i: nat, asc: bool): seq<Entry> {
    if i == 0 || i >= |s| then []
    else if asc then s[i..]
    else [s[i]] + Ahead(s, i - 1, asc)
  }

  ghost predicate Ordered(s: seq<Entry>, asc: bool) {
    forall i, j :: 0 <= i < j < |s| ==> Before(asc, s[i].key, s[j].key)
  }

  /** Pending entries `a` over snapshot entries `b`: the nearer key first, pending wins on equal keys. */
  ghost function Merge(a: seq<Entry>, b: seq<Entry>, asc: bool): seq<Pair> {
    if a == [] && b == [] then []
    else if a == [] then [Pair(b[0].key, b[0].val)] + Merge(a, b[1..], asc)
    else if b == [] then [Pair(a[0].key, Stripped(a[0].val))] + Merge(a[1..], b, asc)
    else if a[0].key == b[0].key then [Pair(a[0].key, Stripped(a[0].val))] + Merge(a[1..], b[1..], asc)
    else if Before(asc, a[0].key, b[0].key) then [Pair(a[0].key, Stripped(a[0].val))] + Merge(a[1..], b, asc)
    else [Pair(b[0].key, b[0].val)] + Merge(a, b[1..], asc)
  }

  ghost predicate OrderedPairs(out: seq<Pair>, asc: bool) {
    forall i, j :: 0 <= i < j < |out| ==> Before(asc, out[i].key, out[j].key)
  }

  /** The map of a run of entries, and of a run of pairs. */
  ghost function SeqMap(s: seq<Entry>): map<Bytes, Bytes> {
    if s == [] then map[] else SeqMap(s[1..])[s[0].key := s[0].val]
  }

  ghost function PairMap(out: seq<Pair>): map<Bytes, Bytes> {
    if out == [] then map[] else PairMap(out[1..])[out[0].key := out[0].val]
  }

  /** Pending values over snapshot values; a deletion stays visible, with an empty value. */
  ghost function Over(p: map<Bytes, Bytes>, m: map<Bytes, Bytes>): map<Bytes, Bytes> {
    map k | k in p.Keys + m.Keys :: if k in p then Stripped(p[k]) else m[k]
  }

  lemma BeforeFacts(asc: bool, a: Bytes, b: Bytes, c: Bytes)
    ensures Before(asc, a, b) && Before(asc, b, c) ==> Before(asc, a, c)
    ensures Before(asc, a, b) ==> a != b && !Before(asc, b, a)
    ensures a != b ==> Before(asc, a, b) || Before(asc, b, a)
  {
    CompareAntisymmetric(a, b);
    if Before(asc, a, b) && Before(asc, b, c) {
      if asc {
        LeLtTransitive(a, b, c);
      } else {
        LeLtTransitive(c, b, a);
      }
    }
  }

  /** Everything in `s` comes after `x`. */
  ghost predicate After(s: seq<Entry>, asc: bool, x: Bytes) {
    forall i :: 0 <= i < |s| ==> Before(asc, x, s[i].key)
  }

  lemma HeadFirst(s: seq<Entry>, asc: bool, x: Bytes)
    requires Ordered(s, asc) && s != []
    ensures Ordered(s[1..], asc) && After(s[1..], asc, s[0].key)
    ensures Before(asc, x, s[0].key) ==> After(s, asc, x)
  {
    hide Before;
    forall i | 0 <= i < |s| ensures Before(asc, x, s[0].key) ==> Before(asc, x, s[i].key) {
      BeforeFacts(asc, x, s[0].key, s[i].key);
    }
  }

  lemma {:induction false} NotAfter(s: seq<Entry>, asc: bool, x: Bytes)
    requires After(s, asc, x)
    ensures x !in SeqMap(s)
    decreases |s|
  {
    hide Before;
    if s != [] {
      BeforeFacts(asc, x, s[0].key, x);
      NotAfter(s[1..], asc, x);
    }
  }

  lemma {:induction false} MergeAfter(a: seq<Entry>, b: seq<Entry>, asc: bool, x: Bytes)
    requires After(a, asc, x) && After(b, asc, x)
    ensures forall i :: 0 <= i < |Merge(a, b, asc)| ==> Before(asc, x, Merge(a, b, asc)[i].key)
    decreases |a| + |b|
  {
    hide Before;
    if a != [] {
      MergeAfter(a[1..], b, asc, x);
    }
    if b != [] {
      MergeAfter(a, b[1..], asc, x);
    }
    if a != [] && b != [] {
      MergeAfter(a[1..], b[1..], asc, x);
    }
  }

  lemma ConsOrdered(first: Pair, rest: seq<Pair>, asc: bool)
    requires OrderedPairs(rest, asc) && forall i :: 0 <= i < |rest| ==> Before(asc, first.key, rest[i].key)
    ensures OrderedPairs([first] + rest, asc)
  {
  }

  lemma ConsMap(first: Pair, rest: seq<Pair>)
    ensures PairMap([first] + rest) == PairMap(rest)[first.key := first.val]
  {
    assert ([first] + rest)[1..] == rest;
  }

  /** The merge yields every key of either run once, in scan direction, with the pending value if there is one. */
  lemma {:induction false} MergeExact(a: seq<Entry>, b: seq<Entry>, asc: bool)
    requires Ordered(a, asc) && Ordered(b, asc)
    ensures OrderedPairs(Merge(a, b, asc), asc)
    ensures PairMap(Merge(a, b, asc)) == Over(SeqMap(a), SeqMap(b))
    decreases |a| + |b|
  {
    hide Before, PairMap, OrderedPairs, Ordered, After;
    if a == [] && b == [] {
      NothingMerged(asc);
    } else if b == [] || (a != [] && (a[0].key == b[0].key || Before(asc, a[0].key, b[0].key))) {
      TopFirst(a, b, asc);
      var b' := if b != [] && a[0].key == b[0].key then b[1..] else b;
      MergeExact(a[1..], b', asc);
      ConsOrdered(Pair(a[0].key, Stripped(a[0].val)), Merge(a[1..], b', asc), asc);
      ConsMap(Pair(a[0].key, Stripped(a[0].val)), Merge(a[1..], b', asc));
    } else {
      BottomFirst(a, b, asc);
      MergeExact(a, b[1..], asc);
      ConsOrdered(Pair(b[0].key, b[0].val), Merge(a, b[1..], asc), asc);
      ConsMap(Pair(b[0].key, b[0].val), Merge(a, b[1..], asc));
    }
  }

  lemma NothingMerged(asc: bool)
    ensures OrderedPairs(Merge([], [], asc), asc) && PairMap(Merge([], [], asc)) == Over(SeqMap([]), SeqMap([]))
  {
  }

  lemma TopFirst(a: seq<Entry>, b: seq<Entry>, asc: bool)
    requires Ordered(a, asc) && Ordered(b, asc) && a != []
    requires b == [] || a[0].key == b[0].key || Before(asc, a[0].key, b[0].key)
    ensures var b' := if b != [] && a[0].key == b[0].key then b[1..] else b;
            && Ordered(a[1..], asc) && Ordered(b', asc)
            && Merge(a, b, asc) == [Pair(a[0].key, Stripped(a[0].val))] + Merge(a[1..], b', asc)
            && (forall i :: 0 <= i < |Merge(a[1..], b', asc)| ==> Before(asc, a[0].key, Merge(a[1..], b', asc)[i].key))
            && Over(SeqMap(a), SeqMap(b)) == Over(SeqMap(a[1..]), SeqMap(b'))[a[0].key := Stripped(a[0].val)]
  {
    hide Before, Ordered, After;
    var b' := if b != [] && a[0].key == b[0].key then b[1..] else b;
    HeadFirst(a, asc, a[0].key);
    if b != [] {
      HeadFirst(b, asc, a[0].key);
    } else {
      NoneAfter(asc, a[0].key);
    }
    MergeAfter(a[1..], b', asc, a[0].key);
  }

  lemma NoneAfter(asc: bool, x: Bytes)
    ensures After([], asc, x)
  {
  }

  lemma BottomFirst(a: seq<Entry>, b: seq<Entry>, asc: bool)
    requires Ordered(a, asc) && Ordered(b, asc) && b != []
    requires a == [] || (a[0].key != b[0].key && !Before(asc, a[0].key, b[0].key))
    ensures Ordered(b[1..], asc)
    ensures Merge(a, b, asc) == [Pair(b[0].key, b[0].val)] + Merge(a, b[1..], asc)
    ensures forall i :: 0 <= i < |Merge(a, b[1..], asc)| ==> Before(asc, b[0].key, Merge(a, b[1..], asc)[i].key)
    ensures Over(SeqMap(a), SeqMap(b)) == Over(SeqMap(a), SeqMap(b[1..]))[b[0].key := b[0].val]
  {
    hide Before, Ordered, After;
    HeadFirst(b, asc, b[0].key);
    if a != [] {
      BeforeFacts(asc, a[0].key, b[0].key, a[0].key);
      HeadFirst(a, asc, b[0].key);
    } else {
      NoneAfter(asc, b[0].key);
    }
    NotAfter(a, asc, b[0].key);
    MergeAfter(a, b[1..], asc, b[0].key);
  }

  // ---- where the runs start and stop ----

  lemma {:induction false} AheadDown(s: seq<Entry>, i: nat)
    requires i < |s|
    ensures |Ahead(s, i, false)| == i
    ensures forall j :: 0 <= j < i ==> Ahead(s, i, false)[j] == s[i - j]
    decreases i
  {
    if i > 0 {
      AheadDown(s, i - 1);
    }
  }

  /** The entries ahead are those on one side of position `i`, without the sentinel. */
  lemma AheadIs(s: seq<Entry>, i: nat, asc: bool)
    requires Sorted(s) && (if asc then 0 < i <= |s| else i < |s|)
    ensures Ordered(Ahead(s, i, asc), asc)
    ensures forall j :: 0 <= j < |s| ==> (s[j] in Ahead(s, i, asc) <==> if asc then i <= j else 0 < j <= i)
    ensures forall e :: e in Ahead(s, i, asc) ==> exists j :: 0 < j < |s| && s[j] == e
  {
    hide Lt;
    if asc {
      AheadUp(s, i);
    } else {
      AheadDown(s, i);
      forall j | 0 <= j < |s| ensures s[j] in Ahead(s, i, false) <==> 0 < j <= i {
        if 0 < j <= i {
          assert Ahead(s, i, false)[i - j] == s[j];
        }
        forall m | 0 <= m < i && Ahead(s, i, false)[m] == s[j] ensures i - m == j {
          Distinct(s, i - m, j);
        }
      }
    }
  }

  lemma AheadUp(s: seq<Entry>, i: nat)
    requires Sorted(s) && 0 < i <= |s|
    ensures Ordered(Ahead(s, i, true), true)
    ensures forall j :: 0 <= j < |s| ==> (s[j] in Ahead(s, i, true) <==> i <= j)
    ensures forall e :: e in Ahead(s, i, true) ==> exists j :: 0 < j < |s| && s[j] == e
  {
    hide Lt;
    if i < |s| {
      forall j | 0 <= j < |s| ensures s[j] in s[i..] <==> i <= j {
        if i <= j {
          assert s[i..][j - i] == s[j];
        }
        forall m | i <= m < |s| && s[m] == s[j] ensures m == j {
          Distinct(s, m, j);
        }
      }
    }
  }

  lemma Distinct(s: seq<Entry>, i: nat, j: nat)
    requires Sorted(s) && i < |s| && j < |s| && s[i].key == s[j].key
    ensures i == j
  {
    hide Lt;
    if i < j {
      LtIrreflexive(s[i].key, s[j].key);
    } else if j < i {
      LtIrreflexive(s[j].key, s[i].key);
    }
  }

  /** The part of a map that satisfies a comparison. */
  ghost function Beyond(m: map<Bytes, Bytes>, cmp: Cmp, key: Bytes): map<Bytes, Bytes> {
    map k | k in m && CmpOK(k, cmp, key) :: m[k]
  }

  /** `cmp2dir`: the direction of a comparison. */
  predicate Upward(cmp: Cmp) {
    cmp.CmpGE? || cmp.CmpGT?
  }

  lemma {:induction false} SeqMapRepresents(s: seq<Entry>, asc: bool)
    requires Ordered(s, asc)
    ensures Represents(s, SeqMap(s))
    decreases |s|
  {
    hide Before;
    if s != [] {
      HeadFirst(s, asc, s[0].key);
      SeqMapRepresents(s[1..], asc);
      var m, rest := SeqMap(s), s[1..];
      forall i: nat | i < |s| ensures Holds(s, m, i) {
        if i > 0 {
          assert Holds(rest, SeqMap(rest), i - 1) && rest[i - 1] == s[i];
          assert Before(asc, s[0].key, rest[i - 1].key);
          BeforeFacts(asc, s[0].key, s[i].key, s[i].key);
        }
      }
      forall x | x in m ensures Occurs(s, x) {
        if x == s[0].key {
          assert s[0].key == x;
        } else {
          assert Occurs(rest, x);
          var i :| 0 <= i < |rest| && rest[i].key == x;
          assert s[i + 1].key == x;
        }
      }
    }
  }

  /** The entries `a` are those of `s` behind the sentinel that satisfy the comparison. */
  ghost predicate Selected(s: seq<Entry>, a: seq<Entry>, cmp: Cmp, key: Bytes) {
    && (forall j :: 0 < j < |s| ==> s[j].key != [] && (s[j] in a <==> CmpOK(s[j].key, cmp, key)))
    && (forall e :: e in a ==> exists j :: 0 < j < |s| && s[j] == e)
  }

  lemma SelectedMap(s: seq<Entry>, a: seq<Entry>, asc: bool, cmp: Cmp, key: Bytes)
    requires Sorted(s) && s != [] && s[0].key == [] && Selected(s, a, cmp, key) && Ordered(a, asc)
    ensures SeqMap(a) == Beyond(Visible(s), cmp, key)
  {
    hide ToMap, SeqMap, CmpOK, Sorted, Ordered, Selected, Visible, Beyond;
    SeqMapRepresents(a, asc);
    ToMapRepresents(s);
    SelectedHolds(s, a, cmp, key);
    SelectedOccurs(s, a, cmp, key);
    RepresentsUnique(a, SeqMap(a), Beyond(Visible(s), cmp, key));
  }

  lemma SelectedHolds(s: seq<Entry>, a: seq<Entry>, cmp: Cmp, key: Bytes)
    requires Selected(s, a, cmp, key) && Represents(s, ToMap(s))
    ensures forall n: nat | n < |a| :: Holds(a, Beyond(Visible(s), cmp, key), n)
  {
    hide ToMap, CmpOK;
    forall n: nat | n < |a| ensures Holds(a, Beyond(Visible(s), cmp, key), n) {
      assert a[n] in a;
      var j: nat :| 0 < j < |s| && s[j] == a[n];
      assert Holds(s, ToMap(s), j);
    }
  }

  lemma SelectedOccurs(s: seq<Entry>, a: seq<Entry>, cmp: Cmp, key: Bytes)
    requires Selected(s, a, cmp, key) && Represents(s, ToMap(s)) && s != [] && s[0].key == []
    ensures forall x | x in Beyond(Visible(s), cmp, key) :: Occurs(a, x)
  {
    hide ToMap, CmpOK;
    forall x | x in Beyond(Visible(s), cmp, key) ensures Occurs(a, x) {
      assert Occurs(s, x);
      var j :| 0 <= j < |s| && s[j].key == x;
      assert s[j] in a;
      var n :| 0 <= n < |a| && a[n] == s[j];
      assert a[n].key == x;
    }
  }

  /**
   * What a seek leaves ahead of the cursor: the keys that satisfy its comparison. From the empty key upwards
   * with `>=` there is nothing ahead, because the cursor stays on the sentinel, where it is not valid.
   */
  ghost function Reached(m: map<Bytes, Bytes>, cmp: Cmp, key: Bytes): map<Bytes, Bytes> {
    if cmp.CmpGE? && key == [] then map[] else Beyond(m, cmp, key)
  }

  /** A seek leaves exactly those entries ahead. */
  lemma SeekAhead(s: seq<Entry>, key: Bytes, cmp: Cmp)
    requires Sorted(s) && 0 <= LE(s, key) < |s| && s[0].key == []
    ensures var a := Ahead(s, Target(s, key, cmp), Upward(cmp));
            Ordered(a, Upward(cmp)) && SeqMap(a) == Reached(Visible(s), cmp, key)
  {
    hide LE, ToMap, SeqMap, CmpOK, Before, Sorted, Ahead, Target;
    if cmp.CmpGE? && key == [] {
      SeekSentinel(s);
      return;
    }
    SeekPlace(s, key, cmp);
    AheadIs(s, Target(s, key, cmp), Upward(cmp));
    SelectedMap(s, Ahead(s, Target(s, key, cmp), Upward(cmp)), Upward(cmp), cmp, key);
  }

  lemma SeekSentinel(s: seq<Entry>)
    requires Sorted(s) && 0 <= LE(s, []) < |s| && s[0].key == []
    ensures Ahead(s, Target(s, [], CmpGE), true) == [] && SeqMap([]) == map[] && Ordered([], true)
  {
    hide LE;
    OnlyAt(s, [], 0);
  }

  lemma SeekPlace(s: seq<Entry>, key: Bytes, cmp: Cmp)
    requires Sorted(s) && 0 <= LE(s, key) < |s| && s[0].key == [] && (cmp.CmpGE? ==> key != [])
    ensures var i := Target(s, key, cmp);
            && (if Upward(cmp) then 0 < i <= |s| else i < |s|)
            && (forall j :: 0 < j < |s| ==> s[j].key != [] && (CmpOK(s[j].key, cmp, key) <==> if Upward(cmp) then i <= j else j <= i))
  {
    TargetNearest(s, key, cmp);
    hide Compare, LE;
    forall j | 0 < j < |s|
      ensures s[j].key != [] && (CmpOK(s[j].key, cmp, key) <==> if Upward(cmp) then Target(s, key, cmp) <= j else j <= Target(s, key, cmp))
    {
      LtIrreflexive(s[0].key, s[j].key);
      if key == [] && !Upward(cmp) {
        SeekKey(s, key, cmp);
        NothingBelow(s[j].key, cmp);
      }
    }
  }

  lemma NothingBelow(k: Bytes, cmp: Cmp)
    requires k != [] && !Upward(cmp)
    ensures !CmpOK(k, cmp, [])
  {
  }

  /** The pairs up to the first one outside the end bound. */
  ghost function UpTo(out: seq<Pair>, cmp: Cmp, key: Bytes): seq<Pair> {
    if out == [] || !CmpOK(out[0].key, cmp, key) then [] else [out[0]] + UpTo(out[1..], cmp, key)
  }

  lemma PastEnd(asc: bool, a: Bytes, b: Bytes, cmp: Cmp, key: Bytes)
    requires Before(asc, a, b) && !CmpOK(a, cmp, key) && Upward(cmp) != asc
    ensures !CmpOK(b, cmp, key)
  {
    CompareAntisymmetric(a, b);
    CompareAntisymmetric(a, key);
    CompareAntisymmetric(b, key);
    if asc {
      if CmpOK(b, cmp, key) {
        LeLtTransitive(a, b, key);
        assert false;
      }
    } else if CmpOK(b, cmp, key) {
      LeLtTransitive(key, b, a);
      assert false;
    }
  }

  /** The end bound cuts off exactly the pairs outside it. */
  lemma {:induction false} UpToMap(out: seq<Pair>, asc: bool, cmp: Cmp, key: Bytes)
    requires OrderedPairs(out, asc) && Upward(cmp) != asc
    ensures PairMap(UpTo(out, cmp, key)) == Beyond(PairMap(out), cmp, key)
    ensures UpTo(out, cmp, key) <= out
    decreases |out|
  {
    hide Before, CmpOK;
    if out != [] {
      assert OrderedPairs(out[1..], asc);
      UpToMap(out[1..], asc, cmp, key);
      if CmpOK(out[0].key, cmp, key) {
        ConsMap(out[0], UpTo(out[1..], cmp, key));
      } else {
        forall j | 0 <= j < |out| ensures !CmpOK(out[j].key, cmp, key) {
          if j > 0 {
            PastEnd(asc, out[0].key, out[j].key, cmp, key);
          }
        }
        NothingBeyond(out, cmp, key);
      }
    }
  }

  lemma {:induction false} NothingBeyond(out: seq<Pair>, cmp: Cmp, key: Bytes)
    requires forall j :: 0 <= j < |out| ==> !CmpOK(out[j].key, cmp, key)
    ensures Beyond(PairMap(out), cmp, key) == map[]
    decreases |out|
  {
    hide CmpOK;
    if out != [] {
      NothingBeyond(out[1..], cmp, key);
    }
  }

  // ---- a whole scan ----

  /** The keys between the two bounds of a scan. */
  ghost predicate Inside2(k: Bytes, key1: Bytes, cmp1: Cmp, key2: Bytes, cmp2: Cmp) {
    CmpOK(k, cmp1, key1) && CmpOK(k, cmp2, key2)
  }

  /** What a scan over the pending view `p` and the snapshot view `s` yields from its start to its end. */
  ghost function Scan(p: seq<Entry>, s: seq<Entry>, key1: Bytes, cmp1: Cmp, key2: Bytes, cmp2: Cmp): seq<Pair>
    requires p != [] ==> 0 <= LE(p, key1) < |p|
    requires s != [] ==> 0 <= LE(s, key1) < |s|
  {
    UpTo(Merge(ScanStart(p, key1, cmp1), ScanStart(s, key1, cmp1), Upward(cmp1)), cmp2, key2)
  }

  ghost function ScanStart(s: seq<Entry>, key: Bytes, cmp: Cmp): seq<Entry>
    requires s != [] ==> 0 <= LE(s, key) < |s|
  {
    if s == [] then [] else Ahead(s, Target(s, key, cmp), Upward(cmp))
  }

  /** A view of a tree: empty, or sorted and beginning with the sentinel. */
  ghost predicate IsView(s: seq<Entry>) {
    s != [] ==> Sorted(s) && s[0].key == []
  }

  lemma StartIs(s: seq<Entry>, key: Bytes, cmp: Cmp)
    requires IsView(s) && (s != [] ==> 0 <= LE(s, key) < |s|)
    ensures Ordered(ScanStart(s, key, cmp), Upward(cmp)) && SeqMap(ScanStart(s, key, cmp)) == Reached(Visible(s), cmp, key)
  {
    if s != [] {
      SeekAhead(s, key, cmp);
    }
  }

  lemma StartOrdered(s: seq<Entry>, key: Bytes, cmp: Cmp)
    requires IsView(s) && (s != [] ==> 0 <= LE(s, key) < |s|)
    ensures Ordered(ScanStart(s, key, cmp), Upward(cmp))
  {
    if s != [] {
      hide LE, Compare;
      if Target(s, key, cmp) > 0 || !Upward(cmp) {
        TargetNearest(s, key, cmp);
        AheadIs(s, Target(s, key, cmp), Upward(cmp));
      }
    }
  }

  /**
   * A scan yields exactly the keys of the pending tree and the snapshot inside its bounds, once
   * each and in scan direction, with the pending value if there is one.
   */
  lemma ScanExact(p: seq<Entry>, s: seq<Entry>, key1: Bytes, cmp1: Cmp, key2: Bytes, cmp2: Cmp)
    requires IsView(p) && IsView(s) && Upward(cmp1) != Upward(cmp2)
    requires p != [] ==> 0 <= LE(p, key1) < |p|
    requires s != [] ==> 0 <= LE(s, key1) < |s|
    ensures var out := Scan(p, s, key1, cmp1, key2, cmp2);
            && OrderedPairs(out, Upward(cmp1))
            && PairMap(out) == Beyond(Reached(Over(Visible(p), Visible(s)), cmp1, key1), cmp2, key2)
  {
    hide LE, Before, PairMap, SeqMap, Merge, CmpOK, Visible, ScanStart, Ordered, Over, Beyond, Reached, OrderedPairs, UpTo, IsView;
    StartIs(p, key1, cmp1);
    StartIs(s, key1, cmp1);
    var a, b := ScanStart(p, key1, cmp1), ScanStart(s, key1, cmp1);
    MergeExact(a, b, Upward(cmp1));
    UpToMap(Merge(a, b, Upward(cmp1)), Upward(cmp1), cmp2, key2);
    OverReached(Visible(p), Visible(s), cmp1, key1);
    PrefixOrdered(Merge(a, b, Upward(cmp1)), Scan(p, s, key1, cmp1, key2, cmp2), Upward(cmp1));
  }

  lemma PrefixOrdered(out: seq<Pair>, part: seq<Pair>, asc: bool)
    requires OrderedPairs(out, asc) && part <= out
    ensures OrderedPairs(part, asc)
  {
    hide Before;
  }

  lemma OverBeyond(p: map<Bytes, Bytes>, m: map<Bytes, Bytes>, cmp: Cmp, key: Bytes)
    ensures Over(Beyond(p, cmp, key), Beyond(m, cmp, key)) == Beyond(Over(p, m), cmp, key)
  {
    hide CmpOK, Stripped;
  }

  lemma OverReached(p: map<Bytes, Bytes>, m: map<Bytes, Bytes>, cmp: Cmp, key: Bytes)
    ensures Over(Reached(p, cmp, key), Reached(m, cmp, key)) == Reached(Over(p, m), cmp, key)
  {
    OverBeyond(p, m, cmp, key);
  }

  /** No key inside the bounds is pending as deleted. */
  ghost predicate NoDeletion(pending: map<Bytes, Bytes>, key1: Bytes, cmp1: Cmp, key2: Bytes, cmp2: Cmp) {
    forall k :: k in pending && Inside2(k, key1, cmp1, key2, cmp2) ==> Unflag(pending[k]).Found?
  }

  /** The part of a map inside both bounds, key by key. */
  lemma BeyondAt(m: map<Bytes, Bytes>, key1: Bytes, cmp1: Cmp, key2: Bytes, cmp2: Cmp, k: Bytes)
    ensures At(Beyond(Beyond(m, cmp1, key1), cmp2, key2), k) == if Inside2(k, key1, cmp1, key2, cmp2) then At(m, k) else Missing
  {
    hide CmpOK;
  }

  lemma OverAt(pending: map<Bytes, Bytes>, m: map<Bytes, Bytes>, k: Bytes)
    requires k in pending ==> FlagOK(pending[k])
    ensures At(Over(pending, m), k) == if k in pending then Found(Stripped(pending[k])) else At(m, k)
    ensures At(Over(pending, m), k) == At(Overlay(m, pending), k) <==> (k in pending ==> Unflag(pending[k]).Found?)
  {
    OverlayAt(m, pending, k);
    hide Overlay;
  }

  /** The scan agrees with point queries exactly when no deletion is pending inside its bounds. */
  lemma ScanIsOverlay(pending: map<Bytes, Bytes>, m: map<Bytes, Bytes>, key1: Bytes, cmp1: Cmp, key2: Bytes, cmp2: Cmp)
    requires forall k :: k in pending ==> FlagOK(pending[k])
    ensures NoDeletion(pending, key1, cmp1, key2, cmp2) <==>
              Beyond(Beyond(Over(pending, m), cmp1, key1), cmp2, key2) == Beyond(Beyond(Overlay(m, pending), cmp1, key1), cmp2, key2)
  {
    hide Over, Overlay, Beyond, Inside2, Unflag, At, FlagOK;
    var x, y := Beyond(Beyond(Over(pending, m), cmp1, key1), cmp2, key2), Beyond(Beyond(Overlay(m, pending), cmp1, key1), cmp2, key2);
    forall k ensures At(x, k) == At(y, k) <==> !(k in pending && Inside2(k, key1, cmp1, key2, cmp2) && !Unflag(pending[k]).Found?) {
      BeyondAt(Over(pending, m), key1, cmp1, key2, cmp2, k);
      BeyondAt(Overlay(m, pending), key1, cmp1, key2, cmp2, k);
      OverAt(pending, m, k);
    }
    if NoDeletion(pending, key1, cmp1, key2, cmp2) {
      SameMaps(x, y);
    } else {
      var k :| k in pending && Inside2(k, key1, cmp1, key2, cmp2) && !Unflag(pending[k]).Found?;
      assert At(x, k) != At(y, k);
    }
  }
}
