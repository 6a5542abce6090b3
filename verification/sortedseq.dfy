/** Sorted sequences of entries: the abstract view of a tree, and its meaning as a map. */
module SortedSeq {
  import opened Bytes
  import opened Seqs

  /** One slot of a node: a child page (0 in a leaf), a key and a value (empty in an internal node). */
  datatype Entry = Entry(ptr: nat, key: Bytes, val: Bytes)

  ghost predicate Sorted(s: seq<Entry>) {
    forall i, j :: 0 <= i < j < |s| ==> Lt(s[i].key, s[j].key)
  }

  /** `r` is the last position whose key is at most `k`, or -1. */
  ghost predicate IsLE(s: seq<Entry>, k: Bytes, r: int) {
    && -1 <= r < |s|
    && (forall i :: 0 <= i <= r ==> Le(s[i].key, k))
    && (forall i :: r < i < |s| ==> Lt(k, s[i].key))
  }

  ghost function LE(s: seq<Entry>, k: Bytes): (r: int)
    ensures -1 <= r < |s|
  {
    if s == [] then -1
    else if Lt(k, s[|s| - 1].key) then LE(s[..|s| - 1], k)
    else |s| - 1
  }

  lemma {:induction false} LECorrect(s: seq<Entry>, k: Bytes)
    requires Sorted(s)
    ensures IsLE(s, k, LE(s, k))
  {
    if s != [] {
      var last := |s| - 1;
      if Lt(k, s[last].key) {
        LECorrect(s[..last], k);
      } else {
        CompareAntisymmetric(k, s[last].key);
        forall i | 0 <= i <= last ensures Le(s[i].key, k) {
          if i < last {
            LeLtTransitive(s[i].key, s[last].key, k);
          }
        }
      }
    }
  }

  lemma LEUnique(s: seq<Entry>, k: Bytes, r1: int, r2: int)
    requires IsLE(s, k, r1) && IsLE(s, k, r2)
    ensures r1 == r2
  {
    if r1 < r2 {
      CompareAntisymmetric(s[r2].key, k);
    } else if r2 < r1 {
      CompareAntisymmetric(s[r1].key, k);
    }
  }

  ghost predicate Has(s: seq<Entry>, k: Bytes) {
    LE(s, k) >= 0 && s[LE(s, k)].key == k
  }

  ghost function Val(s: seq<Entry>, k: Bytes): Bytes
    requires Has(s, k)
  {
    s[LE(s, k)].val
  }

  /** Where an insertion or overwrite of `k` cuts the sequence. */
  ghost function PutAt(s: seq<Entry>, k: Bytes): (at: nat)
    ensures at <= LE(s, k) + 1
  {
    if Has(s, k) then LE(s, k) else LE(s, k) + 1
  }

  /** Insert or overwrite. */
  ghost function Put(s: seq<Entry>, k: Bytes, v: Bytes): seq<Entry> {
    Splice(s, PutAt(s, k), LE(s, k) + 1, [Entry(0, k, v)])
  }

  ghost function Remove(s: seq<Entry>, k: Bytes): seq<Entry> {
    if Has(s, k) then Splice(s, LE(s, k), LE(s, k) + 1, []) else s
  }

  lemma SortedSlice(s: seq<Entry>, lo: int, hi: int)
    requires Sorted(s) && 0 <= lo <= hi <= |s|
    ensures Sorted(s[lo..hi])
  {
  }

  /** The middle part decides the position when the key falls inside it. */
  lemma LEMiddle(a: seq<Entry>, b: seq<Entry>, c: seq<Entry>, k: Bytes)
    requires Sorted(a + b + c)
    requires b != [] && Le(b[0].key, k)
    requires c != [] ==> Lt(k, c[0].key)
    ensures LE(a + b + c, k) == |a| + LE(b, k) && LE(b, k) >= 0
  {
    hide Compare, LE, Lt, Le;
    var s, r := a + b + c, LE(b, k);
    assert forall i :: 0 <= i < |b| ==> s[|a| + i] == b[i];
    forall i, j | 0 <= i < j < |b| ensures Lt(b[i].key, b[j].key) {
      assert Lt(s[|a| + i].key, s[|a| + j].key);
    }
    LECorrect(b, k);
    LtNotGe(k, b[0].key);
    forall i | 0 <= i <= |a| + r ensures Le(s[i].key, k) {
      if i < |a| {
        LtLe(s[i].key, s[|a|].key, k);
      } else {
        assert s[i] == b[i - |a|];
      }
    }
    forall i | |a| + r < i < |s| ensures Lt(k, s[i].key) {
      if i < |a| + |b| {
        assert s[i] == b[i - |a|];
      } else if i > |a| + |b| {
        assert s[|a| + |b|] == c[0];
        LtLt(k, c[0].key, s[i].key);
      }
    }
    LECorrect(s, k);
    LEUnique(s, k, LE(s, k), |a| + r);
  }

  lemma LtNotGe(a: Bytes, b: Bytes)
    ensures Lt(a, b) <==> !Le(b, a)
  {
    CompareAntisymmetric(a, b);
  }

  lemma LtLe(a: Bytes, b: Bytes, c: Bytes)
    requires Lt(a, b) && Le(b, c)
    ensures Lt(a, c) && Le(a, c)
  {
    LeLtTransitive(a, b, c);
  }

  lemma LtLt(a: Bytes, b: Bytes, c: Bytes)
    requires Lt(a, b) && Lt(b, c)
    ensures Lt(a, c)
  {
    LeLtTransitive(a, b, c);
  }

  /** An operation on a key inside the middle part leaves the outer parts alone. */
  lemma PutMiddle(a: seq<Entry>, b: seq<Entry>, c: seq<Entry>, k: Bytes, v: Bytes)
    requires Sorted(a + b + c)
    requires b != [] && Le(b[0].key, k)
    requires c != [] ==> Lt(k, c[0].key)
    ensures Has(a + b + c, k) == Has(b, k)
    ensures Has(b, k) ==> Val(a + b + c, k) == Val(b, k)
    ensures Put(a + b + c, k, v) == a + Put(b, k, v) + c
    ensures Remove(a + b + c, k) == a + Remove(b, k) + c
  {
    hide Compare, Sorted, Splice, LE;
    LEMiddle(a, b, c, k);
    var s, r := a + b + c, LE(b, k);
    assert s[|a| + r] == b[r];
    SpliceMiddle(a, b, c, PutAt(b, k), r + 1, [Entry(0, k, v)]);
    SpliceMiddle(a, b, c, r, r + 1, []);
  }

  lemma PutSorted(s: seq<Entry>, k: Bytes, v: Bytes)
    requires Sorted(s)
    ensures Sorted(Put(s, k, v))
  {
    hide Compare, Splice, LE, Lt;
    LECorrect(s, k);
    var r, at, p := LE(s, k), PutAt(s, k), Put(s, k, v);
    SpliceIndex(s, at, r + 1, [Entry(0, k, v)]);
    forall i | 0 <= i < at ensures Lt(s[i].key, k) {
      BeforePut(s, k, i);
    }
    forall i, j | 0 <= i < j < |p| ensures Lt(p[i].key, p[j].key) {
      var i', j' := if i <= at then i else i - at + r, if j <= at then j else j - at + r;
      assert i < at ==> p[i] == s[i'];
      assert i > at ==> p[i] == s[i'];
      assert j < at ==> p[j] == s[j'];
      assert j > at ==> p[j] == s[j'];
    }
  }

  lemma BeforePut(s: seq<Entry>, k: Bytes, i: nat)
    requires Sorted(s) && i < PutAt(s, k)
    ensures Lt(s[i].key, k)
  {
    LECorrect(s, k);
    hide Compare;
    var r := LE(s, k);
    if i == r {
      CompareZero(s[r].key, k);
    } else {
      assert Le(s[r].key, k);
      LeLtTransitive(s[i].key, s[r].key, k);
    }
  }

  lemma CompareZero(a: Bytes, b: Bytes)
    requires Le(a, b) && a != b
    ensures Lt(a, b)
  {
  }

  lemma RemoveSorted(s: seq<Entry>, k: Bytes)
    requires Sorted(s)
    ensures Sorted(Remove(s, k))
  {
    if Has(s, k) {
      SpliceIndex(s, LE(s, k), LE(s, k) + 1, []);
      hide Compare, Splice, LE;
    }
  }

  /** The map that a sequence of entries stands for. */
  ghost function ToMap(s: seq<Entry>): map<Bytes, Bytes> {
    if s == [] then map[]
    else ToMap(s[..|s| - 1])[s[|s| - 1].key := s[|s| - 1].val]
  }

  ghost predicate Holds(s: seq<Entry>, m: map<Bytes, Bytes>, i: nat)
    requires i < |s|
  {
    s[i].key in m && m[s[i].key] == s[i].val
  }

  ghost predicate Occurs(s: seq<Entry>, x: Bytes) {
    exists i :: 0 <= i < |s| && s[i].key == x
  }

  /** `m` is the map with exactly the entries of `s`. */
  ghost predicate Represents(s: seq<Entry>, m: map<Bytes, Bytes>) {
    && (forall i: nat | i < |s| :: Holds(s, m, i))
    && (forall x | x in m :: Occurs(s, x))
  }

  lemma {:induction false} ToMapRepresents(s: seq<Entry>)
    requires Sorted(s)
    ensures Represents(s, ToMap(s))
  {
    hide Compare, Lt;
    if s != [] {
      var last := |s| - 1;
      ToMapRepresents(s[..last]);
      forall x | x in ToMap(s) ensures Occurs(s, x) {
        if x != s[last].key {
          assert Occurs(s[..last], x);
          var i :| 0 <= i < last && s[..last][i].key == x;
          assert s[i].key == x;
        } else {
          assert s[last].key == x;
        }
      }
      forall i: nat | i < |s| ensures Holds(s, ToMap(s), i) {
        if i < last {
          assert s[..last][i] == s[i] && Holds(s[..last], ToMap(s[..last]), i);
          LtIrreflexive(s[i].key, s[last].key);
        }
      }
    }
  }

  lemma LtIrreflexive(a: Bytes, b: Bytes)
    requires Lt(a, b)
    ensures a != b
  {
  }

  lemma RepresentsUnique(s: seq<Entry>, m1: map<Bytes, Bytes>, m2: map<Bytes, Bytes>)
    requires Represents(s, m1) && Represents(s, m2)
    ensures m1 == m2
  {
    forall x | x in m1 ensures x in m2 && m1[x] == m2[x] {
      assert Occurs(s, x);
      var i: nat :| i < |s| && s[i].key == x;
      assert Holds(s, m1, i) && Holds(s, m2, i);
    }
    forall x | x in m2 ensures x in m1 {
      assert Occurs(s, x);
      var i: nat :| i < |s| && s[i].key == x;
      assert Holds(s, m1, i);
    }
  }

  lemma OnlyAt(s: seq<Entry>, k: Bytes, i: nat)
    requires Sorted(s) && i < |s| && s[i].key == k
    ensures LE(s, k) == i
  {
    hide Compare, Lt;
    LECorrect(s, k);
    var r := LE(s, k);
    LtNotGe(k, k);
    if i < r {
      LtNotGe(k, s[r].key);
    }
  }

  lemma HasInMap(s: seq<Entry>, k: Bytes)
    requires Sorted(s)
    ensures Has(s, k) <==> k in ToMap(s)
    ensures Has(s, k) ==> Val(s, k) == ToMap(s)[k]
  {
    hide Compare, ToMap, LE, Sorted;
    ToMapRepresents(s);
    if Has(s, k) {
      assert Holds(s, ToMap(s), LE(s, k));
    } else if k in ToMap(s) {
      assert Occurs(s, k);
      var i: nat :| i < |s| && s[i].key == k;
      OnlyAt(s, k, i);
    }
  }

  /** Replacing a stretch that holds only the key `k` (or nothing) changes the map at `k` only. */
  lemma SpliceHolds(s: seq<Entry>, k: Bytes, lo: nat, hi: nat, mid: seq<Entry>, m: map<Bytes, Bytes>)
    requires lo <= hi <= |s| && Represents(s, ToMap(s))
    requires forall i :: 0 <= i < |s| && (i < lo || hi <= i) ==> s[i].key != k
    requires forall i :: 0 <= i < |mid| ==> mid[i].key in m && m[mid[i].key] == mid[i].val
    requires forall x :: x in ToMap(s) && x != k ==> x in m && m[x] == ToMap(s)[x]
    ensures forall i: nat | i < |Splice(s, lo, hi, mid)| :: Holds(Splice(s, lo, hi, mid), m, i)
  {
    hide ToMap, Splice;
    var p := Splice(s, lo, hi, mid);
    SpliceIndex(s, lo, hi, mid);
    forall i: nat | i < |p| ensures Holds(p, m, i) {
      if i < lo {
        assert Holds(s, ToMap(s), i);
      } else if i >= lo + |mid| {
        assert Holds(s, ToMap(s), i - lo - |mid| + hi);
      }
    }
  }

  lemma SpliceOccurs(s: seq<Entry>, lo: nat, hi: nat, mid: seq<Entry>, x: Bytes)
    requires lo <= hi <= |s| && Occurs(s, x)
    requires forall i :: lo <= i < hi ==> s[i].key != x
    ensures Occurs(Splice(s, lo, hi, mid), x)
  {
    hide Splice;
    var p := Splice(s, lo, hi, mid);
    SpliceIndex(s, lo, hi, mid);
    var j :| 0 <= j < |s| && s[j].key == x;
    assert p[if j < lo then j else j - hi + lo + |mid|].key == x;
  }

  /** Insertion into the sorted sequence is insertion into the map. */
  lemma PutIsMapUpdate(s: seq<Entry>, k: Bytes, v: Bytes)
    requires Sorted(s)
    ensures ToMap(Put(s, k, v)) == ToMap(s)[k := v]
  {
    hide Compare, ToMap, LE, Splice, Sorted;
    var r, at, p, m := LE(s, k), PutAt(s, k), Put(s, k, v), ToMap(s)[k := v];
    PutSorted(s, k, v);
    ToMapRepresents(p);
    ToMapRepresents(s);
    forall i | 0 <= i < |s| && s[i].key == k ensures at <= i <= r {
      OnlyAt(s, k, i);
    }
    SpliceHolds(s, k, at, r + 1, [Entry(0, k, v)], m);
    forall x | x in m ensures Occurs(p, x) {
      if x == k {
        SpliceIndex(s, at, r + 1, [Entry(0, k, v)]);
        assert p[at].key == x;
      } else {
        assert Occurs(s, x);
        SpliceOccurs(s, at, r + 1, [Entry(0, k, v)], x);
      }
    }
    RepresentsUnique(p, ToMap(p), m);
  }

  /** Removal from the sorted sequence is removal from the map. */
  lemma RemoveIsMapRemoval(s: seq<Entry>, k: Bytes)
    requires Sorted(s)
    ensures ToMap(Remove(s, k)) == ToMap(s) - {k}
  {
    hide Compare, ToMap, LE, Splice, Sorted;
    var r, p, m := LE(s, k), Remove(s, k), ToMap(s) - {k};
    RemoveSorted(s, k);
    ToMapRepresents(p);
    ToMapRepresents(s);
    HasInMap(s, k);
    if Has(s, k) {
      forall i | 0 <= i < |s| && s[i].key == k ensures i == r {
        OnlyAt(s, k, i);
      }
      SpliceHolds(s, k, r, r + 1, [], m);
      forall x | x in m ensures Occurs(p, x) {
        assert Occurs(s, x);
        SpliceOccurs(s, r, r + 1, [], x);
      }
      RepresentsUnique(p, ToMap(p), m);
    }
  }
}
