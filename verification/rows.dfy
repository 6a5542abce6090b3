/** Tables as sets of keys: one key per row, and one more per row in every secondary index. */
module Rows {
  import opened Bytes
  import opened Codec
  import opened Keys
  import opened Conflicts

  /** The first index is the primary key; every index has its own key prefix. */
  datatype TableDef = TableDef(cols: seq<string>, types: seq<byte>, indexes: seq<seq<string>>, prefixes: seq<uint32>)

  datatype Record = Record(cols: seq<string>, vals: seq<Value>)

  /** A row: a value for every column. */
  type Row = map<string, Value>

  ghost predicate Unique<T>(s: seq<T>) {
    forall i, j :: 0 <= i < j < |s| ==> s[i] != s[j]
  }

  /** `slices.Index`. */
  function Position(s: seq<string>, c: string): (i: int)
    ensures -1 <= i < |s|
    ensures i == -1 <==> c !in s
    ensures i >= 0 ==> s[i] == c && c !in s[..i]
  {
    if s == [] then -1
    else if s[0] == c then 0
    else
      var i := Position(s[1..], c);
      assert s == [s[0]] + s[1..];
      if i == -1 then -1 else
        assert s[..i + 1] == [s[0]] + s[1..][..i];
        i + 1
  }

  lemma PositionOf(s: seq<string>, i: nat)
    requires Unique(s) && i < |s|
    ensures Position(s, s[i]) == i
  {
    assert s[i] in s;
  }

  function ColType(t: TableDef, c: string): byte
    requires c in t.cols && |t.cols| == |t.types|
  {
    t.types[Position(t.cols, c)]
  }

  datatype OptValue = Some(v: Value) | None

  /** A record's value for a column: the first one, if it has any. */
  function RecordGet(rec: Record, c: string): OptValue
    requires |rec.cols| == |rec.vals|
  {
    var i := Position(rec.cols, c);
    if i == -1 then None else Some(rec.vals[i])
  }

  /** The record has a value of the right type for each of the columns. */
  ghost predicate HasAll(t: TableDef, rec: Record, cols: seq<string>)
    requires |rec.cols| == |rec.vals| && |t.cols| == |t.types| && forall c :: c in cols ==> c in t.cols
  {
    forall i :: 0 <= i < |cols| ==> RecordGet(rec, cols[i]).Some? && TypeOf(RecordGet(rec, cols[i]).v) == ColType(t, cols[i])
  }

  /** Extract the values of several columns; a missing column or a wrong type is an error. */
  method GetValues(t: TableDef, rec: Record, cols: seq<string>) returns (ok: bool, vals: seq<Value>)
    requires |rec.cols| == |rec.vals| && |t.cols| == |t.types| && forall c :: c in cols ==> c in t.cols
    ensures ok <==> HasAll(t, rec, cols)
    ensures ok ==> |vals| == |cols| && forall i :: 0 <= i < |cols| ==> vals[i] == RecordGet(rec, cols[i]).v
  {
    vals := [];
    for n := 0 to |cols|
      invariant |vals| == n
      invariant forall i :: 0 <= i < n ==> RecordGet(rec, cols[i]).Some? && vals[i] == RecordGet(rec, cols[i]).v
      invariant forall i :: 0 <= i < n ==> TypeOf(vals[i]) == ColType(t, cols[i])
    {
      var v := RecordGet(rec, cols[n]);
      if v.None? || TypeOf(v.v) != ColType(t, cols[n]) {
        return false, vals;
      }
      vals := vals + [v.v];
    }
    ok := true;
  }

  // ---- schemas ----

  ghost predicate IndexOK(t: TableDef, index: seq<string>)
    requires t.indexes != []
  {
    && index != [] && Unique(index)
    && (forall c :: c in index ==> c in t.cols)
    && (forall c :: c in t.indexes[0] ==> c in index)
  }

  ghost predicate TableOK(t: TableDef) {
    && |t.cols| == |t.types| && Unique(t.cols) && t.indexes != [] && |t.prefixes| == |t.indexes| && Unique(t.prefixes)
    && (forall i :: 0 <= i < |t.types| ==> t.types[i] == TYPE_BYTES || t.types[i] == TYPE_INT64)
    && (forall i :: 0 <= i < |t.indexes| ==> IndexOK(t, t.indexes[i]))
  }

  /** Columns of `cols` that are not in `index`, in order. */
  function Others(cols: seq<string>, index: seq<string>): seq<string> {
    if cols == [] then []
    else Others(cols[..|cols| - 1], index) + if cols[|cols| - 1] in index then [] else [cols[|cols| - 1]]
  }

  /** The columns outside the primary key, in the order of the table. */
  method NonPrimaryKeyCols(t: TableDef) returns (out: seq<string>)
    requires t.indexes != []
    ensures out == Others(t.cols, t.indexes[0])
  {
    out := [];
    for n := 0 to |t.cols|
      invariant out == Others(t.cols[..n], t.indexes[0])
    {
      assert t.cols[..n + 1][..n] == t.cols[..n];
      if Position(t.indexes[0], t.cols[n]) < 0 {
        out := out + [t.cols[n]];
      }
    }
    assert t.cols[..|t.cols|] == t.cols;
  }

  lemma {:induction false} OthersAre(cols: seq<string>, index: seq<string>)
    requires Unique(cols)
    ensures forall c :: c in Others(cols, index) <==> c in cols && c !in index
    ensures Unique(Others(cols, index))
    decreases |cols|
  {
    if cols != [] {
      var n := |cols| - 1;
      OthersAre(cols[..n], index);
      assert cols == cols[..n] + [cols[n]];
      assert cols[n] !in cols[..n];
    }
  }

  /**
   * Check the columns of an index and add the missing columns of the primary key. `ok` is false for an
   * empty index, an unknown column or a repeated one.
   */
  method CheckIndexCols(t: TableDef, index: seq<string>) returns (ok: bool, out: seq<string>)
    requires t.indexes != []
    ensures ok <==> index != [] && Unique(index) && forall c :: c in index ==> c in t.cols
    ensures ok ==> out == index + Others(t.indexes[0], index)
  {
    out := index;
    if |index| == 0 {
      return false, out;
    }
    var seen := {};
    for n := 0 to |index|
      invariant seen == set c | c in index[..n]
      invariant Unique(index[..n]) && forall c :: c in index[..n] ==> c in t.cols
    {
      assert index[..n + 1] == index[..n] + [index[n]];
      if Position(t.cols, index[n]) < 0 {
        assert index[n] in index;
        return false, out;
      }
      if index[n] in seen {
        Repeated(index, n);
        return false, out;
      }
      seen := seen + {index[n]};
    }
    assert index[..|index|] == index;
    var pk := t.indexes[0];
    for n := 0 to |pk|
      invariant out == index + Others(pk[..n], index)
    {
      assert pk[..n + 1][..n] == pk[..n];
      if pk[n] !in seen {
        out := out + [pk[n]];
      }
    }
    assert pk[..|pk|] == pk;
    ok := true;
  }

  lemma Repeated(s: seq<string>, n: nat)
    requires n < |s| && s[n] in s[..n]
    ensures !Unique(s)
  {
    var i :| 0 <= i < n && s[i] == s[n];
  }

  /** What the check produces is a proper index: distinct known columns that include the primary key. */
  lemma CheckedIndex(t: TableDef, index: seq<string>)
    requires t.indexes != [] && Unique(t.indexes[0]) && forall c :: c in t.indexes[0] ==> c in t.cols
    requires index != [] && Unique(index) && forall c :: c in index ==> c in t.cols
    ensures IndexOK(t, index + Others(t.indexes[0], index))
    ensures Unique(t.cols) ==> |index + Others(t.indexes[0], index)| <= |t.cols|
  {
    OthersAre(t.indexes[0], index);
    var out := index + Others(t.indexes[0], index);
    UniqueConcat(index, Others(t.indexes[0], index));
    if Unique(t.cols) {
      UniqueFits(out, t.cols);
    }
  }

  lemma UniqueConcat(a: seq<string>, b: seq<string>)
    requires Unique(a) && Unique(b) && forall c :: c in a ==> c !in b
    ensures Unique(a + b)
  {
    forall i, j | 0 <= i < j < |a + b| ensures (a + b)[i] != (a + b)[j] {
      if i < |a| <= j {
        assert a[i] in a && b[j - |a|] in b;
      }
    }
  }

  lemma {:induction false} UniqueSize(s: seq<string>)
    requires Unique(s)
    ensures |set c | c in s| == |s|
    decreases |s|
  {
    if s != [] {
      var n := |s| - 1;
      UniqueSize(s[..n]);
      assert (set c | c in s) == (set c | c in s[..n]) + {s[n]};
      assert s[n] !in s[..n];
    }
  }

  lemma SubsetSize(a: set<string>, b: set<string>)
    requires a <= b
    ensures |a| <= |b|
  {
    if a != {} {
      var x :| x in a;
      SubsetSize(a - {x}, b - {x});
    }
  }

  lemma UniqueFits(a: seq<string>, b: seq<string>)
    requires Unique(a) && Unique(b) && forall c :: c in a ==> c in b
    ensures |a| <= |b|
  {
    UniqueSize(a);
    UniqueSize(b);
    SubsetSize(set c | c in a, set c | c in b);
  }

  // ---- rows as keys ----

  ghost predicate RowOK(t: TableDef, row: Row)
    requires |t.cols| == |t.types|
  {
    && (forall c :: c in row <==> c in t.cols)
    && (forall c :: c in row ==> TypeOf(row[c]) == ColType(t, c))
  }

  /** The values of some columns of a row. */
  ghost function Project(row: Row, cols: seq<string>): (r: seq<Value>)
    requires forall c :: c in cols ==> c in row
    ensures |r| == |cols|
  {
    seq(|cols|, i requires 0 <= i < |cols| => row[cols[i]])
  }

  ghost function ColTypes(t: TableDef, cols: seq<string>): (r: seq<byte>)
    requires |t.cols| == |t.types| && forall c :: c in cols ==> c in t.cols
    ensures |r| == |cols|
  {
    seq(|cols|, i requires 0 <= i < |cols| => ColType(t, cols[i]))
  }

  lemma ProjectTypes(t: TableDef, row: Row, cols: seq<string>)
    requires |t.cols| == |t.types| && RowOK(t, row) && forall c :: c in cols ==> c in t.cols
    ensures Types(Project(row, cols)) == ColTypes(t, cols)
  {
    forall i | 0 <= i < |cols| ensures Types(Project(row, cols))[i] == ColTypes(t, cols)[i] {
      assert cols[i] in cols;
    }
  }

  /** The key of a row in index `i`, and what is stored there. */
  ghost function EntryKey(t: TableDef, i: nat, row: Row): Bytes
    requires TableOK(t) && RowOK(t, row) && i < |t.indexes|
  {
    Key(t.prefixes[i], Project(row, t.indexes[i]))
  }

  ghost function RestCols(t: TableDef): seq<string>
    requires TableOK(t)
  {
    Others(t.cols, t.indexes[0])
  }

  lemma RestKnown(t: TableDef)
    requires TableOK(t)
    ensures forall c :: c in RestCols(t) <==> c in t.cols && c !in t.indexes[0]
    ensures Unique(RestCols(t)) && Unique(t.indexes[0] + RestCols(t))
    ensures forall c :: c in t.indexes[0] + RestCols(t) <==> c in t.cols
  {
    OthersAre(t.cols, t.indexes[0]);
    UniqueConcat(t.indexes[0], RestCols(t));
    forall c | c in t.cols ensures c in t.indexes[0] + RestCols(t) {
    }
  }

  ghost function EntryVal(t: TableDef, i: nat, row: Row): Bytes
    requires TableOK(t) && RowOK(t, row) && i < |t.indexes|
  {
    RestKnown(t);
    if i == 0 then Encoded(Project(row, RestCols(t))) else []
  }

  ghost predicate HasPrefix(k: Bytes, p: uint32) {
    |k| >= 4 && k[..4] == BigEndian(p, 4)
  }

  ghost predicate RowsOK(t: TableDef, rows: map<seq<Value>, Row>)
    requires TableOK(t)
  {
    forall pk :: pk in rows ==> RowOK(t, rows[pk]) && Project(rows[pk], t.indexes[0]) == pk
  }

  /** Index `i` of the map `m` has exactly one key for every row, and no other key. */
  ghost predicate IndexStores(m: map<Bytes, Bytes>, t: TableDef, i: nat, rows: map<seq<Value>, Row>)
    requires TableOK(t) && i < |t.indexes| && RowsOK(t, rows)
  {
    && (forall pk :: pk in rows ==> HasEntry(m, t, i, rows[pk]))
    && (forall k :: k in m && HasPrefix(k, t.prefixes[i]) ==> Owned(k, t, i, rows))
  }

  ghost predicate HasEntry(m: map<Bytes, Bytes>, t: TableDef, i: nat, row: Row)
    requires TableOK(t) && i < |t.indexes| && RowOK(t, row)
  {
    EntryKey(t, i, row) in m && m[EntryKey(t, i, row)] == EntryVal(t, i, row)
  }

  /** Some row has the key `k` in index `i`. */
  ghost predicate Owned(k: Bytes, t: TableDef, i: nat, rows: map<seq<Value>, Row>)
    requires TableOK(t) && i < |t.indexes| && RowsOK(t, rows)
  {
    exists pk :: pk in rows && k == EntryKey(t, i, rows[pk])
  }

  /** The map `m` stores the table `rows`, by primary key, with all its indexes. */
  ghost predicate Stores(m: map<Bytes, Bytes>, t: TableDef, rows: map<seq<Value>, Row>) {
    TableOK(t) && RowsOK(t, rows) && forall i :: 0 <= i < |t.indexes| ==> IndexStores(m, t, i, rows)
  }

  lemma KeyPrefix(t: TableDef, i: nat, row: Row, j: nat)
    requires TableOK(t) && RowOK(t, row) && i < |t.indexes| && j < |t.indexes|
    ensures HasPrefix(EntryKey(t, i, row), t.prefixes[j]) <==> i == j
    ensures EntryKey(t, i, row) != []
  {
    var p, q := t.prefixes[i], t.prefixes[j];
    assert EntryKey(t, i, row)[..4] == BigEndian(p, 4);
    if i != j {
      PrefixOrder(p, q, [], []);
      assert BigEndian(p, 4) + [] == BigEndian(p, 4) && BigEndian(q, 4) + [] == BigEndian(q, 4);
    }
  }

  /** An index key determines the primary key of its row. */
  lemma EntryUnique(t: TableDef, i: nat, a: Row, b: Row)
    requires TableOK(t) && RowOK(t, a) && RowOK(t, b) && i < |t.indexes|
    ensures EntryKey(t, i, a) == EntryKey(t, i, b) ==> Project(a, t.indexes[0]) == Project(b, t.indexes[0])
  {
    var cols, pk := t.indexes[i], t.indexes[0];
    ProjectTypes(t, a, cols);
    ProjectTypes(t, b, cols);
    KeyOrder(t.prefixes[i], Project(a, cols), t.prefixes[i], Project(b, cols));
    if EntryKey(t, i, a) == EntryKey(t, i, b) {
      forall j | 0 <= j < |pk| ensures Project(a, pk)[j] == Project(b, pk)[j] {
        assert pk[j] in cols;
        var n :| 0 <= n < |cols| && cols[n] == pk[j];
        assert Project(a, cols)[n] == Project(b, cols)[n];
      }
    }
  }

  ghost predicate SameOn(m: map<Bytes, Bytes>, m': map<Bytes, Bytes>, p: uint32) {
    forall k :: HasPrefix(k, p) ==> (k in m <==> k in m') && (k in m ==> m[k] == m'[k])
  }

  /** Changes outside its prefix do not touch an index. */
  lemma IndexSame(m: map<Bytes, Bytes>, m': map<Bytes, Bytes>, t: TableDef, i: nat, rows: map<seq<Value>, Row>)
    requires TableOK(t) && i < |t.indexes| && RowsOK(t, rows) && IndexStores(m, t, i, rows) && SameOn(m, m', t.prefixes[i])
    ensures IndexStores(m', t, i, rows)
  {
    hide EntryKey, EntryVal, HasPrefix, IndexOK, Unique, RowOK, Owned;
    forall pk | pk in rows ensures HasEntry(m', t, i, rows[pk]) {
      KeyPrefix(t, i, rows[pk], i);
      assert HasEntry(m, t, i, rows[pk]);
    }
  }

  /** A new row: its key is new in the index. */
  lemma AddEntry(m: map<Bytes, Bytes>, t: TableDef, i: nat, rows: map<seq<Value>, Row>, pk: seq<Value>, row: Row)
    requires TableOK(t) && i < |t.indexes| && RowsOK(t, rows) && IndexStores(m, t, i, rows)
    requires RowOK(t, row) && Project(row, t.indexes[0]) == pk && pk !in rows
    ensures EntryKey(t, i, row) !in m && RowsOK(t, rows[pk := row])
    ensures IndexStores(m[EntryKey(t, i, row) := EntryVal(t, i, row)], t, i, rows[pk := row])
  {
    hide EntryKey, EntryVal, HasPrefix, IndexOK, Unique, RowOK, Project;
    var k := EntryKey(t, i, row);
    KeyPrefix(t, i, row, i);
    forall q | q in rows ensures EntryKey(t, i, rows[q]) != k && HasEntry(m, t, i, rows[q]) {
      EntryUnique(t, i, rows[q], row);
    }
    var m', rows' := m[k := EntryVal(t, i, row)], rows[pk := row];
    assert !Owned(k, t, i, rows);
    assert k !in m;
    forall q | q in rows' ensures HasEntry(m', t, i, rows'[q]) {
      assert q != pk ==> HasEntry(m, t, i, rows[q]);
    }
    forall x | x in m' && HasPrefix(x, t.prefixes[i]) ensures Owned(x, t, i, rows') {
      if x == k {
        assert pk in rows' && rows'[pk] == row;
      } else {
        OwnedMore(x, t, i, rows, pk, row);
      }
    }
  }

  lemma OwnedMore(x: Bytes, t: TableDef, i: nat, rows: map<seq<Value>, Row>, pk: seq<Value>, row: Row)
    requires TableOK(t) && i < |t.indexes| && RowsOK(t, rows) && RowsOK(t, rows[pk := row]) && Owned(x, t, i, rows) && pk !in rows
    ensures Owned(x, t, i, rows[pk := row])
  {
    hide EntryKey, IndexOK, Unique, RowOK, Project;
    var q :| q in rows && x == EntryKey(t, i, rows[q]);
    assert q in rows[pk := row] && rows[pk := row][q] == rows[q];
  }

  lemma OwnedLess(x: Bytes, t: TableDef, i: nat, rows: map<seq<Value>, Row>, pk: seq<Value>)
    requires TableOK(t) && i < |t.indexes| && RowsOK(t, rows) && RowsOK(t, rows - {pk}) && Owned(x, t, i, rows)
    requires pk in rows && x != EntryKey(t, i, rows[pk])
    ensures Owned(x, t, i, rows - {pk})
  {
    hide EntryKey, IndexOK, Unique, RowOK, Project;
    var q :| q in rows && x == EntryKey(t, i, rows[q]);
    assert q in rows - {pk} && (rows - {pk})[q] == rows[q];
  }

  /** A removed row: its key was in the index. */
  lemma RemoveEntry(m: map<Bytes, Bytes>, t: TableDef, i: nat, rows: map<seq<Value>, Row>, pk: seq<Value>)
    requires TableOK(t) && i < |t.indexes| && RowsOK(t, rows) && IndexStores(m, t, i, rows) && pk in rows
    ensures HasEntry(m, t, i, rows[pk]) && RowsOK(t, rows - {pk})
    ensures IndexStores(m - {EntryKey(t, i, rows[pk])}, t, i, rows - {pk})
  {
    hide EntryKey, EntryVal, HasPrefix, IndexOK, Unique, RowOK, Project;
    var k := EntryKey(t, i, rows[pk]);
    var m', rows' := m - {k}, rows - {pk};
    forall q | q in rows' ensures HasEntry(m', t, i, rows'[q]) {
      EntryUnique(t, i, rows[q], rows[pk]);
      assert HasEntry(m, t, i, rows[q]);
    }
    forall x | x in m' && HasPrefix(x, t.prefixes[i]) ensures Owned(x, t, i, rows') {
      OwnedLess(x, t, i, rows, pk);
    }
  }

  /** A point change of the map leaves the other indexes alone. */
  lemma OtherIndex(m: map<Bytes, Bytes>, t: TableDef, i: nat, row: Row, v: Bytes, j: nat)
    requires TableOK(t) && i < |t.indexes| && j < |t.indexes| && i != j && RowOK(t, row)
    ensures SameOn(m, m[EntryKey(t, i, row) := v], t.prefixes[j])
    ensures SameOn(m, m - {EntryKey(t, i, row)}, t.prefixes[j])
  {
    hide EntryKey, HasPrefix, IndexOK, Unique, RowOK;
    KeyPrefix(t, i, row, j);
  }

  // ---- other tables ----

  /** Keys of the table, in any of its indexes. */
  ghost predicate OfTable(t: TableDef, k: Bytes) {
    exists i :: 0 <= i < |t.prefixes| && HasPrefix(k, t.prefixes[i])
  }

  /** From `m` to `m'` only keys of the table have changed. */
  ghost predicate OnlyTable(t: TableDef, m: map<Bytes, Bytes>, m': map<Bytes, Bytes>) {
    forall k :: SameAt(m, m', k) || OfTable(t, k)
  }

  lemma OnlyTableNone(t: TableDef, m: map<Bytes, Bytes>)
    ensures OnlyTable(t, m, m)
  {
  }

  lemma OnlyTableChain(t: TableDef, a: map<Bytes, Bytes>, b: map<Bytes, Bytes>, c: map<Bytes, Bytes>)
    requires OnlyTable(t, a, b) && OnlyTable(t, b, c)
    ensures OnlyTable(t, a, c)
  {
    hide OfTable;
    forall k ensures SameAt(a, c, k) || OfTable(t, k) {
      assert SameAt(a, b, k) || OfTable(t, k);
      assert SameAt(b, c, k) || OfTable(t, k);
    }
  }

  lemma OneKey(t: TableDef, m: map<Bytes, Bytes>, m': map<Bytes, Bytes>, i: nat, key: Bytes)
    requires i < |t.prefixes| && HasPrefix(key, t.prefixes[i]) && forall k :: k != key ==> SameAt(m, m', k)
    ensures OnlyTable(t, m, m')
  {
    hide HasPrefix;
    assert OfTable(t, key);
  }

  /** A table with other prefixes stays as it is. */
  lemma OtherTable(t: TableDef, m: map<Bytes, Bytes>, m': map<Bytes, Bytes>, other: TableDef, rows: map<seq<Value>, Row>)
    requires OnlyTable(t, m, m') && Stores(m, other, rows)
    requires forall i, j :: 0 <= i < |t.prefixes| && 0 <= j < |other.prefixes| ==> t.prefixes[i] != other.prefixes[j]
    ensures Stores(m', other, rows)
  {
    hide IndexStores, HasPrefix, IndexOK, Unique;
    forall j | 0 <= j < |other.indexes| ensures IndexStores(m', other, j, rows) {
      forall k | HasPrefix(k, other.prefixes[j]) ensures SameAt(m, m', k) {
        if OfTable(t, k) {
          var i :| 0 <= i < |t.prefixes| && HasPrefix(k, t.prefixes[i]);
          OnePrefix(k, t.prefixes[i], other.prefixes[j]);
          assert false;
        }
      }
      assert SameOn(m, m', other.prefixes[j]);
      IndexSame(m, m', other, j, rows);
    }
  }

  lemma OnePrefix(k: Bytes, p: uint32, q: uint32)
    requires HasPrefix(k, p) && HasPrefix(k, q)
    ensures p == q
  {
    PrefixOrder(p, q, [], []);
    assert BigEndian(p, 4) + [] == BigEndian(p, 4) && BigEndian(q, 4) + [] == BigEndian(q, 4);
  }

  /** Every key has at least the four bytes of an index prefix. */
  ghost predicate Prefixed(m: map<Bytes, Bytes>) {
    forall k :: k in m ==> |k| >= 4
  }

  /** Tables only ever write keys with a prefix. */
  lemma StaysPrefixed(t: TableDef, m: map<Bytes, Bytes>, m': map<Bytes, Bytes>)
    requires OnlyTable(t, m, m') && Prefixed(m)
    ensures Prefixed(m')
  {
    forall k | k in m' ensures |k| >= 4 {
      assert SameAt(m, m', k) || OfTable(t, k);
    }
  }

  // ---- the index keys of a row, one index after the other ----

  /** Indexes `1..n` store `done`, the later ones still store `before`; the rows themselves are `now`. */
  ghost predicate Midway(m: map<Bytes, Bytes>, t: TableDef, n: nat, now: map<seq<Value>, Row>, done: map<seq<Value>, Row>,
                         before: map<seq<Value>, Row>) {
    && TableOK(t) && RowsOK(t, now) && RowsOK(t, done) && RowsOK(t, before) && 1 <= n <= |t.indexes|
    && IndexStores(m, t, 0, now)
    && (forall j :: 1 <= j < n ==> IndexStores(m, t, j, done))
    && (forall j :: n <= j < |t.indexes| ==> IndexStores(m, t, j, before))
  }

  /** The next index gets the key of a new row. */
  lemma MidwayAdd(m: map<Bytes, Bytes>, t: TableDef, n: nat, now: map<seq<Value>, Row>, before: map<seq<Value>, Row>, pk: seq<Value>, row: Row)
    requires TableOK(t) && RowOK(t, row) && Project(row, t.indexes[0]) == pk && pk !in before
    requires Midway(m, t, n, now, before[pk := row], before) && n < |t.indexes|
    ensures EntryKey(t, n, row) !in m && EntryVal(t, n, row) == []
    ensures Midway(m[EntryKey(t, n, row) := []], t, n + 1, now, before[pk := row], before)
  {
    hide IndexStores, EntryKey, RowOK, IndexOK, Unique, Project, SameOn;
    AddEntry(m, t, n, before, pk, row);
    var m', done := m[EntryKey(t, n, row) := []], before[pk := row];
    forall j | 0 <= j < |t.indexes| && j != n ensures SameOn(m, m', t.prefixes[j]) {
      OtherIndex(m, t, n, row, [], j);
    }
    IndexSame(m, m', t, 0, now);
    forall j | 1 <= j < n ensures IndexStores(m', t, j, done) {
      IndexSame(m, m', t, j, done);
    }
    forall j | n + 1 <= j < |t.indexes| ensures IndexStores(m', t, j, before) {
      IndexSame(m, m', t, j, before);
    }
  }

  /** The next index loses the key of a row. */
  lemma MidwayRemove(m: map<Bytes, Bytes>, t: TableDef, n: nat, now: map<seq<Value>, Row>, before: map<seq<Value>, Row>, pk: seq<Value>)
    requires pk in before && Midway(m, t, n, now, before - {pk}, before) && n < |t.indexes|
    ensures EntryKey(t, n, before[pk]) in m
    ensures Midway(m - {EntryKey(t, n, before[pk])}, t, n + 1, now, before - {pk}, before)
  {
    hide IndexStores, EntryKey, RowOK, IndexOK, Unique, Project, SameOn;
    RemoveEntry(m, t, n, before, pk);
    var m', done := m - {EntryKey(t, n, before[pk])}, before - {pk};
    forall j | 0 <= j < |t.indexes| && j != n ensures SameOn(m, m', t.prefixes[j]) {
      OtherIndex(m, t, n, before[pk], [], j);
    }
    IndexSame(m, m', t, 0, now);
    forall j | 1 <= j < n ensures IndexStores(m', t, j, done) {
      IndexSame(m, m', t, j, done);
    }
    forall j | n + 1 <= j < |t.indexes| ensures IndexStores(m', t, j, before) {
      IndexSame(m, m', t, j, before);
    }
  }
}
