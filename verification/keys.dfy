/** Keys and rows: tuples of typed values with an index prefix. */
module Keys {
  import opened Bytes
  import opened Codec

  // ---- one column ----

  function EncodeOne(v: Value): (r: Bytes)
    ensures r != [] && r[0] == TypeOf(v)
  {
    match v
    case I64(i) => [TYPE_INT64] + EncodeInt(i)
    case Str(s) => [TYPE_BYTES] + Escape(s) + [0]
  }

  /** The order of two cells of the same type. */
  ghost function CompareValue(v: Value, w: Value): int
    requires TypeOf(v) == TypeOf(w)
  {
    if v.I64? then Sign(v.i - w.i) else Compare(v.s, w.s)
  }

  lemma SameValue(v: Value, w: Value)
    requires TypeOf(v) == TypeOf(w)
    ensures CompareValue(v, w) == 0 <==> v == w
    ensures -1 <= CompareValue(v, w) <= 1
  {
  }

  /** A column decides the comparison unless the two cells are equal. */
  lemma OneOrder(v: Value, w: Value, x: Bytes, y: Bytes)
    requires TypeOf(v) == TypeOf(w)
    ensures Compare(EncodeOne(v) + x, EncodeOne(w) + y) == if v == w then Compare(x, y) else CompareValue(v, w)
  {
    hide Compare, EncodeInt, Escape;
    match v
    case I64(i) =>
      IntOrder(i, w.i);
      IntBack(i);
      IntBack(w.i);
      assert EncodeOne(v) + x == [TYPE_INT64] + (EncodeInt(i) + x) && EncodeOne(w) + y == [TYPE_INT64] + (EncodeInt(w.i) + y);
      ComparePrefix([TYPE_INT64], EncodeInt(i) + x, EncodeInt(w.i) + y);
      CompareParts(EncodeInt(i), EncodeInt(w.i), x, y);
    case Str(s) =>
      assert EncodeOne(v) + x == [TYPE_BYTES] + (Escape(s) + [0] + x) && EncodeOne(w) + y == [TYPE_BYTES] + (Escape(w.s) + [0] + y);
      ComparePrefix([TYPE_BYTES], Escape(s) + [0] + x, Escape(w.s) + [0] + y);
      StrOrder(s, w.s, x, y);
  }

  // ---- tuples ----

  function Encoded(vals: seq<Value>): Bytes {
    if vals == [] then [] else Encoded(vals[..|vals| - 1]) + EncodeOne(vals[|vals| - 1])
  }

  lemma {:induction false} EncodedConcat(a: seq<Value>, b: seq<Value>)
    ensures Encoded(a + b) == Encoded(a) + Encoded(b)
    decreases |b|
  {
    hide EncodeOne;
    if b == [] {
      assert a + b == a;
    } else {
      var n := |b| - 1;
      EncodedConcat(a, b[..n]);
      assert (a + b)[..|a + b| - 1] == a + b[..n];
      assert Encoded(a) + (Encoded(b[..n]) + EncodeOne(b[n])) == (Encoded(a) + Encoded(b[..n])) + EncodeOne(b[n]);
    }
  }

  lemma EncodedHead(vals: seq<Value>)
    requires vals != []
    ensures Encoded(vals) == EncodeOne(vals[0]) + Encoded(vals[1..])
  {
    hide EncodeOne;
    assert vals == [vals[0]] + vals[1..];
    EncodedConcat([vals[0]], vals[1..]);
    assert [vals[0]][..0] == [];
  }

  /** Lexicographic order of two tuples on their common columns; 0 if they agree on them. */
  ghost function CompareTuple(a: seq<Value>, b: seq<Value>): int
    requires forall i :: 0 <= i < |a| && i < |b| ==> TypeOf(a[i]) == TypeOf(b[i])
  {
    if a == [] || b == [] then 0
    else if a[0] != b[0] then CompareValue(a[0], b[0])
    else CompareTuple(a[1..], b[1..])
  }

  ghost predicate SameTypes(a: seq<Value>, b: seq<Value>) {
    forall i :: 0 <= i < |a| && i < |b| ==> TypeOf(a[i]) == TypeOf(b[i])
  }

  /** The order of two encoded tuples of the same schema, one possibly with fewer columns. */
  lemma {:induction false} TupleOrder(a: seq<Value>, b: seq<Value>, x: Bytes, y: Bytes)
    requires SameTypes(a, b)
    ensures CompareTuple(a, b) != 0 ==> Compare(Encoded(a) + x, Encoded(b) + y) == CompareTuple(a, b)
    ensures CompareTuple(a, b) == 0 && |a| == |b| ==> Compare(Encoded(a) + x, Encoded(b) + y) == Compare(x, y)
    ensures CompareTuple(a, b) == 0 && |a| >= |b| ==> Compare(Encoded(a) + x, Encoded(b) + y) == Compare(Encoded(a[|b|..]) + x, y)
    ensures CompareTuple(a, b) == 0 ==> forall i :: 0 <= i < |a| && i < |b| ==> a[i] == b[i]
    decreases |a|
  {
    hide Compare, EncodeOne, Encoded;
    if a == [] || b == [] {
      NoColumns(a, b, x, y);
    } else {
      TupleOrder(a[1..], b[1..], x, y);
      EncodedHead(a);
      EncodedHead(b);
      SameValue(a[0], b[0]);
      OneOrder(a[0], b[0], Encoded(a[1..]) + x, Encoded(b[1..]) + y);
      assert Encoded(a) + x == EncodeOne(a[0]) + (Encoded(a[1..]) + x) && Encoded(b) + y == EncodeOne(b[0]) + (Encoded(b[1..]) + y);
      assert |a| >= |b| ==> a[1..][|b| - 1..] == a[|b|..];
    }
  }

  lemma NoColumns(a: seq<Value>, b: seq<Value>, x: Bytes, y: Bytes)
    requires a == [] || b == []
    ensures |a| == |b| ==> Compare(Encoded(a) + x, Encoded(b) + y) == Compare(x, y)
    ensures |a| >= |b| ==> Compare(Encoded(a) + x, Encoded(b) + y) == Compare(Encoded(a[|b|..]) + x, y)
  {
    assert b == [] ==> Encoded(b) + y == y && a[|b|..] == a;
    assert a == [] ==> Encoded(a) + x == x;
  }

  /** Byte order of encodings is typed order of tuples of one schema, and only equal tuples have equal encodings. */
  lemma EncodingOrder(a: seq<Value>, b: seq<Value>)
    requires Types(a) == Types(b)
    ensures SameTypes(a, b) && Compare(Encoded(a), Encoded(b)) == CompareTuple(a, b)
    ensures Encoded(a) == Encoded(b) <==> a == b
  {
    assert |a| == |Types(a)| == |b|;
    forall i | 0 <= i < |a| ensures TypeOf(a[i]) == TypeOf(b[i]) {
      assert Types(a)[i] == Types(b)[i];
    }
    hide Compare, EncodeOne, Encoded;
    TupleOrder(a, b, [], []);
    assert Encoded(a) + [] == Encoded(a) && Encoded(b) + [] == Encoded(b);
  }

  lemma EncodedStep(vals: seq<Value>, n: nat)
    requires n < |vals|
    ensures Encoded(vals[..n + 1]) == Encoded(vals[..n]) + EncodeOne(vals[n])
    ensures vals[..0] == [] && Encoded([]) == []
  {
    assert vals[..n + 1][..n] == vals[..n];
  }

  /** Append one cell: its type, then its bytes. */
  method AppendValue(out: Bytes, v: Value) returns (r: Bytes)
    ensures r == out + EncodeOne(v)
  {
    hide Escape;
    r := out + [TypeOf(v)];
    match v
    case I64(i) =>
      var buf := BigEndian(FlipSign(Unsigned(i)), 8);
      r := r + buf;
    case Str(s) =>
      var e := EscapeString(s);
      r := r + e;
      r := r + [0];
  }

  /** Append the encoding of `vals` to `out`. */
  method EncodeValues(out: Bytes, vals: seq<Value>) returns (r: Bytes)
    ensures r == out + Encoded(vals)
  {
    hide Encoded, EncodeOne;
    r := out;
    NoValues();
    for n := 0 to |vals|
      invariant r == out + Encoded(vals[..n])
    {
      EncodedStep(vals, n);
      r := AppendValue(r, vals[n]);
    }
    assert vals[..|vals|] == vals;
  }

  lemma NoValues()
    ensures Encoded([]) == []
  {
  }

  // ---- decoding ----

  /** Decoding is `Broken` where the source's assertions or its indexing fail. */
  datatype Decoded = Values(vals: seq<Value>) | Broken

  datatype Cell = Cell(v: Value, rest: Bytes) | NoCell

  function FirstZero(b: Bytes): (r: int)
    ensures -1 <= r < |b|
    ensures r >= 0 ==> b[r] == 0 && 0 !in b[..r]
    ensures r == -1 <==> 0 !in b
  {
    if b == [] then -1
    else if b[0] == 0 then 0
    else
      var r := FirstZero(b[1..]);
      assert b == [b[0]] + b[1..];
      if r == -1 then -1 else
        assert b[..r + 1] == [b[0]] + b[1..][..r];
        r + 1
  }

  /** `bytes.IndexByte` of 0. */
  method IndexZero(b: Bytes) returns (idx: int)
    ensures idx == FirstZero(b)
  {
    idx := 0;
    while idx < |b| && b[idx] != 0
      invariant 0 <= idx <= |b|
      invariant FirstZero(b) == if FirstZero(b[idx..]) == -1 then -1 else idx + FirstZero(b[idx..])
    {
      assert b[idx..][1..] == b[idx + 1..];
      idx := idx + 1;
    }
    if idx == |b| {
      idx := -1;
    }
  }

  function DecodeInt(b: Bytes): int64
    requires |b| == 8
  {
    FromBigEndianBound(b);
    EightBytes();
    Signed(FlipSign(FromBigEndian(b)))
  }

  /** Take one cell of the given type from the front. */
  function DecodeOne(b: Bytes, t: byte): Cell {
    if b == [] || b[0] != t then NoCell
    else if t == TYPE_INT64 then
      if |b| < 9 then NoCell else Cell(I64(DecodeInt(b[1..9])), b[9..])
    else if t == TYPE_BYTES then
      var idx := FirstZero(b[1..]);
      if idx == -1 then NoCell
      else
        var u := Unescape(b[1..][..idx]);
        if u.Malformed? then NoCell else Cell(Str(u.s), b[1..][idx + 1..])
    else NoCell
  }

  function Decode(b: Bytes, types: seq<byte>): Decoded {
    if types == [] then
      if b == [] then Values([]) else Broken
    else
      var c := DecodeOne(b, types[0]);
      if c.NoCell? then Broken
      else
        var d := Decode(c.rest, types[1..]);
        if d.Broken? then Broken else Values([c.v] + d.vals)
  }

  lemma {:induction false} BigEndianForth(b: Bytes)
    ensures BigEndian(FromBigEndian(b), |b|) == b
    decreases |b|
  {
    if b != [] {
      BigEndianForth(b[..|b| - 1]);
    }
  }

  lemma {:induction false} EscapeUnescape(e: Bytes)
    requires 0 !in e && Unescape(e).Plain?
    ensures Escape(Unescape(e).s) == e
    decreases |e|
  {
    if e != [] {
      var s := Unescape(e).s;
      var n := if e[0] == 1 then 2 else 1;
      EscapeUnescape(e[n..]);
      assert s == [s[0]] + Unescape(e[n..]).s;
      EscapeHead(s);
      assert e == e[..n] + e[n..];
      assert EscapeByte(s[0]) == e[..n];
    }
  }

  /** A cell decodes from its own encoding, whatever follows. */
  lemma CellBack(v: Value, rest: Bytes)
    ensures DecodeOne(EncodeOne(v) + rest, TypeOf(v)) == Cell(v, rest)
  {
    if v.I64? {
      IntCellBack(v.i, rest);
    } else {
      StrCellBack(v.s, rest);
    }
  }

  lemma IntCellBack(i: int64, rest: Bytes)
    ensures DecodeOne([TYPE_INT64] + EncodeInt(i) + rest, TYPE_INT64) == Cell(I64(i), rest)
  {
    hide BigEndian, FromBigEndian, Signed, FlipSign, EncodeInt;
    IntBack(i);
    var b := [TYPE_INT64] + EncodeInt(i) + rest;
    assert b[1..9] == EncodeInt(i) && b[9..] == rest;
  }

  lemma StrCellBack(s: Bytes, rest: Bytes)
    ensures DecodeOne([TYPE_BYTES] + Escape(s) + [0] + rest, TYPE_BYTES) == Cell(Str(s), rest)
  {
    hide Escape, Unescape, FirstZero;
    UnescapeEscape(s);
    NoZero(s);
    ZeroAt(Escape(s), rest);
    assert ([TYPE_BYTES] + Escape(s) + [0] + rest)[1..] == Escape(s) + [0] + rest;
  }

  lemma {:induction false} ZeroAt(e: Bytes, rest: Bytes)
    requires 0 !in e
    ensures FirstZero(e + [0] + rest) == |e|
    ensures (e + [0] + rest)[..|e|] == e && (e + [0] + rest)[|e| + 1..] == rest
    decreases |e|
  {
    if e != [] {
      ZeroAt(e[1..], rest);
      assert (e + [0] + rest)[1..] == e[1..] + [0] + rest;
    }
  }

  lemma CellForth(b: Bytes, t: byte)
    requires DecodeOne(b, t).Cell?
    ensures var c := DecodeOne(b, t); TypeOf(c.v) == t && b == EncodeOne(c.v) + c.rest
  {
    hide BigEndian, FromBigEndian, Escape, Unescape;
    if t == TYPE_INT64 {
      FromBigEndianBound(b[1..9]);
      EightBytes();
      BigEndianForth(b[1..9]);
      assert b == [b[0]] + b[1..9] + b[9..];
    } else {
      var idx := FirstZero(b[1..]);
      EscapeUnescape(b[1..][..idx]);
      assert b == [b[0]] + b[1..][..idx] + [0] + b[1..][idx + 1..];
    }
  }

  lemma {:induction false} DecodeBack(vals: seq<Value>)
    ensures Decode(Encoded(vals), Types(vals)) == Values(vals)
    decreases |vals|
  {
    hide DecodeOne, EncodeOne;
    if vals != [] {
      EncodedHead(vals);
      CellBack(vals[0], Encoded(vals[1..]));
      DecodeBack(vals[1..]);
      assert Types(vals)[1..] == Types(vals[1..]);
      assert vals == [vals[0]] + vals[1..];
    }
  }

  lemma {:induction false} DecodeForth(b: Bytes, types: seq<byte>)
    requires Decode(b, types).Values?
    ensures b == Encoded(Decode(b, types).vals) && types == Types(Decode(b, types).vals)
    decreases |types|
  {
    hide DecodeOne, EncodeOne;
    if types != [] {
      var c, vals := DecodeOne(b, types[0]), Decode(b, types).vals;
      CellForth(b, types[0]);
      DecodeForth(c.rest, types[1..]);
      EncodedHead(vals);
      assert vals[1..] == Decode(c.rest, types[1..]).vals;
      assert types == [types[0]] + types[1..];
      assert Types(vals) == [TypeOf(vals[0])] + Types(vals[1..]);
    }
  }

  /** Decoding is exactly the inverse of encoding: it accepts the encodings of its schema and nothing else. */
  lemma DecodeExact(b: Bytes, types: seq<byte>, vals: seq<Value>)
    ensures Decode(b, types) == Values(vals) <==> b == Encoded(vals) && types == Types(vals)
  {
    hide Decode, Encoded, Types;
    DecodeBack(vals);
    if Decode(b, types) == Values(vals) {
      DecodeForth(b, types);
    }
  }

  /** Decode cell by cell, checking each cell's type byte, and that nothing is left. */
  method DecodeValues(b: Bytes, types: seq<byte>) returns (d: Decoded)
    ensures d == Decode(b, types)
  {
    var rest, vals := b, [];
    for i := 0 to |types|
      invariant Decode(b, types) == (var r := Decode(rest, types[i..]); if r.Broken? then Broken else Values(vals + r.vals))
    {
      assert types[i..][1..] == types[i + 1..];
      var c := DecodeCell(rest, types[i]);
      if c.NoCell? {
        return Broken;
      }
      rest, vals := c.rest, vals + [c.v];
    }
    d := if rest == [] then Values(vals) else Broken;
  }

  method DecodeCell(b: Bytes, t: byte) returns (c: Cell)
    ensures c == DecodeOne(b, t)
  {
    if |b| == 0 || b[0] != t {
      return NoCell;
    }
    var rest := b[1..];
    if t == TYPE_INT64 {
      if |rest| < 8 {
        return NoCell;
      }
      assert rest[..8] == b[1..9] && rest[8..] == b[9..];
      return Cell(I64(DecodeInt(rest[..8])), rest[8..]);
    } else if t == TYPE_BYTES {
      var idx := IndexZero(rest);
      if idx < 0 {
        return NoCell;
      }
      var u := UnescapeString(rest[..idx]);
      return if u.Malformed? then NoCell else Cell(Str(u.s), rest[idx + 1..]);
    }
    return NoCell;
  }

  // ---- keys ----

  /** The key of a row in an index: the index prefix, then the indexed columns. */
  function Key(prefix: uint32, vals: seq<Value>): Bytes {
    BigEndian(prefix, 4) + Encoded(vals)
  }

  /** A bound of a range query: missing columns count as plus or minus infinity. */
  function PartialKey(prefix: uint32, vals: seq<Value>, cmp: Cmp): Bytes {
    Key(prefix, vals) + if cmp.CmpGT? || cmp.CmpLE? then [0xff] else []
  }

  method EncodeKey(prefix: uint32, vals: seq<Value>) returns (r: Bytes)
    ensures r == Key(prefix, vals)
  {
    r := EncodeValues(BigEndian(prefix, 4), vals);
  }

  method EncodeKeyPartial(prefix: uint32, vals: seq<Value>, cmp: Cmp) returns (r: Bytes)
    ensures r == PartialKey(prefix, vals, cmp)
  {
    r := EncodeKey(prefix, vals);
    if cmp == CmpGT || cmp == CmpLE {
      r := r + [0xff];
    } else {
      assert r + [] == r;
    }
  }

  /** `row cmp part`, on the columns that `part` has. */
  ghost predicate TypedOK(row: seq<Value>, cmp: Cmp, part: seq<Value>)
    requires SameTypes(row, part)
  {
    var c := CompareTuple(row, part);
    match cmp
    case CmpGE => c >= 0
    case CmpGT => c > 0
    case CmpLT => c < 0
    case CmpLE => c <= 0
  }

  lemma FourBytes()
    ensures Power256(4) == 0x1_0000_0000
  {
  }

  /** Two prefixes compare like their numbers, whatever follows. */
  lemma PrefixOrder(p: uint32, q: uint32, x: Bytes, y: Bytes)
    ensures Compare(BigEndian(p, 4) + x, BigEndian(q, 4) + y) == if p == q then Compare(x, y) else Sign(p as int - q as int)
  {
    hide Compare, BigEndian;
    FourBytes();
    BigEndianOrder(p, q, 4);
    CompareParts(BigEndian(p, 4), BigEndian(q, 4), x, y);
  }

  /** The key order of one index is the typed order of its rows, and keys identify prefix and row. */
  lemma KeyOrder(p: uint32, a: seq<Value>, q: uint32, b: seq<Value>)
    requires p == q ==> Types(a) == Types(b)
    ensures Key(p, a) == Key(q, b) <==> p == q && a == b
  {
    hide Compare, Encoded, BigEndian;
    PrefixOrder(p, q, Encoded(a), Encoded(b));
    if p == q {
      EncodingOrder(a, b);
    }
  }

  /** What is behind the common columns is below the byte 0xff and above nothing. */
  lemma Suffix(rest: seq<Value>)
    ensures Compare(Encoded(rest), [0xff]) < 0 && Compare(Encoded(rest), []) >= 0
  {
    if rest != [] {
      EncodedHead(rest);
      hide Encoded;
      assert Encoded(rest)[0] == TypeOf(rest[0]);
    }
  }

  /** A bound on some leading columns selects exactly the rows whose leading columns satisfy it. */
  lemma PartialExact(prefix: uint32, row: seq<Value>, part: seq<Value>, cmp: Cmp)
    requires SameTypes(row, part) && |part| <= |row|
    ensures CmpOK(Key(prefix, row), cmp, PartialKey(prefix, part, cmp)) <==> TypedOK(row, cmp, part)
  {
    hide Compare, Encoded, BigEndian, EncodeOne;
    var end := if cmp.CmpGT? || cmp.CmpLE? then [0xff] else [];
    assert PartialKey(prefix, part, cmp) == BigEndian(prefix, 4) + (Encoded(part) + end);
    PrefixOrder(prefix, prefix, Encoded(row), Encoded(part) + end);
    TupleOrder(row, part, [], end);
    assert Encoded(row) + [] == Encoded(row) && Encoded(row[|part|..]) + [] == Encoded(row[|part|..]);
    Suffix(row[|part|..]);
  }

  /** The interval of a range query contains no key of another prefix. */
  lemma OtherPrefix(prefix: uint32, q: uint32, rest: Bytes, part1: seq<Value>, cmp1: Cmp, part2: seq<Value>, cmp2: Cmp)
    requires q != prefix && (cmp1.CmpGE? || cmp1.CmpGT?) != (cmp2.CmpGE? || cmp2.CmpGT?)
    ensures !(CmpOK(BigEndian(q, 4) + rest, cmp1, PartialKey(prefix, part1, cmp1))
              && CmpOK(BigEndian(q, 4) + rest, cmp2, PartialKey(prefix, part2, cmp2)))
  {
    hide Compare, Encoded, BigEndian;
    var end1 := if cmp1.CmpGT? || cmp1.CmpLE? then [0xff] else [];
    var end2 := if cmp2.CmpGT? || cmp2.CmpLE? then [0xff] else [];
    assert PartialKey(prefix, part1, cmp1) == BigEndian(prefix, 4) + (Encoded(part1) + end1);
    assert PartialKey(prefix, part2, cmp2) == BigEndian(prefix, 4) + (Encoded(part2) + end2);
    PrefixOrder(q, prefix, rest, Encoded(part1) + end1);
    PrefixOrder(q, prefix, rest, Encoded(part2) + end2);
  }

  /**
   * The byte interval of a range query holds exactly the keys of its index whose leading columns
   * satisfy both bounds in typed order.
   */
  lemma IntervalExact(prefix: uint32, q: uint32, row: seq<Value>, part1: seq<Value>, cmp1: Cmp, part2: seq<Value>, cmp2: Cmp)
    requires (cmp1.CmpGE? || cmp1.CmpGT?) != (cmp2.CmpGE? || cmp2.CmpGT?)
    requires q == prefix ==> SameTypes(row, part1) && SameTypes(row, part2) && |part1| <= |row| && |part2| <= |row|
    ensures CmpOK(Key(q, row), cmp1, PartialKey(prefix, part1, cmp1)) && CmpOK(Key(q, row), cmp2, PartialKey(prefix, part2, cmp2))
            <==> q == prefix && TypedOK(row, cmp1, part1) && TypedOK(row, cmp2, part2)
  {
    hide CmpOK, TypedOK, PartialKey, Encoded, BigEndian;
    if q == prefix {
      PartialExact(prefix, row, part1, cmp1);
      PartialExact(prefix, row, part2, cmp2);
    } else {
      OtherPrefix(prefix, q, Encoded(row), part1, cmp1, part2, cmp2);
    }
  }
}
