/** The byte layout of a tree node, filled entry by entry in place. */
module NodeBytes {
  import opened Bytes
  import opened Seqs
  import opened SortedSeq
  import opened Nodes
  import opened Codec
  import TU = TreeUpdates

  const BNODE_LEAF := 2

  /** 16-bit arithmetic wraps around. */
  function U16(x: nat): nat {
    x % 0x1_0000
  }

  function LittleEndian(v: nat, n: nat): (r: Bytes)
    ensures |r| == n
  {
    if n == 0 then [] else [v % 256] + LittleEndian(v / 256, n - 1)
  }

  function FromLittleEndian(b: Bytes): nat {
    if b == [] then 0 else b[0] + 256 * FromLittleEndian(b[1..])
  }

  lemma {:induction false} LittleEndianBack(v: nat, n: nat)
    requires v < Power256(n)
    ensures FromLittleEndian(LittleEndian(v, n)) == v
    decreases n
  {
    if n > 0 {
      LittleEndianBack(v / 256, n - 1);
      assert LittleEndian(v, n)[1..] == LittleEndian(v / 256, n - 1);
    }
  }

  lemma SmallPowers()
    ensures Power256(2) == 0x1_0000 && Power256(8) == 0x1_0000_0000_0000_0000
  {
    EightBytes();
    assert Power256(1) == 256;
  }

  // ---- writing in place ----

  /** `b` written over `s` at `pos`. */
  ghost function Patch(s: Bytes, pos: nat, b: Bytes): (r: Bytes)
    requires pos + |b| <= |s|
    ensures |r| == |s|
  {
    s[..pos] + b + s[pos + |b|..]
  }

  lemma PatchThere(s: Bytes, pos: nat, b: Bytes)
    requires pos + |b| <= |s|
    ensures Patch(s, pos, b)[pos..pos + |b|] == b
  {
  }

  lemma PatchElsewhere(s: Bytes, pos: nat, b: Bytes, lo: nat, hi: nat)
    requires pos + |b| <= |s| && lo <= hi <= |s| && (hi <= pos || pos + |b| <= lo)
    ensures Patch(s, pos, b)[lo..hi] == s[lo..hi]
  {
  }

  lemma PatchNext(s: Bytes, pos: nat, a: Bytes, b: Bytes)
    requires pos + |a| + |b| <= |s|
    ensures Patch(Patch(s, pos, a), pos + |a|, b) == Patch(s, pos, a + b)
  {
  }

  // ---- what a buffer holds ----

  /** The lengths, the key and the value of an entry. */
  ghost function KvBytes(e: Entry): (r: Bytes)
    ensures |r| == 4 + |e.key| + |e.val|
  {
    LittleEndian(|e.key|, 2) + LittleEndian(|e.val|, 2) + e.key + e.val
  }

  ghost function KvSize(es: seq<Entry>): nat {
    if es == [] then 0 else KvSize(es[..|es| - 1]) + |KvBytes(es[|es| - 1])|
  }

  ghost function KvStart(n: nat): nat {
    HEADER + 10 * n
  }

  /** Entry number `i` of a layout for `n` entries is `e`, with its key and value at offset `start`. */
  ghost predicate EntryIn(d: Bytes, n: nat, i: nat, start: nat, e: Entry) {
    && i < n && KvStart(n) + start + |KvBytes(e)| <= |d|
    && d[HEADER + 8 * i..HEADER + 8 * i + 8] == LittleEndian(e.ptr, 8)
    && d[HEADER + 8 * n + 2 * i..HEADER + 8 * n + 2 * i + 2] == LittleEndian(start + |KvBytes(e)|, 2)
    && d[KvStart(n) + start..KvStart(n) + start + |KvBytes(e)|] == KvBytes(e)
  }

  /** The buffer has the header of a node with `n` entries, and the first of them are `es`. */
  ghost predicate Rep(d: Bytes, kind: nat, n: nat, es: seq<Entry>) {
    && |es| <= n && KvStart(n) + KvSize(es) <= |d| <= 2 * PAGE
    && d[0..2] == LittleEndian(kind, 2) && d[2..4] == LittleEndian(n, 2)
    && (forall i :: 0 <= i < |es| ==> EntryIn(d, n, i, KvSize(es[..i]), es[i]))
    && (forall i :: 0 <= i < |es| ==> es[i].ptr < Power256(8))
  }

  lemma {:induction false} PrefixFits(es: seq<Entry>, i: nat)
    requires i < |es|
    ensures KvSize(es[..i + 1]) == KvSize(es[..i]) + |KvBytes(es[i])| <= KvSize(es)
    decreases |es|
  {
    assert es[..i + 1][..i] == es[..i];
    if i + 1 < |es| {
      PrefixFits(es[..|es| - 1], i);
      assert es[..|es| - 1][..i] == es[..i] && es[..|es| - 1][..i + 1] == es[..i + 1];
    } else {
      assert es[..i + 1] == es;
    }
  }

  /** With all entries in place, the used size is the size of the node. */
  lemma {:induction false} KvSizeIs(es: seq<Entry>)
    ensures KvStart(|es|) + KvSize(es) == HEADER + EsSize(es)
    decreases |es|
  {
    hide KvBytes;
    if es != [] {
      KvSizeIs(es[..|es| - 1]);
    }
  }

  /** The three writes that append entry number `i`, as patches. */
  ghost function Appended(d: Bytes, n: nat, i: nat, start: nat, e: Entry): (r: Bytes)
    requires i < n && KvStart(n) + start + |KvBytes(e)| <= |d|
    ensures |r| == |d|
  {
    var d1 := Patch(d, HEADER + 8 * i, LittleEndian(e.ptr, 8));
    var d2 := Patch(d1, KvStart(n) + start, KvBytes(e));
    Patch(d2, HEADER + 8 * n + 2 * i, LittleEndian(start + |KvBytes(e)|, 2))
  }

  /** A stretch outside the three places written is as before. */
  lemma AppendElsewhere(d: Bytes, n: nat, i: nat, start: nat, e: Entry, lo: nat, hi: nat)
    requires i < n && KvStart(n) + start + |KvBytes(e)| <= |d| && lo <= hi <= |d|
    requires hi <= HEADER + 8 * i || HEADER + 8 * i + 8 <= lo
    requires hi <= KvStart(n) + start || KvStart(n) + start + |KvBytes(e)| <= lo
    requires hi <= HEADER + 8 * n + 2 * i || HEADER + 8 * n + 2 * i + 2 <= lo
    ensures Appended(d, n, i, start, e)[lo..hi] == d[lo..hi]
  {
    hide KvBytes, LittleEndian, Patch;
    var d1 := Patch(d, HEADER + 8 * i, LittleEndian(e.ptr, 8));
    var d2 := Patch(d1, KvStart(n) + start, KvBytes(e));
    PatchElsewhere(d, HEADER + 8 * i, LittleEndian(e.ptr, 8), lo, hi);
    PatchElsewhere(d1, KvStart(n) + start, KvBytes(e), lo, hi);
    PatchElsewhere(d2, HEADER + 8 * n + 2 * i, LittleEndian(start + |KvBytes(e)|, 2), lo, hi);
  }

  /** The appended entry is there. */
  lemma AppendThere(d: Bytes, n: nat, i: nat, start: nat, e: Entry)
    requires i < n && KvStart(n) + start + |KvBytes(e)| <= |d|
    ensures EntryIn(Appended(d, n, i, start, e), n, i, start, e)
  {
    hide KvBytes, LittleEndian, Patch;
    var d1 := Patch(d, HEADER + 8 * i, LittleEndian(e.ptr, 8));
    var d2 := Patch(d1, KvStart(n) + start, KvBytes(e));
    var size := LittleEndian(start + |KvBytes(e)|, 2);
    var at, kv, off := HEADER + 8 * i, KvStart(n) + start, HEADER + 8 * n + 2 * i;
    PatchThere(d, at, LittleEndian(e.ptr, 8));
    PatchElsewhere(d1, kv, KvBytes(e), at, at + 8);
    PatchElsewhere(d2, off, size, at, at + 8);
    PatchThere(d1, kv, KvBytes(e));
    PatchElsewhere(d2, off, size, kv, kv + |KvBytes(e)|);
    PatchThere(d2, off, size);
  }

  /** Earlier entries are still there. */
  lemma AppendKeeps(d: Bytes, n: nat, i: nat, start: nat, e: Entry, j: nat, start': nat, e': Entry)
    requires i < n && KvStart(n) + start + |KvBytes(e)| <= |d|
    requires EntryIn(d, n, j, start', e') && j < i && start' + |KvBytes(e')| <= start
    ensures EntryIn(Appended(d, n, i, start, e), n, j, start', e')
  {
    hide KvBytes, LittleEndian, Appended;
    AppendElsewhere(d, n, i, start, e, HEADER + 8 * j, HEADER + 8 * j + 8);
    AppendElsewhere(d, n, i, start, e, HEADER + 8 * n + 2 * j, HEADER + 8 * n + 2 * j + 2);
    AppendElsewhere(d, n, i, start, e, KvStart(n) + start', KvStart(n) + start' + |KvBytes(e')|);
  }

  lemma Extended(es: seq<Entry>, e: Entry)
    ensures KvSize(es + [e]) == KvSize(es) + |KvBytes(e)|
    ensures forall i :: 0 <= i <= |es| ==> (es + [e])[..i] == es[..i]
  {
    assert (es + [e])[..|es|] == es;
  }

  /** Appending in index order extends what the buffer holds by one entry. */
  lemma AppendRep(d: Bytes, kind: nat, n: nat, es: seq<Entry>, e: Entry)
    requires Rep(d, kind, n, es) && |es| < n && KvStart(n) + KvSize(es) + |KvBytes(e)| <= |d| && e.ptr < Power256(8)
    ensures Rep(Appended(d, n, |es|, KvSize(es), e), kind, n, es + [e])
  {
    Extended(es, e);
    hide KvSize, KvBytes, LittleEndian, EntryIn, Appended, Power256;
    var d', more := Appended(d, n, |es|, KvSize(es), e), es + [e];
    AppendThere(d, n, |es|, KvSize(es), e);
    AppendElsewhere(d, n, |es|, KvSize(es), e, 0, 2);
    AppendElsewhere(d, n, |es|, KvSize(es), e, 2, 4);
    assert es[..|es|] == es;
    forall i | 0 <= i < |more| ensures EntryIn(d', n, i, KvSize(more[..i]), more[i]) {
      assert more[..i] == es[..i];
      if i < |es| {
        PrefixFits(es, i);
        AppendKeeps(d, n, |es|, KvSize(es), e, i, KvSize(es[..i]), es[i]);
      }
    }
  }

  // ---- reading ----

  function GetNkeys(d: Bytes): nat
    requires |d| >= HEADER
  {
    FromLittleEndian(d[2..4])
  }

  function GetPtr(d: Bytes, idx: nat): nat
    requires U16(HEADER + 8 * idx) + 8 <= |d|
  {
    var pos := U16(HEADER + 8 * idx);
    FromLittleEndian(d[pos..pos + 8])
  }

  function OffsetPos(d: Bytes, idx: nat): nat
    requires |d| >= HEADER && idx >= 1
  {
    U16(HEADER + 8 * GetNkeys(d) + 2 * (idx - 1))
  }

  function GetOffset(d: Bytes, idx: nat): nat
    requires |d| >= HEADER && (idx >= 1 ==> OffsetPos(d, idx) + 2 <= |d|)
  {
    if idx == 0 then 0 else FromLittleEndian(d[OffsetPos(d, idx)..OffsetPos(d, idx) + 2])
  }

  function KvPos(d: Bytes, idx: nat): nat
    requires |d| >= HEADER && (idx >= 1 ==> OffsetPos(d, idx) + 2 <= |d|)
  {
    U16(HEADER + 8 * GetNkeys(d) + 2 * GetNkeys(d) + GetOffset(d, idx))
  }

  /** Header, pointers and offsets read back, without wrap-around in nodes of up to two pages. */
  lemma ReadHeader(d: Bytes, kind: nat, n: nat, es: seq<Entry>)
    requires Rep(d, kind, n, es) && kind < 0x1_0000
    ensures |d| >= HEADER && GetNkeys(d) == n && FromLittleEndian(d[0..2]) == kind
  {
    hide LittleEndian, FromLittleEndian, EntryIn, KvSize, Power256;
    SmallPowers();
    LittleEndianBack(n, 2);
    LittleEndianBack(kind, 2);
  }

  lemma ReadPtr(d: Bytes, kind: nat, n: nat, es: seq<Entry>, idx: nat)
    requires Rep(d, kind, n, es) && idx < |es|
    ensures U16(HEADER + 8 * idx) + 8 <= |d| && GetPtr(d, idx) == es[idx].ptr
  {
    hide LittleEndian, FromLittleEndian, KvSize, Power256, KvBytes;
    assert EntryIn(d, n, idx, KvSize(es[..idx]), es[idx]);
    LittleEndianBack(es[idx].ptr, 8);
  }

  lemma StoredOffset(d: Bytes, n: nat, i: nat, start: nat, e: Entry)
    requires EntryIn(d, n, i, start, e) && |d| <= 2 * PAGE
    ensures FromLittleEndian(d[HEADER + 8 * n + 2 * i..HEADER + 8 * n + 2 * i + 2]) == start + |KvBytes(e)|
  {
    hide LittleEndian, FromLittleEndian, Power256, KvBytes;
    SmallPowers();
    LittleEndianBack(start + |KvBytes(e)|, 2);
  }

  lemma ReadOffset(d: Bytes, kind: nat, n: nat, es: seq<Entry>, idx: nat)
    requires Rep(d, kind, n, es) && kind < 0x1_0000 && idx <= |es|
    ensures |d| >= HEADER && (idx >= 1 ==> OffsetPos(d, idx) + 2 <= |d|)
    ensures GetOffset(d, idx) == KvSize(es[..idx]) && KvPos(d, idx) == KvStart(n) + KvSize(es[..idx])
  {
    hide LittleEndian, FromLittleEndian, KvSize, Power256, KvBytes, GetNkeys, EntryIn;
    ReadHeader(d, kind, n, es);
    NoSize(es);
    if idx >= 1 {
      PrefixFits(es, idx - 1);
      StoredOffset(d, n, idx - 1, KvSize(es[..idx - 1]), es[idx - 1]);
    }
  }

  lemma NoSize(es: seq<Entry>)
    ensures KvSize(es[..0]) == 0
  {
  }

  // ---- the key and the value ----

  /** A stretch of the buffer; empty if it is not inside. */
  function Slice(d: Bytes, lo: nat, hi: nat): Bytes {
    if lo <= hi <= |d| then d[lo..hi] else []
  }

  /** `getKey` and `getVal` from the position of the pair on. */
  function KeyAt(d: Bytes, pos: nat): Bytes {
    var klen := FromLittleEndian(Slice(d, pos, pos + 2));
    Slice(d, U16(pos + 4), U16(pos + 4) + klen)
  }

  function ValAt(d: Bytes, pos: nat): Bytes {
    var klen := FromLittleEndian(Slice(d, pos, pos + 2));
    var vlen := FromLittleEndian(Slice(d, U16(pos + 2), U16(pos + 2) + 2));
    Slice(d, U16(pos + 4 + klen), U16(pos + 4 + klen) + vlen)
  }

  /** The parts of a stored pair. */
  lemma KvParts(e: Entry)
    requires |e.key| < 0x1_0000 && |e.val| < 0x1_0000
    ensures var kv := KvBytes(e);
            && FromLittleEndian(kv[0..2]) == |e.key| && FromLittleEndian(kv[2..4]) == |e.val|
            && kv[4..4 + |e.key|] == e.key && kv[4 + |e.key|..4 + |e.key| + |e.val|] == e.val
  {
    hide LittleEndian, FromLittleEndian, Power256;
    SmallPowers();
    LittleEndianBack(|e.key|, 2);
    LittleEndianBack(|e.val|, 2);
    var kv := KvBytes(e);
    assert kv[0..2] == LittleEndian(|e.key|, 2) && kv[2..4] == LittleEndian(|e.val|, 2);
  }

  lemma SubSlice(d: Bytes, a: nat, n: nat, lo: nat, hi: nat)
    requires a + n <= |d| && lo <= hi <= n
    ensures Slice(d, a + lo, a + hi) == d[a..a + n][lo..hi]
  {
    var x, y := d[a + lo..a + hi], d[a..a + n][lo..hi];
    forall i | 0 <= i < |x| ensures x[i] == y[i] {
    }
  }

  /** Keys and values read back. */
  lemma ReadKv(d: Bytes, n: nat, i: nat, start: nat, e: Entry)
    requires EntryIn(d, n, i, start, e) && |d| <= 2 * PAGE
    ensures KvStart(n) + start + 4 + |e.key| + |e.val| <= |d|
    ensures KeyAt(d, KvStart(n) + start) == e.key && ValAt(d, KvStart(n) + start) == e.val
  {
    hide LittleEndian, FromLittleEndian, KvBytes, Slice;
    var pos, k, v := KvStart(n) + start, |e.key|, |e.val|;
    KvParts(e);
    SubSlice(d, pos, 4 + k + v, 0, 2);
    SubSlice(d, pos, 4 + k + v, 2, 4);
    SubSlice(d, pos, 4 + k + v, 4, 4 + k);
    SubSlice(d, pos, 4 + k + v, 4 + k, 4 + k + v);
  }

  /** A complete node reads back as its entries, and its size in bytes is the size of the node. */
  lemma ReadBack(d: Bytes, kind: nat, es: seq<Entry>, idx: nat)
    requires Rep(d, kind, |es|, es) && kind < 0x1_0000
    ensures |d| >= HEADER && GetNkeys(d) == |es| && (|es| >= 1 ==> OffsetPos(d, |es|) + 2 <= |d|)
    ensures KvPos(d, |es|) == HEADER + EsSize(es)
    ensures idx < |es| ==>
              && U16(HEADER + 8 * idx) + 8 <= |d| && (idx >= 1 ==> OffsetPos(d, idx) + 2 <= |d|)
              && Entry(GetPtr(d, idx), KeyAt(d, KvPos(d, idx)), ValAt(d, KvPos(d, idx))) == es[idx]
  {
    hide LittleEndian, FromLittleEndian, KvSize, EsSize, KvBytes, GetNkeys, EntryIn, KeyAt, ValAt, Rep, GetPtr, GetOffset, OffsetPos, KvPos;
    RepBounds(d, kind, |es|, es);
    ReadHeader(d, kind, |es|, es);
    ReadOffset(d, kind, |es|, es, |es|);
    KvSizeIs(es);
    assert es[..|es|] == es;
    if idx < |es| {
      ReadPtr(d, kind, |es|, es, idx);
      ReadOffset(d, kind, |es|, es, idx);
      RepEntry(d, kind, |es|, es, idx);
      ReadKv(d, |es|, idx, KvSize(es[..idx]), es[idx]);
    }
  }

  lemma RepEntry(d: Bytes, kind: nat, n: nat, es: seq<Entry>, i: nat)
    requires Rep(d, kind, n, es) && i < |es|
    ensures EntryIn(d, n, i, KvSize(es[..i]), es[i]) && es[i].ptr < Power256(8)
  {
    hide EntryIn, KvSize, LittleEndian, Power256;
  }

  // ---- the buffer ----

  class BNode {
    const data: array<byte>

    constructor (size: nat)
      ensures fresh(data) && data.Length == size
    {
      data := new byte[size];
    }

    /** The first entries of a node of kind `kind` with `n` entries. */
    ghost predicate Holds(kind: nat, n: nat, es: seq<Entry>)
      reads data
    {
      Rep(data[..], kind, n, es) && kind < 0x1_0000
    }

    /** Write bytes at a position. */
    method Put(pos: nat, b: Bytes)
      requires pos + |b| <= data.Length
      modifies data
      ensures data[..] == Patch(old(data[..]), pos, b)
    {
      for i := 0 to |b|
        invariant forall j :: 0 <= j < data.Length ==> data[j] == if pos <= j < pos + i then b[j - pos] else old(data[j])
      {
        data[pos + i] := b[i];
      }
    }

    /** Type and number of keys; nothing is appended yet. */
    method SetHeader(btype: nat, nkeys: nat)
      requires btype < 0x1_0000 && nkeys < 0x1_0000 && KvStart(nkeys) <= data.Length <= 2 * PAGE
      modifies data
      ensures Holds(btype, nkeys, [])
    {
      hide LittleEndian;
      ghost var d := data[..];
      Put(0, LittleEndian(btype, 2));
      Put(2, LittleEndian(nkeys, 2));
      PatchThere(d, 0, LittleEndian(btype, 2));
      PatchElsewhere(Patch(d, 0, LittleEndian(btype, 2)), 2, LittleEndian(nkeys, 2), 0, 2);
      PatchThere(Patch(d, 0, LittleEndian(btype, 2)), 2, LittleEndian(nkeys, 2));
    }

    /** Append one entry behind those that are there; keys are added in order. */
    method AppendKV(idx: nat, ptr: nat, key: Bytes, val: Bytes, ghost kind: nat, ghost n: nat, ghost es: seq<Entry>)
      requires Holds(kind, n, es) && idx == |es| < n && ptr < Power256(8)
      requires KvStart(n) + KvSize(es) + 4 + |key| + |val| <= data.Length
      modifies data
      ensures Holds(kind, n, es + [Entry(ptr, key, val)])
    {
      hide LittleEndian, FromLittleEndian, KvSize, Power256, KvBytes, GetNkeys, EntryIn, Patch, Rep;
      ghost var d, e := data[..], Entry(ptr, key, val);
      RepBounds(d, kind, n, es);
      ReadOffset(d, kind, n, es, idx);
      assert es[..idx] == es;
      KvIs(e);
      var offset := GetOffset(data[..], idx);
      var pos := KvPos(data[..], idx);
      var offsetPos := OffsetPos(data[..], idx + 1);
      NextOffset(d, kind, n, es);
      Put(U16(HEADER + 8 * idx), LittleEndian(ptr, 8));
      PutKv(pos, key, val);
      Put(offsetPos, LittleEndian(U16(offset + 4 + |key| + |val|), 2));
      AppendRep(d, kind, n, es, e);
    }

    /** Write the lengths, the key and the value. */
    method PutKv(pos: nat, key: Bytes, val: Bytes)
      requires pos + 4 + |key| + |val| <= data.Length <= 2 * PAGE
      modifies data
      ensures data[..] == Patch(old(data[..]), pos, LittleEndian(|key|, 2) + LittleEndian(|val|, 2) + key + val)
    {
      hide LittleEndian, Patch;
      ghost var d := data[..];
      Put(pos, LittleEndian(|key|, 2));
      Put(U16(pos + 2), LittleEndian(|val|, 2));
      PatchNext(d, pos, LittleEndian(|key|, 2), LittleEndian(|val|, 2));
      Put(U16(pos + 4), key);
      PatchNext(d, pos, LittleEndian(|key|, 2) + LittleEndian(|val|, 2), key);
      Put(U16(pos + 4 + |key|), val);
      PatchNext(d, pos, LittleEndian(|key|, 2) + LittleEndian(|val|, 2) + key, val);
    }

    /** Copy entries of another node. */
    method AppendRange(src: BNode, dstNew: nat, srcOld: nat, n: nat, ghost kind: nat, ghost size: nat, ghost es: seq<Entry>,
                       ghost kind0: nat, ghost es0: seq<Entry>)
      requires Holds(kind, size, es) && src.Holds(kind0, |es0|, es0) && src.data != data
      requires dstNew == |es| && srcOld + n <= |es0| && |es| + n <= size
      requires KvStart(size) + KvSize(es + es0[srcOld..srcOld + n]) <= data.Length
      modifies data
      ensures Holds(kind, size, es + es0[srcOld..srcOld + n])
    {
      hide LittleEndian, FromLittleEndian, KvSize, Power256, KvBytes, GetNkeys, EntryIn, Rep, KeyAt, ValAt, GetPtr, KvPos, OffsetPos;
      ghost var d0 := src.data[..];
      assert es + es0[srcOld..srcOld + 0] == es;
      for i := 0 to n
        invariant Holds(kind, size, es + es0[srcOld..srcOld + i]) && src.data[..] == d0
      {
        ghost var now, e := es + es0[srcOld..srcOld + i], es0[srcOld + i];
        ReadBack(d0, kind0, es0, srcOld + i);
        RepEntry(d0, kind0, |es0|, es0, srcOld + i);
        assert es + es0[srcOld..srcOld + i + 1] == now + [e];
        RoomFor(es, es0[srcOld..srcOld + n], i, e);
        assert es0[srcOld..srcOld + n][..i] == es0[srcOld..srcOld + i];
        var pos := KvPos(src.data[..], srcOld + i);
        AppendKV(dstNew + i, GetPtr(src.data[..], srcOld + i), KeyAt(src.data[..], pos), ValAt(src.data[..], pos), kind, size, now);
      }
    }

    /** A leaf with one more entry. */
    method LeafInsert(old_: BNode, idx: nat, key: Bytes, val: Bytes, ghost es: seq<Entry>)
      requires old_.Holds(BNODE_LEAF, |es|, es) && old_.data != data && idx <= |es| && |es| + 1 < 0x1_0000
      requires data.Length == 2 * PAGE && HEADER + EsSize(Splice(es, idx, idx, [Entry(0, key, val)])) <= 2 * PAGE
      modifies data
      ensures Holds(BNODE_LEAF, |es| + 1, TU.LeafInsert(Node(true, es), idx, key, val).es)
    {
      hide LittleEndian, FromLittleEndian, KvSize, Power256, KvBytes, GetNkeys, EntryIn, Rep, EsSize;
      ghost var e, n, d0 := Entry(0, key, val), |es| + 1, old_.data[..];
      ghost var all := Splice(es, idx, idx, [e]);
      KvSizeIs(all);
      InsertRoom(es, idx, e);
      KeysOf(d0, es);
      ReadHeader(d0, BNODE_LEAF, |es|, es);
      var nkeys := GetNkeys(old_.data[..]);
      SetHeader(BNODE_LEAF, nkeys + 1);
      AppendRange(old_, 0, 0, idx, BNODE_LEAF, n, [], BNODE_LEAF, es);
      assert [] + es[0..0 + idx] == es[..idx];
      AppendKV(idx, 0, key, val, BNODE_LEAF, n, es[..idx]);
      assert old_.data[..] == d0;
      AppendRange(old_, idx + 1, idx, nkeys - idx, BNODE_LEAF, n, es[..idx] + [e], BNODE_LEAF, es);
      assert es[idx..idx + (|es| - idx)] == es[idx..];
    }
  }

  lemma KeysOf(d: Bytes, es: seq<Entry>)
    requires Rep(d, BNODE_LEAF, |es|, es)
    ensures |d| >= HEADER && KvStart(|es|) <= |d| && Power256(8) > 0
  {
  }

  lemma {:induction false} KvSizeConcat(a: seq<Entry>, b: seq<Entry>)
    ensures KvSize(a + b) == KvSize(a) + KvSize(b)
    decreases |b|
  {
    hide KvBytes;
    if b == [] {
      assert a + b == a;
    } else {
      KvSizeConcat(a, b[..|b| - 1]);
      assert (a + b)[..|a + b| - 1] == a + b[..|b| - 1];
    }
  }

  /** There is room for the next of the entries to copy. */
  lemma RoomFor(es: seq<Entry>, more: seq<Entry>, i: nat, e: Entry)
    requires i < |more| && more[i] == e
    ensures KvSize(es + more[..i]) + 4 + |e.key| + |e.val| <= KvSize(es + more)
  {
    hide KvBytes;
    KvSizeConcat(es, more[..i]);
    KvSizeConcat(es, more);
    PrefixFits(more, i);
  }

  lemma InsertRoom(es: seq<Entry>, idx: nat, e: Entry)
    requires idx <= |es|
    ensures var all := Splice(es, idx, idx, [e]);
            && |all| == |es| + 1 && all == es[..idx] + [e] + es[idx..]
            && KvSize([] + es[0..0 + idx]) <= KvSize(all)
            && KvSize(es[..idx]) + 4 + |e.key| + |e.val| <= KvSize(all)
            && KvSize(es[..idx] + [e] + es[idx..idx + (|es| - idx)]) <= KvSize(all)
  {
    hide KvBytes;
    assert [] + es[0..0 + idx] == es[..idx] && es[idx..idx + (|es| - idx)] == es[idx..];
    KvSizeConcat(es[..idx] + [e], es[idx..]);
    KvSizeConcat(es[..idx], [e]);
    assert [e][..0] == [];
  }

  lemma RepBounds(d: Bytes, kind: nat, n: nat, es: seq<Entry>)
    requires Rep(d, kind, n, es)
    ensures |es| <= n && KvStart(n) + KvSize(es) <= |d| <= 2 * PAGE
  {
    hide EntryIn, KvSize, LittleEndian, Power256;
  }

  lemma KvIs(e: Entry)
    ensures KvBytes(e) == LittleEndian(|e.key|, 2) + LittleEndian(|e.val|, 2) + e.key + e.val
  {
  }

  lemma NextOffset(d: Bytes, kind: nat, n: nat, es: seq<Entry>)
    requires Rep(d, kind, n, es) && kind < 0x1_0000 && |es| < n
    ensures |d| >= HEADER && OffsetPos(d, |es| + 1) == HEADER + 8 * n + 2 * |es|
  {
    hide EntryIn, KvSize, LittleEndian, Power256, GetNkeys;
    ReadHeader(d, kind, n, es);
  }
}
