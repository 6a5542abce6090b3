/**
 * Slices of key ranges: several slices may share one backing array, and appending to a slice writes
 * into the array as long as it has room.
 */
module Slices {
  import opened Bytes
  import opened Conflicts
  import opened Serial

  /** A backing array with room for `cap` ranges; the first `|ranges|` have been written. */
  datatype Backing = Backing(cap: nat, ranges: seq<KeyRange>)

  /** The first `len` ranges of the array number `buf`. */
  datatype Slice = Slice(buf: nat, len: nat)

  predicate SliceOK(arrays: seq<Backing>, s: Slice) {
    s.buf < |arrays| && s.len <= |arrays[s.buf].ranges| <= arrays[s.buf].cap
  }

  /** What the slice reads. */
  function RangesOf(arrays: seq<Backing>, s: Slice): seq<KeyRange> {
    if SliceOK(arrays, s) then arrays[s.buf].ranges[..s.len] else []
  }

  /** Is there room behind the slice in its array? */
  predicate HasRoom(arrays: seq<Backing>, s: Slice) {
    SliceOK(arrays, s) && s.len < arrays[s.buf].cap
  }

  /** The arrays after appending `r` to `s`; a new array gets room for `cap` ranges. */
  function Appended(arrays: seq<Backing>, s: Slice, r: KeyRange, cap: nat): seq<Backing>
    requires SliceOK(arrays, s)
  {
    var b := arrays[s.buf];
    if HasRoom(arrays, s) then
      arrays[s.buf := b.(ranges := b.ranges[..s.len] + [r] + b.ranges[if s.len < |b.ranges| then s.len + 1 else s.len..])]
    else arrays + [Backing(cap, b.ranges[..s.len] + [r])]
  }

  function Longer(arrays: seq<Backing>, s: Slice): Slice {
    Slice(if HasRoom(arrays, s) then s.buf else |arrays|, s.len + 1)
  }

  /** The appended range lies inside the slice `o` of the same array. */
  predicate Overwrites(arrays: seq<Backing>, s: Slice, o: Slice) {
    HasRoom(arrays, s) && o.buf == s.buf && s.len < o.len
  }

  /** The slice `o` does not reach beyond `s` in its array. */
  predicate NotAhead(o: Slice, s: Slice) {
    o.buf == s.buf ==> o.len <= s.len
  }

  /**
   * Appending extends the slice by one range. Every other slice keeps its ranges, unless it reaches
   * beyond the appended one in the same array: then that range is overwritten in it as well.
   */
  lemma AppendExact(arrays: seq<Backing>, s: Slice, r: KeyRange, cap: nat, o: Slice)
    requires SliceOK(arrays, s) && SliceOK(arrays, o) && s.len < cap
    ensures var arrays', s' := Appended(arrays, s, r, cap), Longer(arrays, s);
            && SliceOK(arrays', s') && RangesOf(arrays', s') == RangesOf(arrays, s) + [r]
            && SliceOK(arrays', o)
            && RangesOf(arrays', o) == (if Overwrites(arrays, s, o) then RangesOf(arrays, o)[s.len := r] else RangesOf(arrays, o))
            && (NotAhead(o, s) ==> NotAhead(o, s') && !Overwrites(arrays, s, o))
  {
    var arrays' := Appended(arrays, s, r, cap);
    var b := arrays[s.buf].ranges;
    assert b[..s.len] + [r] == (b[..s.len] + [r])[..s.len + 1];
    if HasRoom(arrays, s) {
      var b' := arrays'[s.buf].ranges;
      assert b'[..s.len + 1] == b[..s.len] + [r];
      if o.buf == s.buf {
        assert b'[..o.len] == if s.len < o.len then b[..o.len][s.len := r] else b[..o.len];
      }
    }
  }

  /** Appending keeps every slice within its array. */
  lemma AppendOK(arrays: seq<Backing>, s: Slice, r: KeyRange, cap: nat)
    requires SliceOK(arrays, s) && s.len < cap
    ensures var arrays', s' := Appended(arrays, s, r, cap), Longer(arrays, s);
            && SliceOK(arrays', s') && RangesOf(arrays', s') == RangesOf(arrays, s) + [r]
            && forall o :: SliceOK(arrays, o) ==> SliceOK(arrays', o)
  {
    AppendExact(arrays, s, r, cap, s);
    forall o | SliceOK(arrays, o) ensures SliceOK(Appended(arrays, s, r, cap), o) {
      AppendExact(arrays, s, r, cap, o);
    }
  }

  /** The arrays after the ranges of `s` have been reordered in place. */
  function Reordered(arrays: seq<Backing>, s: Slice, ranges: seq<KeyRange>): seq<Backing>
    requires SliceOK(arrays, s) && |ranges| == s.len
  {
    var b := arrays[s.buf];
    arrays[s.buf := b.(ranges := ranges + b.ranges[s.len..])]
  }

  lemma ReorderedReads(arrays: seq<Backing>, s: Slice, ranges: seq<KeyRange>)
    requires SliceOK(arrays, s) && |ranges| == s.len
    ensures SliceOK(Reordered(arrays, s, ranges), s) && RangesOf(Reordered(arrays, s, ranges), s) == ranges
  {
  }

  /**
   * Going back to a save point and appending overwrites a later one: after three reads, a save
   * point, a read of `d`, a save point, the return to the first save point and a read of `e`, the
   * second save point no longer depends on `d`, although its operations have read it.
   */
  lemma LaterSaveLost(three: seq<KeyRange>, d: Bytes, e: Bytes, ops: seq<Op>, answer: Lookup)
    requires |three| == 3 && d != e && Point(d) !in three
    ensures var arrays, first := [Backing(4, three)], Slice(0, 3);
            var arrays1, second := Appended(arrays, first, Point(d), 8), Longer(arrays, first);
            var arrays2 := Appended(arrays1, first, Point(e), 8);
            && Point(d) in RangesOf(arrays1, second) && RangesOf(arrays2, second) == three + [Point(e)]
            && !Covered(ops + [ReadKey(d, answer)], RangesOf(arrays2, second))
  {
    var arrays, first := [Backing(4, three)], Slice(0, 3);
    var arrays1, second := Appended(arrays, first, Point(d), 8), Longer(arrays, first);
    var arrays2 := Appended(arrays1, first, Point(e), 8);
    AppendExact(arrays, first, Point(d), 8, first);
    AppendExact(arrays1, first, Point(e), 8, second);
    var all := ops + [ReadKey(d, answer)];
    assert RangesOf(arrays1, second)[3] == Point(d);
    assert RangesOf(arrays2, second) == three + [Point(e)];
    assert RangeIn(all[|ops|]) == Point(d);
  }
}
