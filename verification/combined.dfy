/** The cursor that combines a transaction's pending updates with its snapshot. */
module CombinedCursor {
  import opened Bytes
  import opened SortedSeq
  import opened Trees
  import opened Positions
  import opened Cursors
  import opened Snapshots
  import opened Merged
  import PS = PageStore

  /** The cursor `it` stands at position `i` of the tree `sn`. */
  ghost predicate Standing(it: BIter, sn: Snap, i: nat)
    reads it
  {
    if sn.root == 0 then it.path == [] && it.pos == [] && i == 0
    else Good(sn.t, sn.h) && Pointing(sn.t, sn.h, it.path, it.pos, i)
  }

  /** The pages under the cursor can be read. */
  ghost predicate Backed(it: BIter, sn: Snap)
    reads it.store, (if it.store.base == null then {} else {it.store.base})`file
  {
    it.store.Readable() && (sn.root != 0 ==> Stored(it.store.Nodes(), sn.t))
  }

  /** The entries that the cursor has still to visit. */
  ghost function Left(sn: Snap, i: nat, asc: bool): seq<Entry> {
    Ahead(SnapView(sn), i, asc)
  }

  /** Where a step takes the cursor; from the last entry of a tree of three or more levels to its turn. */
  ghost function StepTo(sn: Snap, i: nat, asc: bool): nat {
    if !asc then if i == 0 then 0 else i - 1
    else if i + 1 == |SnapView(sn)| && sn.h >= 2 then Turn(sn.t)
    else i + 1
  }

  /** A step forward from the last entry does not end in a tree of three or more levels, unless it turns to the sentinel. */
  ghost predicate CanStep(sn: Snap, i: nat, asc: bool) {
    asc && sn.root != 0 && i + 1 == |SnapView(sn)| ==> sn.h < 2 || Turn(sn.t) == 0
  }

  /** On an entry of a deep tree whose last entry is within the end bound: an upward scan goes round for ever. */
  ghost predicate Trapped(sn: Snap, i: nat, asc: bool, cmp: Cmp, key: Bytes) {
    && asc && sn.root != 0 && sn.h >= 2 && 0 < i < |SnapView(sn)| && Turn(sn.t) > 0
    && CmpOK(SnapView(sn)[|SnapView(sn)| - 1].key, cmp, key)
  }

  /** Within the end bound, a cursor that is not trapped can step, and a trapped one stays so. */
  lemma StepTrapped(sn: Snap, i: nat, asc: bool, cmp: Cmp, key: Bytes)
    requires sn.root != 0 ==> Good(sn.t, sn.h)
    requires Left(sn, i, asc) != [] && CmpOK(Left(sn, i, asc)[0].key, cmp, key)
    ensures Trapped(sn, StepTo(sn, i, asc), asc, cmp, key) <==> Trapped(sn, i, asc, cmp, key)
    ensures !Trapped(sn, i, asc, cmp, key) ==> CanStep(sn, i, asc)
  {
    hide Good, Flat, CmpOK;
    if sn.root != 0 && sn.h >= 2 {
      TurnLate(sn.t, sn.h);
    }
  }

  /** Behind a trapped cursor there is always one more pair within the end bound. */
  lemma TrappedMore(sn: Snap, i: nat, asc: bool, cmp: Cmp, key: Bytes)
    requires Trapped(sn, i, asc, cmp, key) && Sorted(SnapView(sn)) && !Upward(cmp)
    ensures Left(sn, i, asc) != [] && CmpOK(Left(sn, i, asc)[0].key, cmp, key)
  {
    hide CmpOK;
    var v := SnapView(sn);
    if !CmpOK(v[i].key, cmp, key) {
      PastEnd(true, v[i].key, v[|v| - 1].key, cmp, key);
    }
  }

  lemma StandingValid(it: BIter, sn: Snap, i: nat, asc: bool)
    requires Standing(it, sn, i)
    ensures |it.path| == |it.pos|
    ensures it.Valid() <==> Left(sn, i, asc) != []
    ensures it.Valid() ==> i < |SnapView(sn)| && Left(sn, i, asc)[0] == SnapView(sn)[i]
  {
    hide Good, Pointing, Flat;
    if sn.root != 0 {
      CursorValid(it, sn.t, sn.h, i);
    }
  }

  /** Read the entry under a valid cursor. */
  method Current1(it: BIter, ghost sn: Snap, ghost i: nat, ghost asc: bool) returns (key: Bytes, val: Bytes)
    requires Standing(it, sn, i) && Left(sn, i, asc) != []
    ensures key == Left(sn, i, asc)[0].key && val == Left(sn, i, asc)[0].val
  {
    hide Good, Flat, On, StartOf, Ahead;
    StandingValid(it, sn, i, asc);
    AtEntry(it, sn, i);
    key, val := it.Deref(sn.t, sn.h);
  }

  lemma AtEntry(it: BIter, sn: Snap, i: nat)
    requires Standing(it, sn, i) && i < |SnapView(sn)|
    ensures On(sn.t, sn.h, it.path, it.pos) && StartOf(sn.t, it.pos) == i && SnapView(sn) == Flat(sn.t)
  {
  }

  /** Move one cursor in the scan direction. */
  method Move1(it: BIter, asc: bool, ghost sn: Snap, ghost i: nat)
    requires Standing(it, sn, i) && Backed(it, sn) && Left(sn, i, asc) != [] && Sorted(SnapView(sn))
    modifies it
    ensures Standing(it, sn, StepTo(sn, i, asc)) && Ordered(Left(sn, StepTo(sn, i, asc), asc), asc)
    ensures CanStep(sn, i, asc) ==> Left(sn, StepTo(sn, i, asc), asc) == Left(sn, i, asc)[1..]
  {
    hide Good, Flat, Pointing, Stored, PS.PageStore.Readable, PS.PageStore.Nodes, Turn, Sorted, Before;
    StandingValid(it, sn, i, asc);
    if asc {
      it.Next(sn.t, sn.h, i);
    } else {
      it.Prev(sn.t, sn.h, i);
    }
    LeftOrdered(SnapView(sn), StepTo(sn, i, asc), asc);
  }

  lemma LeftOrdered(s: seq<Entry>, i: nat, asc: bool)
    requires Sorted(s)
    ensures Ordered(Ahead(s, i, asc), asc)
  {
    hide Before, Sorted;
    if 0 < i < |s| {
      AheadIs(s, i, asc);
    }
  }

  class CombinedIter {
    const top: BIter  // pending updates
    const bottom: BIter  // snapshot
    const direction: int  // 1 for >= or >, -1 for <= or <
    const endKey: Bytes
    const endCmp: Cmp
    ghost const p: Snap
    ghost const s: Snap
    ghost var i: nat
    ghost var j: nat

    constructor (top: BIter, bottom: BIter, direction: int, endKey: Bytes, endCmp: Cmp, ghost p: Snap, ghost s: Snap, ghost i: nat, ghost j: nat)
      ensures this.top == top && this.bottom == bottom && this.direction == direction && this.endKey == endKey && this.endCmp == endCmp
      ensures this.p == p && this.s == s && this.i == i && this.j == j
    {
      this.top, this.bottom, this.direction, this.endKey, this.endCmp := top, bottom, direction, endKey, endCmp;
      this.p, this.s, this.i, this.j := p, s, i, j;
    }

    ghost predicate Inv()
      reads this, top, bottom
    {
      && top != bottom && (direction == 1 || direction == -1)
      && Standing(top, p, i) && Standing(bottom, s, j)
      && (forall n :: 0 <= n < |SnapView(p)| && n > 0 ==> SnapView(p)[n].val != [])
      && Sorted(SnapView(p)) && Sorted(SnapView(s))
      && Ordered(Left(p, i, direction == 1), direction == 1) && Ordered(Left(s, j, direction == 1), direction == 1)
    }

    /** What is left to yield, before the end bound is looked at. */
    ghost function Rest(): seq<Pair>
      reads this
    {
      Merge(Left(p, i, direction == 1), Left(s, j, direction == 1), direction == 1)
    }

    /** The pair at hand: the nearer key, pending updates first. */
    method Deref() returns (key: Bytes, val: Bytes)
      requires Inv() && Rest() != []
      ensures Rest()[0] == Pair(key, val)
    {
      hide Standing, Ordered, BIter.Valid, Ahead;
      ghost var asc := direction == 1;
      StandingValid(top, p, i, asc);
      StandingValid(bottom, s, j, asc);
      var k1, v1, k2, v2 := [], [], [], [];
      if top.Valid() {
        k1, v1 := Current1(top, p, i, asc);
        PendingFlagged(p, i, asc);
      }
      if bottom.Valid() {
        k2, v2 := Current1(bottom, s, j, asc);
      }
      ComparedBefore(k1, k2, direction);
      if top.Valid() && bottom.Valid() && Compare(k1, k2) == direction {
        return k2, v2;
      }
      if top.Valid() {
        return k1, v1[1..];
      }
      return k2, v2;
    }

    /** Is there a pair, and is it within the end bound? */
    method Valid() returns (valid: bool)
      requires Inv()
      ensures valid <==> UpTo(Rest(), endCmp, endKey) != []
    {
      hide Standing, Ordered, BIter.Valid, Ahead, CmpOK;
      ghost var asc := direction == 1;
      StandingValid(top, p, i, asc);
      StandingValid(bottom, s, j, asc);
      if !top.Valid() && !bottom.Valid() {
        return false;
      }
      var key, val := Deref();
      valid := CmpOK(key, endCmp, endKey);
    }

    /** The pair at hand comes from the pending updates, from the snapshot, or from both. */
    ghost predicate FromTop()
      reads this
    {
      var a, b := Left(p, i, direction == 1), Left(s, j, direction == 1);
      a != [] && (b == [] || a[0].key == b[0].key || Before(direction == 1, a[0].key, b[0].key))
    }

    ghost predicate FromBottom()
      reads this
    {
      var a, b := Left(p, i, direction == 1), Left(s, j, direction == 1);
      b != [] && (a == [] || a[0].key == b[0].key || !Before(direction == 1, a[0].key, b[0].key))
    }

    /**
     * Move past the pair at hand: one of the cursors, or both if they have the same key. A cursor on the
     * last entry of a deep tree goes back to its turn, and the scan with it.
     */
    method Next()
      requires Inv() && Rest() != [] && Backed(top, p) && Backed(bottom, s)
      modifies this`i, this`j, top, bottom
      ensures Inv()
      ensures i == if old(FromTop()) then StepTo(p, old(i), direction == 1) else old(i)
      ensures j == if old(FromBottom()) then StepTo(s, old(j), direction == 1) else old(j)
      ensures old((FromTop() ==> CanStep(p, i, direction == 1)) && (FromBottom() ==> CanStep(s, j, direction == 1))) ==>
                Rest() == old(Rest())[1..]
    {
      hide Standing, Ordered, BIter.Valid, Ahead, Backed, CanStep, StepTo, Sorted, Before;
      ghost var asc := direction == 1;
      StandingValid(top, p, i, asc);
      StandingValid(bottom, s, j, asc);
      var topMove, bottomMove := top.Valid(), bottom.Valid();
      if topMove && bottomMove {
        var k1, v1 := Current1(top, p, i, asc);
        var k2, v2 := Current1(bottom, s, j, asc);
        ComparedBefore(k1, k2, direction);
        if Compare(k1, k2) == -direction {
          topMove, bottomMove := true, false;
        } else if Compare(k1, k2) == direction {
          topMove, bottomMove := false, true;
        }
      }
      if topMove {
        Move1(top, direction > 0, p, i);
        i := StepTo(p, i, asc);
      }
      if bottomMove {
        Move1(bottom, direction > 0, s, j);
        j := StepTo(s, j, asc);
      }
    }
  }

  // ---- a whole scan ----

  /** One of the two cursors is trapped. */
  ghost predicate Caught(it: CombinedIter)
    reads it
  {
    || Trapped(it.p, it.i, it.direction == 1, it.endCmp, it.endKey)
    || Trapped(it.s, it.j, it.direction == 1, it.endCmp, it.endKey)
  }

  lemma StandingGood(it: BIter, sn: Snap, i: nat)
    requires Standing(it, sn, i)
    ensures sn.root != 0 ==> Good(sn.t, sn.h)
  {
  }

  /** The pair at hand is the one of the cursors that move. */
  lemma MovesWithin(it: CombinedIter)
    requires it.Inv() && UpTo(it.Rest(), it.endCmp, it.endKey) != []
    ensures var asc := it.direction == 1;
            && (it.FromTop() ==> Left(it.p, it.i, asc) != [] && CmpOK(Left(it.p, it.i, asc)[0].key, it.endCmp, it.endKey))
            && (it.FromBottom() ==> Left(it.s, it.j, asc) != [] && CmpOK(Left(it.s, it.j, asc)[0].key, it.endCmp, it.endKey))
  {
    hide Standing, Ordered, CmpOK, Ahead, Before;
  }

  /**
   * One round of a scan: past the pair at hand, unless a cursor is trapped. A scan that is caught stays so, and
   * one that is not never will be.
   */
  method Advance(it: CombinedIter)
    requires it.Inv() && UpTo(it.Rest(), it.endCmp, it.endKey) != [] && Backed(it.top, it.p) && Backed(it.bottom, it.s)
    modifies it`i, it`j, it.top, it.bottom
    ensures it.Inv() && Caught(it) == old(Caught(it))
    ensures !Caught(it) ==> it.Rest() == old(it.Rest())[1..]
  {
    hide Standing, Ordered, CmpOK, Ahead, Before, Trapped, CanStep, StepTo, Backed, Good, CombinedIter.FromTop, CombinedIter.FromBottom, Sorted;
    MovesWithin(it);
    ghost var asc := it.direction == 1;
    StandingGood(it.top, it.p, it.i);
    StandingGood(it.bottom, it.s, it.j);
    if it.FromTop() {
      StepTrapped(it.p, it.i, asc, it.endCmp, it.endKey);
    }
    if it.FromBottom() {
      StepTrapped(it.s, it.j, asc, it.endCmp, it.endKey);
    }
    it.Next();
  }

  /** A scan that is caught is never over. */
  lemma CaughtForever(it: CombinedIter)
    requires it.Inv() && Caught(it) && Upward(it.endCmp) != (it.direction == 1)
    ensures UpTo(it.Rest(), it.endCmp, it.endKey) != []
  {
    hide Standing, CmpOK, Ahead, Sorted, Before;
    var asc := it.direction == 1;
    var a, b := Left(it.p, it.i, asc), Left(it.s, it.j, asc);
    if Trapped(it.p, it.i, asc, it.endCmp, it.endKey) {
      TrappedMore(it.p, it.i, asc, it.endCmp, it.endKey);
    } else {
      TrappedMore(it.s, it.j, asc, it.endCmp, it.endKey);
    }
    if a != [] && b != [] {
      NearerWithin(a[0].key, b[0].key, it.endCmp, it.endKey);
    }
  }

  /** Of two keys, one of them within the end bound, the nearer one is. */
  lemma NearerWithin(a: Bytes, b: Bytes, cmp: Cmp, key: Bytes)
    requires !Upward(cmp)
    ensures CmpOK(a, cmp, key) && !Before(true, a, b) ==> CmpOK(b, cmp, key)
    ensures CmpOK(b, cmp, key) && Before(true, a, b) ==> CmpOK(a, cmp, key)
  {
    hide CmpOK;
    CompareAntisymmetric(a, b);
    if !CmpOK(b, cmp, key) && Before(true, b, a) {
      PastEnd(true, b, a, cmp, key);
    }
    if !CmpOK(a, cmp, key) && Before(true, a, b) {
      PastEnd(true, a, b, cmp, key);
    }
  }

  /** A whole scan: every pair that is left, one after the other, up to the end bound. */
  method Collect(it: CombinedIter) returns (out: seq<Pair>)
    requires it.Inv() && Backed(it.top, it.p) && Backed(it.bottom, it.s) && !Caught(it)
    modifies it`i, it`j, it.top, it.bottom
    ensures out == UpTo(old(it.Rest()), it.endCmp, it.endKey)
  {
    hide CombinedIter.Inv, Backed, CmpOK, Caught, CombinedIter.Rest;
    out := [];
    var more := it.Valid();
    while more
      invariant it.Inv() && Backed(it.top, it.p) && Backed(it.bottom, it.s) && !Caught(it)
      invariant more <==> UpTo(it.Rest(), it.endCmp, it.endKey) != []
      invariant out + UpTo(it.Rest(), it.endCmp, it.endKey) == UpTo(old(it.Rest()), it.endCmp, it.endKey)
      decreases |it.Rest()|
    {
      var key, val := it.Deref();
      Advance(it);
      out := out + [Pair(key, val)];
      more := it.Valid();
    }
  }

  lemma PendingFlagged(p: Snap, i: nat, asc: bool)
    requires forall n :: 0 <= n < |SnapView(p)| && n > 0 ==> SnapView(p)[n].val != []
    requires Left(p, i, asc) != []
    ensures Left(p, i, asc)[0].val != []
  {
  }

  /** The comparison against the direction, in words. */
  lemma ComparedBefore(k1: Bytes, k2: Bytes, direction: int)
    requires direction == 1 || direction == -1
    ensures k1 != k2 ==> (Compare(k1, k2) == -direction <==> Before(direction == 1, k1, k2))
    ensures k1 != k2 ==> (Compare(k1, k2) == direction <==> !Before(direction == 1, k1, k2))
    ensures k1 == k2 <==> Compare(k1, k2) == 0
  {
    CompareAntisymmetric(k1, k2);
  }
}
