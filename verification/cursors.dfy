/** The cursor over a tree: a path of nodes with a position in each. */
module Cursors {
  import opened Bytes
  import opened SortedSeq
  import opened Nodes
  import opened Trees
  import opened TreeOps
  import opened Positions
  import opened BTrees
  import PS = PageStore

  /** The nodes along a path. */
  ghost predicate Along(t: Tree, path: seq<Node>, pos: seq<nat>, upto: nat) {
    && upto <= |path| && upto <= |pos| + 1
    && (forall l :: 0 <= l < upto ==> path[l] == NodeOf(SubAt(t, pos[..l])))
  }

  /** On an entry of the tree. */
  ghost predicate On(t: Tree, h: nat, path: seq<Node>, pos: seq<nat>) {
    && |path| == |pos| == h + 1 && Path(t, pos) && Along(t, path, pos, h + 1)
  }

  /** Just behind the last entry of the tree. */
  ghost predicate Behind(t: Tree, h: nat, path: seq<Node>, pos: seq<nat>) {
    && |path| == |pos| == h + 1 && Last(pos) > 0 && Last(pos) == |path[h].es|
    && On(t, h, path, pos[h := pos[h] - 1])
    && NextAt(t, pos[h := pos[h] - 1]) == []
  }

  /** The cursor is at position `i` of the flat sequence; `|Flat(t)|` is behind the last entry. */
  ghost predicate Pointing(t: Tree, h: nat, path: seq<Node>, pos: seq<nat>, i: nat) {
    if i < |Flat(t)| then On(t, h, path, pos) && StartOf(t, pos) == i
    else i == |Flat(t)| && Behind(t, h, path, pos)
  }

  /** The nodes on a path of slots down to `level`, the rest as before. */
  ghost predicate AtSlot(t: Tree, h: nat, level: nat, q: seq<nat>, path0: seq<Node>, pos0: seq<nat>, path: seq<Node>, pos: seq<nat>) {
    && |path| == |pos| == |path0| == |pos0| == h + 1 && level <= h && |q| == level + 1
    && pos[..level + 1] == q && Path(t, q) && Along(t, path, pos, level + 1)
    && (forall l :: level < l <= h ==> path[l] == path0[l] && pos[l] == pos0[l])
  }

  /** As `AtSlot`, and the slot's kid has been entered at its first or last slot. */
  ghost predicate MovedTo(t: Tree, h: nat, level: nat, q: seq<nat>, last: bool,
                          path0: seq<Node>, pos0: seq<nat>, path: seq<Node>, pos: seq<nat>) {
    && |path| == |pos| == |path0| == |pos0| == h + 1 && level <= h && |q| == level + 1
    && pos[..level + 1] == q && Path(t, q) && Along(t, path, pos, level + 1)
    && (level < h ==> path[level + 1] == NodeOf(SubAt(t, q)) &&
                      pos[level + 1] == if last then |path[level + 1].es| - 1 else 0)
    && (forall l :: level + 1 < l <= h ==> path[l] == path0[l] && pos[l] == pos0[l])
  }

  /**
   * Without a next slot: the leaf position is incremented, but every frame between the top and the
   * leaf then enters the kid under its position once more, at slot 0.
   */
  ghost predicate Wrapped(t: Tree, h: nat, level: nat, path0: seq<Node>, pos0: seq<nat>, path: seq<Node>, pos: seq<nat>) {
    && |path| == |pos| == |path0| == |pos0| == h + 1 && level <= h
    && if h < 2 || level == 0 then
         path == path0 && pos == pos0[h := pos0[h] + 1]
       else
         var m := if level < h then level + 1 else h;
         && pos[..2] == pos0[..2] && path[..2] == path0[..2]
         && (forall l :: 2 <= l <= m ==> pos[l] == 0 && path[l] == NodeOf(SubAt(t, pos[..l])))
         && (forall l :: m < l <= h ==> path[l] == path0[l] && pos[l] == if l == h then pos0[l] + 1 else pos0[l])
  }

  lemma OnBounds(t: Tree, h: nat, path: seq<Node>, pos: seq<nat>, level: nat)
    requires Good(t, h) && On(t, h, path, pos) && level <= h
    ensures Path(t, pos[..level + 1]) && Front(pos[..level + 1]) == pos[..level] && Last(pos[..level + 1]) == pos[level]
    ensures pos[level] < |path[level].es| == Slots(SubAt(t, pos[..level]))
    ensures path[level] == NodeOf(SubAt(t, pos[..level]))
  {
    PathTake(t, pos, level + 1);
    PathTake(t, pos, level);
    PathFront(t, pos[..level + 1]);
    SubGood(t, h, pos[..level]);
  }

  lemma StepRight(t: Tree, h: nat, path: seq<Node>, pos: seq<nat>, level: nat)
    requires Good(t, h) && On(t, h, path, pos) && level <= h && pos[level] + 1 < |path[level].es|
    ensures NextAt(t, pos[..level + 1]) != []
    ensures AtSlot(t, h, level, NextAt(t, pos[..level + 1]), path, pos, path, pos[level := pos[level] + 1])
  {
    hide Good, SubAt, Path, NodeOf;
    OnBounds(t, h, path, pos, level);
    NextCorrect(t, h, pos[..level + 1]);
    var pos' := pos[level := pos[level] + 1];
    assert pos'[..level + 1] == pos[..level] + [pos[level] + 1];
    forall l | 0 <= l <= level ensures path[l] == NodeOf(SubAt(t, pos'[..l])) {
      assert pos'[..l] == pos[..l];
    }
  }

  lemma CarryRight(t: Tree, h: nat, path0: seq<Node>, pos0: seq<nat>, level: nat, path: seq<Node>, pos: seq<nat>)
    requires Good(t, h) && On(t, h, path0, pos0) && 0 < level <= h && pos0[level] + 1 == |path0[level].es|
    requires var q := NextAt(t, pos0[..level]);
             q != [] && MovedTo(t, h, level - 1, q, false, path0, pos0, path, pos)
    ensures NextAt(t, pos0[..level + 1]) != []
    ensures AtSlot(t, h, level, NextAt(t, pos0[..level + 1]), path0, pos0, path, pos)
  {
    hide Good, SubAt, Path, NodeOf;
    OnBounds(t, h, path0, pos0, level);
    NextCorrect(t, h, pos0[..level + 1]);
    assert pos[..level + 1] == pos[..level] + [0];
  }

  /** Entering the kid under the slot. */
  lemma EnterKid(t: Tree, h: nat, level: nat, q: seq<nat>, last: bool, path0: seq<Node>, pos0: seq<nat>, path: seq<Node>, pos: seq<nat>,
                 pages: map<nat, Node>)
    requires Good(t, h) && Stored(pages, t) && AtSlot(t, h, level, q, path0, pos0, path, pos)
    ensures |path| == |pos| == h + 1
    ensures level == h ==> MovedTo(t, h, level, q, last, path0, pos0, path, pos)
    ensures level < h ==>
              && pos[level] < |path[level].es| && path[level].es[pos[level]].ptr in pages
              && var kid := pages[path[level].es[pos[level]].ptr];
                 && kid.es != []
                 && MovedTo(t, h, level, q, last, path0, pos0, path[level + 1 := kid], pos[level + 1 := if last then |kid.es| - 1 else 0])
  {
    hide Good, SubAt, Path, NodeOf, Stored;
    if level < h {
      SlotPage(t, h, q, pages);
      SubGood(t, h, q);
      assert Front(q) == pos[..level] && Last(q) == pos[level];
      var kid := pages[path[level].es[pos[level]].ptr];
      var pos' := pos[level + 1 := if last then |kid.es| - 1 else 0];
      var path' := path[level + 1 := kid];
      assert pos'[..level + 1] == q;
      forall l | 0 <= l <= level ensures path'[l] == NodeOf(SubAt(t, pos'[..l])) {
        assert pos'[..l] == pos[..l];
      }
    }
  }

  /** Slots 0 all the way down are there. */
  lemma {:induction false} ZerosDown(t: Tree, h: nat, p: seq<nat>, m: nat)
    requires Good(t, h) && 2 <= m <= |p| <= h + 1 && Path(t, p[..2])
    requires forall l :: 2 <= l < m ==> p[l] == 0
    ensures Path(t, p[..m])
    decreases m
  {
    hide Good, SubAt, Path;
    if m > 2 {
      ZerosDown(t, h, p, m - 1);
      DeeperOK(t, h, p[..m - 1]);
      PathExtend(t, p[..m - 1], 0);
      assert p[..m] == p[..m - 1] + [0];
    }
  }

  /** A frame between the top and the leaf undoes the increment of the leaf position. */
  lemma WrapStep(t: Tree, h: nat, level: nat, path0: seq<Node>, pos0: seq<nat>, path: seq<Node>, pos: seq<nat>, pages: map<nat, Node>)
    requires Good(t, h) && Stored(pages, t) && On(t, h, path0, pos0) && 0 < level <= h
    requires Wrapped(t, h, level - 1, path0, pos0, path, pos)
    ensures |path| == |pos| == h + 1
    ensures level == h ==> Wrapped(t, h, level, path0, pos0, path, pos)
    ensures level < h ==>
              && pos[level] < |path[level].es| && path[level].es[pos[level]].ptr in pages
              && Wrapped(t, h, level, path0, pos0, path[level + 1 := pages[path[level].es[pos[level]].ptr]], pos[level + 1 := 0])
  {
    if level < h {
      var q := pos[..level + 1];
      WrapPath(t, h, level, path0, pos0, path, pos);
      hide Good, SubAt, Path, NodeOf, Stored;
      SlotPage(t, h, q, pages);
      assert Front(q) == pos[..level] && Last(q) == pos[level];
      var kid := pages[path[level].es[pos[level]].ptr];
      var path', pos' := path[level + 1 := kid], pos[level + 1 := 0];
      assert pos'[..2] == pos[..2] && path'[..2] == path[..2];
      forall l | 2 <= l <= level + 1 ensures pos'[l] == 0 && path'[l] == NodeOf(SubAt(t, pos'[..l])) {
        assert pos'[..l] == pos[..l];
      }
    }
  }

  lemma WrapTop(t: Tree, h: nat, path: seq<Node>, pos: seq<nat>)
    requires |path| == |pos| == h + 1
    ensures Wrapped(t, h, 0, path, pos, path, pos[h := pos[h] + 1])
  {
  }

  lemma WrapPath(t: Tree, h: nat, level: nat, path0: seq<Node>, pos0: seq<nat>, path: seq<Node>, pos: seq<nat>)
    requires Good(t, h) && On(t, h, path0, pos0) && 0 < level < h
    requires Wrapped(t, h, level - 1, path0, pos0, path, pos)
    ensures Path(t, pos[..level + 1]) && path[level] == NodeOf(SubAt(t, pos[..level]))
  {
    hide Good, SubAt, NodeOf;
    PathTake(t, pos0, 2);
    assert pos[..2] == pos0[..2];
    hide Path;
    ZerosDown(t, h, pos, level + 1);
    if level == 1 {
      assert pos[..1] == pos0[..1];
    }
  }

  lemma StepLeft(t: Tree, h: nat, path: seq<Node>, pos: seq<nat>, level: nat)
    requires Good(t, h) && On(t, h, path, pos) && level <= h && pos[level] > 0
    ensures PrevAt(t, pos[..level + 1]) != []
    ensures AtSlot(t, h, level, PrevAt(t, pos[..level + 1]), path, pos, path, pos[level := pos[level] - 1])
  {
    hide Good, SubAt, Path, NodeOf;
    OnBounds(t, h, path, pos, level);
    PrevCorrect(t, h, pos[..level + 1]);
    var pos' := pos[level := pos[level] - 1];
    assert pos'[..level + 1] == pos[..level] + [pos[level] - 1];
    forall l | 0 <= l <= level ensures path[l] == NodeOf(SubAt(t, pos'[..l])) {
      assert pos'[..l] == pos[..l];
    }
  }

  lemma CarryLeft(t: Tree, h: nat, path0: seq<Node>, pos0: seq<nat>, level: nat, path: seq<Node>, pos: seq<nat>)
    requires Good(t, h) && On(t, h, path0, pos0) && 0 < level <= h && pos0[level] == 0
    requires PrevAt(t, pos0[..level + 1]) != []
    requires var q := PrevAt(t, pos0[..level]);
             q != [] && MovedTo(t, h, level - 1, q, true, path0, pos0, path, pos)
    ensures AtSlot(t, h, level, PrevAt(t, pos0[..level + 1]), path0, pos0, path, pos)
  {
    hide Good, SubAt, Path, NodeOf;
    OnBounds(t, h, path0, pos0, level);
    PrevCorrect(t, h, pos0[..level + 1]);
    var q := PrevAt(t, pos0[..level]);
    SubGood(t, h, q);
    assert pos[..level + 1] == pos[..level] + [pos[level]];
  }

  lemma SomethingLeft(t: Tree, h: nat, path: seq<Node>, pos: seq<nat>, level: nat)
    requires Good(t, h) && On(t, h, path, pos) && level <= h && pos[level] == 0
    requires PrevAt(t, pos[..level + 1]) != []
    ensures level > 0 && PrevAt(t, pos[..level]) != []
  {
    hide Good, SubAt, Path, NodeOf;
    OnBounds(t, h, path, pos, level);
  }

  lemma ArrivedLeft(t: Tree, h: nat, path0: seq<Node>, pos0: seq<nat>, path: seq<Node>, pos: seq<nat>)
    requires Good(t, h) && On(t, h, path0, pos0)
    requires PrevAt(t, pos0) != [] && MovedTo(t, h, h, PrevAt(t, pos0), true, path0, pos0, path, pos)
    ensures StartOf(t, pos0) > 0 && Pointing(t, h, path, pos, StartOf(t, pos0) - 1)
  {
    hide Good, SubAt, NodeOf, Flat, StartOf, EndOf, PrevAt, Path;
    PrevCorrect(t, h, pos0);
    EntryAt(t, h, pos0);
    EntryAt(t, h, PrevAt(t, pos0));
    assert pos[..h + 1] == pos;
  }

  /** From behind the last entry back to it. */
  lemma ArrivedLast(t: Tree, h: nat, path: seq<Node>, pos: seq<nat>)
    requires Good(t, h) && Behind(t, h, path, pos)
    ensures pos[h] > 0 && |Flat(t)| > 0 && Pointing(t, h, path, pos[h := pos[h] - 1], |Flat(t)| - 1)
  {
    hide Good, SubAt, NodeOf, Flat, StartOf, EndOf, NextAt, Path, Along;
    var p := pos[h := pos[h] - 1];
    NextCorrect(t, h, p);
    EntryAt(t, h, p);
  }

  /** Where a complete move to the right ends up. */
  lemma ArrivedRight(t: Tree, h: nat, path0: seq<Node>, pos0: seq<nat>, path: seq<Node>, pos: seq<nat>)
    requires Good(t, h) && On(t, h, path0, pos0)
    requires NextAt(t, pos0) != [] && MovedTo(t, h, h, NextAt(t, pos0), false, path0, pos0, path, pos)
    ensures StartOf(t, pos0) + 1 < |Flat(t)|
    ensures Pointing(t, h, path, pos, StartOf(t, pos0) + 1)
  {
    hide Good, SubAt, NodeOf, Flat, StartOf, EndOf, NextAt, Path;
    NextCorrect(t, h, pos0);
    EntryAt(t, h, pos0);
    EntryAt(t, h, NextAt(t, pos0));
    assert pos[..h + 1] == pos;
  }

  /** Without a next entry, trees of at most two levels end; deeper ones go back to the turn. */
  lemma ArrivedEnd(t: Tree, h: nat, path0: seq<Node>, pos0: seq<nat>, path: seq<Node>, pos: seq<nat>)
    requires Good(t, h) && On(t, h, path0, pos0) && NextAt(t, pos0) == []
    requires Wrapped(t, h, h, path0, pos0, path, pos)
    ensures StartOf(t, pos0) + 1 == |Flat(t)|
    ensures h < 2 ==> Pointing(t, h, path, pos, |Flat(t)|)
    ensures h >= 2 ==> Turn(t) < |Flat(t)| && Pointing(t, h, path, pos, Turn(t))
  {
    hide Good, NodeOf, SubAt, Path, Flat, StartOf, EndOf, NextAt, Wrapped, Turn;
    NextCorrect(t, h, pos0);
    EntryAt(t, h, pos0);
    if h >= 2 {
      LastTurn(t, h, pos0);
      ArrivedBack(t, h, path0, pos0, path, pos);
    } else {
      ArrivedBehind(t, h, path0, pos0, path, pos);
    }
  }

  lemma ArrivedBehind(t: Tree, h: nat, path0: seq<Node>, pos0: seq<nat>, path: seq<Node>, pos: seq<nat>)
    requires Good(t, h) && On(t, h, path0, pos0) && NextAt(t, pos0) == [] && h < 2
    requires Wrapped(t, h, h, path0, pos0, path, pos)
    ensures Behind(t, h, path, pos)
  {
    NothingFurther(t, h, path0, pos0);
    hide Good, SubAt, NodeOf, NextAt, Path;
    assert pos[h := pos[h] - 1] == pos0;
  }

  lemma ArrivedBack(t: Tree, h: nat, path0: seq<Node>, pos0: seq<nat>, path: seq<Node>, pos: seq<nat>)
    requires Good(t, h) && On(t, h, path0, pos0) && h >= 2
    requires Wrapped(t, h, h, path0, pos0, path, pos)
    ensures Path(t, pos0[..2]) && StartOf(t, pos0[..2]) < |Flat(t)| && Pointing(t, h, path, pos, StartOf(t, pos0[..2]))
  {
    hide Good, NodeOf, SubAt, Path, Flat, StartOf;
    PathTake(t, pos0, 2);
    assert pos[..2] == pos0[..2];
    ZerosDown(t, h, pos, h + 1);
    ZerosStart(t, h, pos, h + 1);
    assert pos[..h + 1] == pos;
    WrapAlong(t, h, path0, pos0, path, pos);
    EntryAt(t, h, pos);
  }

  lemma NothingFurther(t: Tree, h: nat, path: seq<Node>, pos: seq<nat>)
    requires Good(t, h) && On(t, h, path, pos) && NextAt(t, pos) == []
    ensures pos[h] + 1 == |path[h].es|
  {
    OnBounds(t, h, path, pos, h);
    assert pos[..h + 1] == pos;
  }

  lemma WrapAlong(t: Tree, h: nat, path0: seq<Node>, pos0: seq<nat>, path: seq<Node>, pos: seq<nat>)
    requires h >= 2 && On(t, h, path0, pos0) && Wrapped(t, h, h, path0, pos0, path, pos)
    ensures Along(t, path, pos, h + 1)
  {
    hide SubAt, NodeOf;
    assert pos[..2] == pos0[..2] && path[..2] == path0[..2];
    forall l | 0 <= l < h + 1 ensures path[l] == NodeOf(SubAt(t, pos[..l])) {
      if l < 2 {
        assert path[l] == path[..2][l] == path0[l];
        assert pos[..l] == pos[..2][..l] == pos0[..l];
      }
    }
  }

  /** Zeros do not move the start. */
  lemma {:induction false} ZerosStart(t: Tree, h: nat, p: seq<nat>, m: nat)
    requires Good(t, h) && 2 <= m <= |p| <= h + 1 && Path(t, p[..2]) && Path(t, p[..m])
    requires forall l :: 2 <= l < m ==> p[l] == 0
    ensures StartOf(t, p[..m]) == StartOf(t, p[..2])
    decreases m
  {
    hide Good, SubAt, Path, StartOf, EndOf, Flat;
    if m > 2 {
      Positions.StartStep(t, p[..m]);
      assert Front(p[..m]) == p[..m - 1];
      ZerosStart(t, h, p, m - 1);
      AllSlots(SubAt(t, p[..m - 1]));
    }
  }

  lemma NothingRight(t: Tree, h: nat, path: seq<Node>, pos: seq<nat>, level: nat)
    requires Good(t, h) && On(t, h, path, pos) && level <= h && pos[level] + 1 == |path[level].es|
    requires level > 0 ==> NextAt(t, pos[..level]) == []
    ensures NextAt(t, pos[..level + 1]) == []
  {
    hide Good, SubAt, Path, NodeOf;
    OnBounds(t, h, path, pos, level);
  }

  class BIter {
    const store: PS.PageStore
    var path: seq<Node>  // from root to leaf
    var pos: seq<nat>  // position in each node of the path

    constructor Empty(store: PS.PageStore)
      ensures this.store == store && path == [] && pos == []
    {
      this.store := store;
      path, pos := [], [];
    }

    /** At the first entry of the tree, the sentinel (or in an empty tree). */
    function IterIsFirst(): bool
      reads this
    {
      forall i :: 0 <= i < |pos| ==> pos[i] == 0
    }

    /** In an empty tree, or behind the last entry. */
    function IterIsEnd(): bool
      requires |path| == |pos|
      reads this
    {
      |path| == 0 || pos[|path| - 1] == |path[|path| - 1].es|
    }

    predicate Valid()
      requires |path| == |pos|
      reads this
    {
      !(IterIsFirst() || IterIsEnd())
    }

    method Deref(ghost t: Tree, ghost h: nat) returns (key: Bytes, val: Bytes)
      requires Good(t, h) && On(t, h, path, pos)
      ensures StartOf(t, pos) < |Flat(t)|
      ensures key == Flat(t)[StartOf(t, pos)].key && val == Flat(t)[StartOf(t, pos)].val
    {
      hide Flat, Good, SubAt, StartOf, Path;
      EntryAt(t, h, pos);
      assert path[h] == NodeOf(SubAt(t, pos[..h]));
      var leaf := path[|path| - 1];
      key, val := leaf.es[pos[|path| - 1]].key, leaf.es[pos[|path| - 1]].val;
    }

    /** Move to the next slot of the node at `level`, or of the nodes above, and enter its first kid. */
    method IterNext(level: nat, ghost t: Tree, ghost h: nat)
      requires store.Readable() && Good(t, h) && Stored(store.Nodes(), t)
      requires On(t, h, path, pos) && level <= h
      requires forall l :: level < l <= h ==> pos[l] + 1 == |path[l].es|
      modifies this
      ensures var q := NextAt(t, old(pos)[..level + 1]);
              if q != [] then MovedTo(t, h, level, q, false, old(path), old(pos), path, pos)
              else Wrapped(t, h, level, old(path), old(pos), path, pos)
      decreases level
    {
      hide Flat, Good, SubAt, StartOf, EndOf, Path, Stored, PS.PageStore.Readable, PS.PageStore.Nodes, NodeOf, NextAt, MovedTo, AtSlot, Wrapped;
      ghost var pos0, path0, pages := pos, path, store.Nodes();
      ghost var q := NextAt(t, pos[..level + 1]);
      OnBounds(t, h, path, pos, level);
      if pos[level] + 1 < |path[level].es| {
        StepRight(t, h, path, pos, level);
        pos := pos[level := pos[level] + 1];
      } else if level > 0 {
        IterNext(level - 1, t, h);
        if NextAt(t, pos0[..level]) == [] {
          NothingRight(t, h, path0, pos0, level);
          WrapStep(t, h, level, path0, pos0, path, pos, pages);
        } else {
          CarryRight(t, h, path0, pos0, level, path, pos);
        }
      } else {
        NothingRight(t, h, path0, pos0, level);
        WrapTop(t, h, path, pos);
        var leaf := |pos| - 1;
        pos := pos[leaf := pos[leaf] + 1];
        return;
      }
      if q != [] {
        EnterKid(t, h, level, q, false, path0, pos0, path, pos, pages);
      }
      if level < |pos| - 1 {
        var node := path[level];
        var kid := store.Read(node.es[pos[level]].ptr);
        path := path[level + 1 := kid];
        pos := pos[level + 1 := 0];
      }
    }

    /**
     * Move forward; stay if already behind the last entry. At the last entry the end is reached
     * only in trees of at most two levels; deeper ones go back to the turn.
     */
    method Next(ghost t: Tree, ghost h: nat, ghost i: nat)
      requires store.Readable() && Good(t, h) && Stored(store.Nodes(), t)
      requires Pointing(t, h, path, pos, i)
      modifies this
      ensures i + 1 < |Flat(t)| ==> Pointing(t, h, path, pos, i + 1)
      ensures i == |Flat(t)| ==> path == old(path) && pos == old(pos)
      ensures i + 1 == |Flat(t)| && h < 2 ==> Pointing(t, h, path, pos, |Flat(t)|)
      ensures i + 1 == |Flat(t)| && h >= 2 ==> Turn(t) < |Flat(t)| && Pointing(t, h, path, pos, Turn(t))
    {
      hide Good, SubAt, Stored, PS.PageStore.Readable, PS.PageStore.Nodes, NodeOf, Flat, StartOf, EndOf, NextAt, MovedTo, Wrapped, Path, Turn;
      ghost var path0, pos0 := path, pos;
      EndTest(t, h, path, pos, i);
      if !IterIsEnd() {
        assert pos[..h + 1] == pos;
        IterNext(|path| - 1, t, h);
        if NextAt(t, pos0) == [] {
          ArrivedEnd(t, h, path0, pos0, path, pos);
        } else {
          ArrivedRight(t, h, path0, pos0, path, pos);
          EntryAt(t, h, pos0);
        }
      }
    }

    /** Move to the previous slot, entering the last kid on the way down. The top frame never runs out. */
    method IterPrev(level: nat, ghost t: Tree, ghost h: nat)
      requires store.Readable() && Good(t, h) && Stored(store.Nodes(), t)
      requires level <= h
      requires if Behind(t, h, path, pos) then level == h
               else On(t, h, path, pos) && PrevAt(t, pos[..level + 1]) != []
      modifies this
      ensures if old(Behind(t, h, path, pos)) then path == old(path) && pos == old(pos)[h := old(pos)[h] - 1]
              else MovedTo(t, h, level, PrevAt(t, old(pos)[..level + 1]), true, old(path), old(pos), path, pos)
      decreases level
    {
      hide Flat, Good, SubAt, StartOf, EndOf, Path, Stored, PS.PageStore.Readable, PS.PageStore.Nodes, NodeOf, PrevAt, MovedTo, AtSlot, Along, NextAt;
      ghost var pos0, path0, pages := pos, path, store.Nodes();
      ghost var behind := Behind(t, h, path, pos);
      ghost var q := if behind then [0] else PrevAt(t, pos[..level + 1]);
      if !behind {
        NotBehind(t, h, path, pos);
        OnBounds(t, h, path, pos, level);
      }
      hide Behind;
      if pos[level] > 0 {
        if !behind {
          StepLeft(t, h, path, pos, level);
        }
        pos := pos[level := pos[level] - 1];
      } else {
        SomethingLeft(t, h, path, pos, level);
        IterPrev(level - 1, t, h);
        CarryLeft(t, h, path0, pos0, level, path, pos);
      }
      if !behind {
        EnterKid(t, h, level, q, true, path0, pos0, path, pos, pages);
      }
      if level < |pos| - 1 {
        var node := path[level];
        var kid := store.Read(node.es[pos[level]].ptr);
        path := path[level + 1 := kid];
        pos := pos[level + 1 := |kid.es| - 1];
      }
    }

    /** Move backward; stay if already at the first entry. */
    method Prev(ghost t: Tree, ghost h: nat, ghost i: nat)
      requires store.Readable() && Good(t, h) && Stored(store.Nodes(), t)
      requires Pointing(t, h, path, pos, i)
      modifies this
      ensures Pointing(t, h, path, pos, if i == 0 then 0 else i - 1)
    {
      hide Good, SubAt, Stored, PS.PageStore.Readable, PS.PageStore.Nodes, NodeOf, Flat, StartOf, EndOf, NextAt, PrevAt, MovedTo, Path, Along;
      ghost var path0, pos0 := path, pos;
      EndTest(t, h, path, pos, i);
      FirstTest(t, h, path, pos, i);
      if !IterIsFirst() {
        assert pos[..h + 1] == pos;
        if i < |Flat(t)| {
          NotBehind(t, h, path, pos);
        } else {
          ArrivedLast(t, h, path, pos);
        }
        hide Behind;
        IterPrev(|path| - 1, t, h);
        if i < |Flat(t)| {
          ArrivedLeft(t, h, path0, pos0, path, pos);
        }
      }
    }
  }

  lemma NotBehind(t: Tree, h: nat, path: seq<Node>, pos: seq<nat>)
    requires Good(t, h) && On(t, h, path, pos)
    ensures !Behind(t, h, path, pos)
  {
    OnBounds(t, h, path, pos, h);
  }

  lemma FirstTest(t: Tree, h: nat, path: seq<Node>, pos: seq<nat>, i: nat)
    requires Good(t, h) && Pointing(t, h, path, pos, i)
    ensures (forall l :: 0 <= l < |pos| ==> pos[l] == 0) <==> i == 0
    ensures 0 < i < |Flat(t)| ==> PrevAt(t, pos) != []
  {
    hide Good, SubAt, NodeOf, Flat, StartOf, EndOf, NextAt, PrevAt, Path, Along;
    if i < |Flat(t)| {
      OnlyZeros(t, h, pos);
      PrevCorrect(t, h, pos);
    } else {
      ArrivedLast(t, h, path, pos);
      assert pos[h] != 0;
    }
  }

  /** The end test of the cursor is exact. */
  lemma EndTest(t: Tree, h: nat, path: seq<Node>, pos: seq<nat>, i: nat)
    requires Good(t, h) && Pointing(t, h, path, pos, i)
    ensures |path| == |pos| == h + 1
    ensures pos[h] == |path[h].es| <==> i == |Flat(t)|
    ensures i < |Flat(t)| ==> On(t, h, path, pos) && StartOf(t, pos) == i
  {
    if i < |Flat(t)| {
      OnBounds(t, h, path, pos, h);
    }
  }

  /** The cursor is valid exactly on the entries behind the sentinel. */
  lemma CursorValid(it: BIter, t: Tree, h: nat, i: nat)
    requires Good(t, h) && Pointing(t, h, it.path, it.pos, i)
    ensures |it.path| == |it.pos|
    ensures it.Valid() <==> 0 < i < |Flat(t)|
  {
    hide Good, Pointing, Flat;
    PointingLengths(t, h, it.path, it.pos, i);
    EndTest(t, h, it.path, it.pos, i);
    FirstTest(t, h, it.path, it.pos, i);
  }

  // ---- seeking ----

  /** The search for `key` has reached the subtree under `pos`, which is stored at `ptr`. */
  ghost predicate Searching(t: Tree, h: nat, key: Bytes, path: seq<Node>, pos: seq<nat>, ptr: nat, pages: map<nat, Node>) {
    && |path| == |pos| <= h && Path(t, pos) && Along(t, path, pos, |pos|)
    && ptr != 0 && ptr in pages && InHand(pages, pages[ptr], SubAt(t, pos), h - |pos|)
    && Good(SubAt(t, pos), h - |pos|) && Le(FirstKey(SubAt(t, pos)), key)
    && StartOf(t, pos) + LE(Flat(SubAt(t, pos)), key) == LE(Flat(t), key)
  }

  /** Inside an inner node, the search enters the kid under the separator found. */
  lemma SearchInner(t: Tree, h: nat, key: Bytes, path: seq<Node>, pos: seq<nat>, ptr: nat, pages: map<nat, Node>, idx: nat)
    requires Good(t, h) && Searching(t, h, key, path, pos, ptr, pages) && |pos| < h
    requires idx == LE(pages[ptr].es, key) && idx < |pages[ptr].es|
    ensures pages[ptr].es[idx].ptr != 0
    ensures Searching(t, h, key, path + [pages[ptr]], pos + [idx], pages[ptr].es[idx].ptr, pages)
  {
    hide Compare, LE, Flat, FlatKids, EsSize, FirstKey, WF, Sorted, Stored, Path, StartOf, Le, SubAt;
    var sub := SubAt(t, pos);
    DeeperOK(t, h, pos);
    Kinds(sub, h - |pos|);
    Enter(sub.kids, h - |pos|, key, pages);
    PathExtend(t, pos, idx);
    SubStep(t, pos, idx);
    Positions.StartStep(t, pos + [idx]);
    KidIndex(sub.kids, h - |pos|, key);
    AlongMore(t, path, pos, pages[ptr], idx);
  }

  lemma KidIndex(kids: seq<Kid>, h: nat, key: Bytes)
    requires h > 0 && Good(Inner(kids), h) && Sorted(FlatKids(kids)) && Le(FirstKey(Inner(kids)), key)
    ensures 0 <= LE(Seps(kids), key) < |kids|
    ensures LE(FlatKids(kids), key) == Start(kids, LE(Seps(kids), key)) + LE(Flat(kids[LE(Seps(kids), key)].sub), key)
  {
    hide Compare, LE, FlatKids, Flat, EsSize, Sorted;
    SepsSorted(kids, h - 1);
    LECorrect(Seps(kids), key);
    var r := LE(Seps(kids), key);
    LtNotGe(key, Seps(kids)[0].key);
    Descend(kids, h - 1, key, r);
    AroundKid(kids, r);
    LEMiddle(FlatKids(kids[..r]), Flat(kids[r].sub), FlatKids(kids[r + 1..]), key);
  }

  lemma AlongMore(t: Tree, path: seq<Node>, pos: seq<nat>, node: Node, idx: nat)
    requires |path| == |pos| && Along(t, path, pos, |pos|) && node == NodeOf(SubAt(t, pos))
    ensures Along(t, path + [node], pos + [idx], |pos| + 1)
  {
    hide SubAt, NodeOf;
    forall l | 0 <= l < |pos| + 1 ensures (path + [node])[l] == NodeOf(SubAt(t, (pos + [idx])[..l])) {
      assert (pos + [idx])[..l] == pos[..l];
      if l == |pos| {
        assert pos[..l] == pos;
      }
    }
  }

  /** In the leaf, the position found is the position in the whole tree. */
  lemma SearchLeaf(t: Tree, h: nat, key: Bytes, path: seq<Node>, pos: seq<nat>, ptr: nat, pages: map<nat, Node>, idx: nat)
    requires Good(t, h) && Searching(t, h, key, path, pos, ptr, pages) && |pos| == h
    requires idx == LE(pages[ptr].es, key) && idx < |pages[ptr].es|
    ensures pages[ptr].leaf && pages[ptr].es[idx].ptr == 0
    ensures Pointing(t, h, path + [pages[ptr]], pos + [idx], LE(Flat(t), key))
  {
    hide Compare, LE, FlatKids, EsSize, FirstKey, Sorted, Stored, Path, StartOf, Le, SubAt, Flat;
    var sub := SubAt(t, pos);
    DeeperOK(t, h, pos);
    Kinds(sub, h - |pos|);
    assert EntryOK(sub.es[idx]);
    PathExtend(t, pos, idx);
    Positions.StartStep(t, pos + [idx]);
    AlongMore(t, path, pos, pages[ptr], idx);
    EntryAt(t, h, pos + [idx]);
  }

  lemma SearchStart(t: Tree, h: nat, key: Bytes, root: nat, pages: map<nat, Node>)
    requires RootOK(pages, root, t, h)
    ensures Searching(t, h, key, [], [], root, pages)
    ensures 0 <= LE(Flat(t), key) < |Flat(t)|
  {
    hide Compare, LE, FlatKids, EsSize, Sorted, Stored, Flat;
    NoPath(t);
    EmptyFirst(key);
    GoodFirst(t, h);
    LECorrect(Flat(t), key);
    LtNotGe(key, Flat(t)[0].key);
  }

  /** Seek to the last entry whose key is at most `key`. */
  method SeekLE(tree: BTree, key: Bytes) returns (iter: BIter)
    requires tree.Readable()
    ensures fresh(iter) && iter.store == tree.store
    ensures tree.root == 0 ==> iter.path == [] && iter.pos == []
    ensures tree.root != 0 ==> 0 <= LE(Flat(tree.t), key) && Pointing(tree.t, tree.h, iter.path, iter.pos, LE(Flat(tree.t), key))
  {
    hide Compare, LE, Flat, Good, NodeOf, SubAt, StartOf, Path, Stored, PS.PageStore.Readable, PS.PageStore.Nodes, Sorted, FirstKey, Searching, Pointing, RootOK, Pages,
      InHand;
    iter := new BIter.Empty(tree.store);
    ghost var t, h, pages := tree.t, tree.h, tree.store.Nodes();
    if tree.root != 0 {
      SearchStart(t, h, key, tree.root, pages);
    }
    var ptr := tree.root;
    while ptr != 0
      invariant tree.store.Readable() && tree.store.Nodes() == pages && iter.store == tree.store
      invariant tree.root != 0 ==> RootOK(pages, tree.root, t, h)
      invariant ptr != 0 ==> tree.root != 0 && Searching(t, h, key, iter.path, iter.pos, ptr, pages)
      invariant ptr == 0 && tree.root == 0 ==> iter.path == [] && iter.pos == []
      invariant ptr == 0 && tree.root != 0 ==> Pointing(t, h, iter.path, iter.pos, LE(Flat(t), key))
      decreases h + 1 - |iter.pos|, ptr
    {
      SearchNode(t, h, key, iter.path, iter.pos, ptr, pages);
      var node := tree.store.Read(ptr);
      var idx := NodeLookupLE(node, key);
      RootGood(pages, tree.root, t, h);
      if |iter.pos| < h {
        SearchInner(t, h, key, iter.path, iter.pos, ptr, pages, idx);
      } else {
        SearchLeaf(t, h, key, iter.path, iter.pos, ptr, pages, idx);
      }
      iter.path := iter.path + [node];
      iter.pos := iter.pos + [idx];
      ptr := node.es[idx].ptr;
    }
  }

  lemma RootGood(pages: map<nat, Node>, root: nat, t: Tree, h: nat)
    requires RootOK(pages, root, t, h)
    ensures Good(t, h) && Stored(pages, t) && Sorted(Flat(t))
  {
  }

  lemma SearchNode(t: Tree, h: nat, key: Bytes, path: seq<Node>, pos: seq<nat>, ptr: nat, pages: map<nat, Node>)
    requires Searching(t, h, key, path, pos, ptr, pages)
    ensures ptr in pages && |pos| <= h && Sorted(pages[ptr].es) && 0 <= LE(pages[ptr].es, key) < |pages[ptr].es|
  {
    hide Compare, LE, Flat, EsSize, FirstKey, Stored, Path, StartOf, SubAt, Sorted;
    LookupInRange(SubAt(t, pos), h - |pos|, key);
  }

  /** The position that `cmp` and `key` ask for: the nearest entry that satisfies them, if there is one. */
  ghost function Target(s: seq<Entry>, key: Bytes, cmp: Cmp): nat
    requires 0 <= LE(s, key) < |s|
  {
    var r := LE(s, key);
    match cmp
    case CmpLE => r
    case CmpLT => if s[r].key == key && r > 0 then r - 1 else r
    case CmpGE => if s[r].key == key then r else r + 1
    case CmpGT => r + 1
  }

  /** `Target` is the nearest position: everything on its side satisfies the comparison, the rest does not. */
  lemma TargetNearest(s: seq<Entry>, key: Bytes, cmp: Cmp)
    requires Sorted(s) && 0 <= LE(s, key) < |s|
    ensures var i := Target(s, key, cmp);
            && i <= |s|
            && (cmp.CmpGE? || cmp.CmpGT? ==> forall j :: 0 <= j < |s| ==> (CmpOK(s[j].key, cmp, key) <==> i <= j))
            && (cmp.CmpLE? || cmp.CmpLT? ==> s[0].key != key ==> forall j :: 0 <= j < |s| ==> (CmpOK(s[j].key, cmp, key) <==> j <= i))
  {
    hide Compare, LE, Sorted;
    LECorrect(s, key);
    forall j | 0 <= j < |s|
      ensures cmp.CmpGE? || cmp.CmpGT? ==> (CmpOK(s[j].key, cmp, key) <==> Target(s, key, cmp) <= j)
      ensures (cmp.CmpLE? || cmp.CmpLT?) && s[0].key != key ==> (CmpOK(s[j].key, cmp, key) <==> j <= Target(s, key, cmp))
    {
      TargetAt(s, key, cmp, j);
    }
  }

  lemma TargetAt(s: seq<Entry>, key: Bytes, cmp: Cmp, j: nat)
    requires Sorted(s) && 0 <= LE(s, key) < |s| && IsLE(s, key, LE(s, key)) && j < |s|
    ensures cmp.CmpGE? || cmp.CmpGT? ==> (CmpOK(s[j].key, cmp, key) <==> Target(s, key, cmp) <= j)
    ensures (cmp.CmpLE? || cmp.CmpLT?) && s[0].key != key ==> (CmpOK(s[j].key, cmp, key) <==> j <= Target(s, key, cmp))
  {
    hide Compare, LE;
    var r := LE(s, key);
    LtNotGe(s[j].key, key);
    CompareAntisymmetric(s[j].key, key);
    if s[j].key == key {
      OnlyAt(s, key, j);
    } else if j <= r {
      CompareZero(s[j].key, key);
    }
    if s[r].key == key {
      OnlyAt(s, key, r);
    }
  }

  /**
   * Seek to the nearest entry satisfying `cmp` with `key`. `ok` is false where the source's final
   * assertion fails: there is no such entry to the right, and the tree is too deep to end there.
   */
  method Seek(tree: BTree, key: Bytes, cmp: Cmp) returns (ok: bool, iter: BIter)
    requires tree.Readable()
    ensures fresh(iter) && iter.store == tree.store
    ensures tree.root == 0 ==> ok && iter.path == [] && iter.pos == []
    ensures tree.root != 0 ==>
              && 0 <= LE(Flat(tree.t), key) < |Flat(tree.t)|
              && var i := Target(Flat(tree.t), key, cmp);
                 && (i < |Flat(tree.t)| || tree.h < 2 ==> ok && Pointing(tree.t, tree.h, iter.path, iter.pos, i))
                 && (i == |Flat(tree.t)| && tree.h >= 2 ==>
                       Pointing(tree.t, tree.h, iter.path, iter.pos, Turn(tree.t)) && (ok <==> Turn(tree.t) == 0))
  {
    hide Compare, LE, Flat, Good, NodeOf, SubAt, StartOf, Path, Stored, PS.PageStore.Readable, PS.PageStore.Nodes, Sorted, FirstKey, Searching, Pointing, RootOK, Pages,
      InHand, Turn;
    iter := SeekLE(tree, key);
    ok := true;
    ghost var t, h, pages := tree.t, tree.h, tree.store.Nodes();
    if tree.root == 0 {
      assert iter.IterIsFirst();
      assert !iter.Valid();
      return;
    }
    SearchStart(t, h, key, tree.root, pages);
    RootGood(pages, tree.root, t, h);
    ghost var r := LE(Flat(t), key);
    TargetNearest(Flat(t), key, cmp);
    SeekStep(Flat(t), key, cmp);
    SentinelFirst(t, h, pages, tree.root);
    PointingLengths(t, h, iter.path, iter.pos, r);
    hide CmpOK, Target;
    ghost var at := r;
    if cmp != CmpLE {
      var cur := [];
      FirstTest(t, h, iter.path, iter.pos, r);
      if !iter.IterIsFirst() {
        var val;
        cur, val := iter.Deref(t, h);
      }
      if !CmpOK(cur, cmp, key) {
        if cmp.CmpGE? || cmp.CmpGT? {
          at := if r + 1 == |Flat(t)| && h >= 2 then Turn(t) else r + 1;
          iter.Next(t, h, r);
        } else {
          at := if r == 0 then 0 else r - 1;
          iter.Prev(t, h, r);
        }
      }
    }
    ok := Landed(iter, key, cmp, t, h, at);
    FirstTest(t, h, iter.path, iter.pos, at);
    if Flat(t)[0].key == key {
      SeekKey(Flat(t), key, cmp);
    }
  }

  /** For the sentinel's own key only the sentinel qualifies downwards. */
  lemma SeekKey(s: seq<Entry>, key: Bytes, cmp: Cmp)
    requires Sorted(s) && 0 <= LE(s, key) < |s| && s[0].key == key
    ensures (cmp.CmpLE? || cmp.CmpLT?) ==> Target(s, key, cmp) == 0
  {
    hide LE;
    OnlyAt(s, key, 0);
  }

  /** The check after a seek: the entry found, if any, satisfies the comparison. */
  method Landed(iter: BIter, key: Bytes, cmp: Cmp, ghost t: Tree, ghost h: nat, ghost at: nat) returns (ok: bool)
    requires Good(t, h) && Pointing(t, h, iter.path, iter.pos, at)
    ensures ok <==> (0 < at < |Flat(t)| ==> CmpOK(Flat(t)[at].key, cmp, key))
  {
    hide Compare, Flat, Good, NodeOf, SubAt, StartOf, Path, CmpOK;
    EndTest(t, h, iter.path, iter.pos, at);
    FirstTest(t, h, iter.path, iter.pos, at);
    ok := true;
    if iter.Valid() {
      var key', val' := iter.Deref(t, h);
      ok := CmpOK(key', cmp, key);
    }
  }

  /** One step from the last entry at or below `key` is enough. */
  lemma SeekStep(s: seq<Entry>, key: Bytes, cmp: Cmp)
    requires Sorted(s) && 0 <= LE(s, key) < |s|
    ensures var r := LE(s, key);
            Target(s, key, cmp) ==
            if cmp.CmpLE? || CmpOK(s[r].key, cmp, key) then r
            else if cmp.CmpGE? || cmp.CmpGT? then r + 1
            else if r == 0 then 0 else r - 1
  {
    hide LE, Sorted;
    LECorrect(s, key);
  }

  lemma SentinelFirst(t: Tree, h: nat, pages: map<nat, Node>, root: nat)
    requires RootOK(pages, root, t, h)
    ensures Flat(t) != [] && Flat(t)[0].key == [] && Flat(t)[0].val == []
  {
    GoodFirst(t, h);
  }

  lemma PointingLengths(t: Tree, h: nat, path: seq<Node>, pos: seq<nat>, i: nat)
    requires Pointing(t, h, path, pos, i)
    ensures |path| == |pos| == h + 1 && i <= |Flat(t)|
    ensures i < |Flat(t)| ==> On(t, h, path, pos) && StartOf(t, pos) == i
  {
  }
}
