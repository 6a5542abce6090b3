/** Positions in a tree as paths of slot numbers, and where they lie in the flat sequence of entries. */
module Positions {
  import opened Nodes
  import opened Trees

  /** The slots of a node: its entries, or its kids. */
  ghost function Slots(t: Tree): nat {
    if t.Leaf? then |t.es| else |t.kids|
  }

  /** `p` names existing slots on the way down. */
  ghost predicate Path(t: Tree, p: seq<nat>)
    decreases |p|
  {
    p != [] ==> p[0] < Slots(t) && (|p| > 1 ==> t.Inner? && Path(t.kids[p[0]].sub, p[1..]))
  }

  /** The subtree below the slots `p`. */
  ghost function SubAt(t: Tree, p: seq<nat>): Tree
    decreases |p|
  {
    if p == [] || t.Leaf? || p[0] >= |t.kids| then t else SubAt(t.kids[p[0]].sub, p[1..])
  }

  /** Where slot `i` of the root node starts in the flat sequence. */
  ghost function Offset(t: Tree, i: nat): nat
    requires i <= Slots(t)
  {
    if t.Leaf? then i else Start(t.kids, i)
  }

  /** Where the slot named by `p` starts. */
  ghost function StartOf(t: Tree, p: seq<nat>): nat
    requires Path(t, p)
    decreases |p|
  {
    if p == [] then 0
    else if |p| == 1 then Offset(t, p[0])
    else Offset(t, p[0]) + StartOf(t.kids[p[0]].sub, p[1..])
  }

  /** Where the slot named by `p` ends. */
  ghost function EndOf(t: Tree, p: seq<nat>): nat
    requires Path(t, p) && p != []
    decreases |p|
  {
    if |p| == 1 then Offset(t, p[0] + 1)
    else Offset(t, p[0]) + EndOf(t.kids[p[0]].sub, p[1..])
  }

  ghost function Last(p: seq<nat>): nat
    requires p != []
  {
    p[|p| - 1]
  }

  ghost function Front(p: seq<nat>): seq<nat>
    requires p != []
  {
    p[..|p| - 1]
  }

  /** The next slot at the same depth, carrying upwards when a node is exhausted. */
  ghost function NextAt(t: Tree, p: seq<nat>): (q: seq<nat>)
    requires p != []
    ensures q == [] || |q| == |p|
    decreases |p|
  {
    if Last(p) + 1 < Slots(SubAt(t, Front(p))) then Front(p) + [Last(p) + 1]
    else if |p| == 1 then []
    else
      var q := NextAt(t, Front(p));
      if q == [] then [] else q + [0]
  }

  /** The previous slot at the same depth; the carry lands on the last slot of the neighbour. */
  ghost function PrevAt(t: Tree, p: seq<nat>): (q: seq<nat>)
    requires p != []
    ensures q == [] || |q| == |p|
    decreases |p|
  {
    if Last(p) > 0 then Front(p) + [Last(p) - 1]
    else if |p| == 1 then []
    else
      var q := PrevAt(t, Front(p));
      if q == [] || Slots(SubAt(t, q)) == 0 then [] else q + [Slots(SubAt(t, q)) - 1]
  }

  /** Every node of a good tree has a slot, and inner slots hold good trees. */
  lemma {:induction false} SubGood(t: Tree, h: nat, p: seq<nat>)
    requires Good(t, h) && Path(t, p) && |p| <= h
    ensures Good(SubAt(t, p), h - |p|) && Slots(SubAt(t, p)) > 0
    ensures NodeOf(SubAt(t, p)).es != [] && |NodeOf(SubAt(t, p)).es| == Slots(SubAt(t, p))
    decreases |p|
  {
    if p != [] {
      SubGood(t.kids[p[0]].sub, h - 1, p[1..]);
    }
  }

  lemma {:induction false} PathExtend(t: Tree, p: seq<nat>, i: nat)
    requires Path(t, p) && i < Slots(SubAt(t, p)) && (p != [] ==> SubAt(t, Front(p)).Inner?)
    ensures Path(t, p + [i]) && Front(p + [i]) == p && Last(p + [i]) == i
    decreases |p|
  {
    if p != [] {
      assert (p + [i])[1..] == p[1..] + [i];
      if |p| > 1 {
        assert Front(p)[1..] == Front(p[1..]) && Front(p)[0] == p[0];
      } else {
        assert Front(p) == [] && p[1..] == [];
      }
      PathExtend(t.kids[p[0]].sub, p[1..], i);
    }
  }

  lemma {:induction false} PathFront(t: Tree, p: seq<nat>)
    requires Path(t, p) && p != []
    ensures Path(t, Front(p)) && Last(p) < Slots(SubAt(t, Front(p)))
    ensures |p| > 1 ==> SubAt(t, Front(Front(p))).Inner?
    decreases |p|
  {
    if |p| == 1 {
      assert Front(p) == [];
    } else {
      var sub := t.kids[p[0]].sub;
      PathFront(sub, p[1..]);
      assert Front(p) == [p[0]] + Front(p[1..]);
      assert Front(p)[1..] == Front(p[1..]);
      if |p| == 2 {
        assert Front(Front(p)) == [];
      } else {
        assert Front(Front(p)) == [p[0]] + Front(Front(p[1..]));
        assert Front(Front(p))[1..] == Front(Front(p[1..]));
      }
    }
  }

  /** The start of a slot, seen from the slot above it. */
  lemma {:induction false} StartStep(t: Tree, p: seq<nat>)
    requires Path(t, p) && p != []
    ensures Path(t, Front(p)) && Last(p) < Slots(SubAt(t, Front(p)))
    ensures StartOf(t, p) == StartOf(t, Front(p)) + Offset(SubAt(t, Front(p)), Last(p))
    ensures EndOf(t, p) == StartOf(t, Front(p)) + Offset(SubAt(t, Front(p)), Last(p) + 1)
    decreases |p|
  {
    PathFront(t, p);
    if |p| > 1 {
      StartStep(t.kids[p[0]].sub, p[1..]);
      assert Front(p)[1..] == Front(p[1..]);
    }
  }

  /** The slots below an inner slot fill it. */
  lemma {:induction false} SubFills(t: Tree, h: nat, p: seq<nat>)
    requires Good(t, h) && Path(t, p) && 0 < |p| <= h
    ensures EndOf(t, p) == StartOf(t, p) + |Flat(SubAt(t, p))|
    decreases |p|
  {
    if |p| == 1 {
      Trees.StartStep(t.kids, p[0], h - 1);
      assert SubAt(t.kids[p[0]].sub, []) == t.kids[p[0]].sub;
    } else {
      SubFills(t.kids[p[0]].sub, h - 1, p[1..]);
    }
  }

  /** All slots of a node together. */
  lemma AllSlots(t: Tree)
    ensures Offset(t, 0) == 0 && Offset(t, Slots(t)) == |Flat(t)|
  {
    if t.Inner? {
      assert t.kids[..|t.kids|] == t.kids && t.kids[..0] == [];
      NoKids();
    }
  }

  /** Above the leaves every slot leads to a node. */
  lemma DeeperOK(t: Tree, h: nat, p: seq<nat>)
    requires Good(t, h) && Path(t, p) && |p| <= h
    ensures p != [] ==> SubAt(t, Front(p)).Inner?
    ensures Slots(SubAt(t, p)) > 0 && (|p| < h ==> SubAt(t, p).Inner?) && (|p| == h ==> SubAt(t, p).Leaf?)
  {
    SubGood(t, h, p);
    if p != [] {
      PathFront(t, p);
      SubGood(t, h, Front(p));
    }
  }

  /** The next slot starts where this one ends; without a next slot this one ends the tree. */
  lemma {:induction false} NextCorrect(t: Tree, h: nat, p: seq<nat>)
    requires Good(t, h) && Path(t, p) && 0 < |p| <= h + 1
    ensures NextAt(t, p) != [] ==> Path(t, NextAt(t, p)) && StartOf(t, NextAt(t, p)) == EndOf(t, p)
    ensures NextAt(t, p) == [] ==> EndOf(t, p) == |Flat(t)|
    decreases |p|
  {
    hide Flat, Good, StartOf, EndOf, Offset, SubAt, Path;
    StartStep(t, p);
    var f := Front(p);
    DeeperOK(t, h, f);
    if Last(p) + 1 < Slots(SubAt(t, f)) {
      var q := f + [Last(p) + 1];
      PathExtend(t, f, Last(p) + 1);
      StartStep(t, q);
    } else {
      AllSlots(SubAt(t, f));
      if |p| == 1 {
        NoPath(t);
      } else {
        NextCorrect(t, h, f);
        SubFills(t, h, f);
        var q := NextAt(t, f);
        if q != [] {
          DeeperOK(t, h, q);
          AllSlots(SubAt(t, q));
          PathExtend(t, q, 0);
          StartStep(t, q + [0]);
        }
      }
    }
  }

  lemma NoPath(t: Tree)
    ensures SubAt(t, []) == t && StartOf(t, []) == 0 && Path(t, [])
  {
  }

  lemma PrevAtIs(t: Tree, p: seq<nat>)
    requires p != []
    ensures Last(p) > 0 ==> PrevAt(t, p) == Front(p) + [Last(p) - 1]
    ensures Last(p) == 0 && |p| == 1 ==> PrevAt(t, p) == []
    ensures Last(p) == 0 && |p| > 1 ==>
              var q := PrevAt(t, Front(p));
              PrevAt(t, p) == if q == [] || Slots(SubAt(t, q)) == 0 then [] else q + [Slots(SubAt(t, q)) - 1]
  {
  }

  /** The previous slot ends where this one starts; without one, this is the first slot. */
  lemma {:induction false} PrevCorrect(t: Tree, h: nat, p: seq<nat>)
    requires Good(t, h) && Path(t, p) && 0 < |p| <= h + 1
    ensures PrevAt(t, p) != [] ==> Path(t, PrevAt(t, p)) && EndOf(t, PrevAt(t, p)) == StartOf(t, p)
    ensures PrevAt(t, p) == [] ==> StartOf(t, p) == 0 && forall i :: 0 <= i < |p| ==> p[i] == 0
    decreases |p|
  {
    hide Flat, Good, StartOf, EndOf, Offset, SubAt, Path, PrevAt, Slots;
    StartStep(t, p);
    PrevAtIs(t, p);
    var f := Front(p);
    DeeperOK(t, h, f);
    if Last(p) > 0 {
      var q := f + [Last(p) - 1];
      PathExtend(t, f, Last(p) - 1);
      StartStep(t, q);
    } else {
      AllSlots(SubAt(t, f));
      if |p| == 1 {
        NoPath(t);
      } else {
        PrevCorrect(t, h, f);
        PrevCarry(t, h, p);
      }
    }
  }

  /** The carry: the last slot of the node before. */
  lemma PrevCarry(t: Tree, h: nat, p: seq<nat>)
    requires Good(t, h) && Path(t, p) && 1 < |p| <= h + 1 && Last(p) == 0 && Path(t, Front(p))
    requires StartOf(t, p) == StartOf(t, Front(p))
    requires PrevAt(t, Front(p)) != [] ==> Path(t, PrevAt(t, Front(p))) && EndOf(t, PrevAt(t, Front(p))) == StartOf(t, Front(p))
    ensures PrevAt(t, Front(p)) != [] ==>
              PrevAt(t, p) != [] && Path(t, PrevAt(t, p)) && EndOf(t, PrevAt(t, p)) == StartOf(t, p)
    ensures PrevAt(t, Front(p)) == [] ==> PrevAt(t, p) == []
  {
    hide Flat, Good, StartOf, EndOf, Offset, SubAt, Path, PrevAt, Slots;
    PrevAtIs(t, p);
    var q := PrevAt(t, Front(p));
    if q != [] {
      DeeperOK(t, h, q);
      SubFills(t, h, q);
      AllSlots(SubAt(t, q));
      PathExtend(t, q, Slots(SubAt(t, q)) - 1);
      StartStep(t, q + [Slots(SubAt(t, q)) - 1]);
    }
  }

  /** A path of zeros is the first position, and no other path is. */
  lemma {:induction false} OnlyZeros(t: Tree, h: nat, p: seq<nat>)
    requires Good(t, h) && Path(t, p) && 0 < |p| <= h + 1
    ensures StartOf(t, p) == 0 <==> forall i :: 0 <= i < |p| ==> p[i] == 0
    decreases |p|
  {
    if t.Inner? {
      AllSlots(t);
      if p[0] > 0 {
        StartsGrow(t.kids, 0, p[0], h - 1);
      }
      if |p| > 1 {
        OnlyZeros(t.kids[p[0]].sub, h - 1, p[1..]);
        assert (forall i :: 0 <= i < |p| ==> p[i] == 0) <==> p[0] == 0 && forall i :: 0 <= i < |p[1..]| ==> p[1..][i] == 0;
      }
    }
  }

  /** The entry under a complete path. */
  lemma {:induction false} EntryAt(t: Tree, h: nat, p: seq<nat>)
    requires Good(t, h) && Path(t, p) && |p| == h + 1
    ensures SubAt(t, Front(p)).Leaf? && Last(p) < |SubAt(t, Front(p)).es|
    ensures EndOf(t, p) == StartOf(t, p) + 1 && StartOf(t, p) < |Flat(t)|
    ensures Flat(t)[StartOf(t, p)] == SubAt(t, Front(p)).es[Last(p)]
    decreases |p|
  {
    if h > 0 {
      var k := t.kids[p[0]].sub;
      EntryAt(k, h - 1, p[1..]);
      assert Front(p)[1..] == Front(p[1..]) && Front(p)[0] == p[0];
      EntryInKid(t, h, p, StartOf(k, p[1..]));
    } else {
      assert SubAt(t, Front(p)) == t;
    }
  }

  /** An entry of a kid, seen from the parent. */
  lemma EntryInKid(t: Tree, h: nat, p: seq<nat>, i: nat)
    requires t.Inner? && |p| > 1 && p[0] < |t.kids| && i < |Flat(t.kids[p[0]].sub)|
    ensures Offset(t, p[0]) + i < |Flat(t)| && Flat(t)[Offset(t, p[0]) + i] == Flat(t.kids[p[0]].sub)[i]
  {
    hide Flat, FlatKids;
    AroundKid(t.kids, p[0]);
    InnerOf(t.kids);
  }

  /** The page under an inner slot. */
  lemma {:induction false} SlotPage(t: Tree, h: nat, q: seq<nat>, pages: map<nat, Node>)
    requires Good(t, h) && Stored(pages, t) && Path(t, q) && 0 < |q| <= h
    ensures var es := NodeOf(SubAt(t, Front(q))).es;
            && Last(q) < |es| && es[Last(q)].ptr != 0
            && es[Last(q)].ptr in pages && pages[es[Last(q)].ptr] == NodeOf(SubAt(t, q))
    decreases |q|
  {
    assert StoredKid(pages, t.kids[q[0]]) && Good(t.kids[q[0]].sub, h - 1);
    if |q| == 1 {
      assert SubAt(t, Front(q)) == t && SubAt(t, q) == SubAt(t.kids[q[0]].sub, q[1..]) == t.kids[q[0]].sub;
    } else {
      SlotPage(t.kids[q[0]].sub, h - 1, q[1..], pages);
      assert Front(q)[1..] == Front(q[1..]);
    }
  }

  /** A prefix of a path is a path. */
  lemma {:induction false} PathTake(t: Tree, p: seq<nat>, n: nat)
    requires Path(t, p) && n <= |p|
    ensures Path(t, p[..n])
    decreases |p|
  {
    if 0 < n {
      if 1 < |p| {
        PathTake(t.kids[p[0]].sub, p[1..], n - 1);
        assert p[..n][1..] == p[1..][..n - 1];
      }
    }
  }

  lemma {:induction false} SubStep(t: Tree, p: seq<nat>, i: nat)
    requires Path(t, p) && (p != [] ==> SubAt(t, Front(p)).Inner?)
    requires SubAt(t, p).Inner? && i < |SubAt(t, p).kids|
    ensures SubAt(t, p + [i]) == SubAt(t, p).kids[i].sub
    decreases |p|
  {
    if p == [] {
      assert (p + [i])[1..] == [];
    } else {
      assert (p + [i])[1..] == p[1..] + [i];
      if |p| > 1 {
        assert Front(p)[1..] == Front(p[1..]) && Front(p)[0] == p[0];
      } else {
        assert Front(p) == [] && p[1..] == [];
      }
      SubStep(t.kids[p[0]].sub, p[1..], i);
    }
  }

  // ---- behind the last entry ----

  /** The first entry below the last two slots of a tree of three or more levels. */
  ghost function Turn(t: Tree): nat {
    if t.Leaf? || t.kids == [] then 0
    else
      var k := t.kids[|t.kids| - 1].sub;
      if k.Leaf? || k.kids == [] then 0 else Start(t.kids, |t.kids| - 1) + Start(k.kids, |k.kids| - 1)
  }

  /** Without a next slot, there is none at any level above. */
  lemma {:induction false} NoneAbove(t: Tree, p: seq<nat>, n: nat)
    requires 0 < n <= |p| && NextAt(t, p) == []
    ensures NextAt(t, p[..n]) == []
    decreases |p|
  {
    if n == |p| {
      assert p[..n] == p;
    } else {
      NoneAbove(t, Front(p), n);
      assert Front(p)[..n] == p[..n];
    }
  }

  /** The last entry lies below the last slot of the two upper levels. */
  lemma LastTurn(t: Tree, h: nat, p: seq<nat>)
    requires Good(t, h) && h >= 2 && Path(t, p) && |p| == h + 1 && NextAt(t, p) == []
    ensures Path(t, p[..2]) && StartOf(t, p[..2]) == Turn(t)
  {
    PathTake(t, p, 2);
    NoneAbove(t, p, 1);
    NoneAbove(t, p, 2);
    assert Front(p[..1]) == [] && Front(p[..2]) == p[..1] && p[..1] == [p[0]] && p[..2][1..] == [p[1]];
    assert t.Inner? && p[0] == |t.kids| - 1;
    var k := t.kids[p[0]].sub;
    assert SubAt(t, [p[0]]) == k by { assert [p[0]][1..] == []; }
    assert k.Inner? && p[1] == |k.kids| - 1;
  }

  /** Under a root with several kids the turn does not lead to the first entry. */
  lemma TurnLate(t: Tree, h: nat)
    requires Good(t, h) && h >= 2
    ensures Turn(t) < |Flat(t)|
    ensures t.Inner? && |t.kids| >= 2 ==> Turn(t) > 0
  {
    hide Flat, FlatKids, Good, Start;
    GoodInner(t, h);
    var k := t.kids[|t.kids| - 1].sub;
    GoodInner(k, h - 1);
    LastStart(t.kids, h - 1);
    LastStart(k.kids, h - 2);
  }

  lemma LastStart(kids: seq<Kid>, h: nat)
    requires kids != [] && forall i :: 0 <= i < |kids| ==> Good(kids[i].sub, h)
    ensures Start(kids, |kids| - 1) < |FlatKids(kids)| == Start(kids, |kids| - 1) + |Flat(kids[|kids| - 1].sub)|
    ensures |kids| >= 2 ==> Start(kids, |kids| - 1) > 0
  {
    hide Flat, FlatKids, FirstKey, Good;
    Trees.StartStep(kids, |kids| - 1, h);
    assert kids[..|kids|] == kids;
    if |kids| >= 2 {
      StartsGrow(kids, 0, |kids| - 1, h);
    }
  }

  lemma GoodInner(t: Tree, h: nat)
    requires Good(t, h) && h >= 1
    ensures t.Inner? && t.kids != [] && Flat(t) == FlatKids(t.kids)
    ensures forall i :: 0 <= i < |t.kids| ==> Good(t.kids[i].sub, h - 1)
  {
  }
}
