/**
 * The tree that a root page unfolds to. A node's separators are not stored here: they are by
 * definition the first keys of the kids, so a page that holds `NodeOf(t)` has exact separators.
 */
module Trees {
  import opened Bytes
  import opened Seqs
  import opened SortedSeq
  import opened Nodes

  datatype Tree = Leaf(es: seq<Entry>) | Inner(kids: seq<Kid>)

  datatype Kid = Kid(ptr: nat, sub: Tree)

  ghost function FirstKey(t: Tree): Bytes {
    match t
    case Leaf(es) => if es == [] then [] else es[0].key
    case Inner(kids) => if kids == [] then [] else FirstKey(kids[0].sub)
  }

  ghost function Sep(k: Kid): Entry {
    Entry(k.ptr, FirstKey(k.sub), [])
  }

  ghost function Seps(kids: seq<Kid>): seq<Entry> {
    seq(|kids|, i requires 0 <= i < |kids| => Sep(kids[i]))
  }

  /** The page content of the root of `t`. */
  ghost function NodeOf(t: Tree): Node {
    match t
    case Leaf(es) => Node(true, es)
    case Inner(kids) => Node(false, Seps(kids))
  }

  /** The entries of the leaves, left to right. */
  ghost function Flat(t: Tree): seq<Entry>
    decreases t, 1
  {
    match t
    case Leaf(es) => es
    case Inner(kids) => FlatKids(kids)
  }

  ghost function FlatKid(k: Kid): seq<Entry>
    decreases k, 0
  {
    Flat(k.sub)
  }

  ghost function FlatKids(kids: seq<Kid>): seq<Entry>
    decreases kids, 0
  {
    if kids == [] then [] else FlatKid(kids[0]) + FlatKids(kids[1..])
  }

  /** The pages below the root, with multiplicity. */
  ghost function Pages(t: Tree): multiset<nat>
    decreases t, 1
  {
    match t
    case Leaf(_) => multiset{}
    case Inner(kids) => PagesKids(kids)
  }

  ghost function PagesKid(k: Kid): multiset<nat>
    decreases k, 0
  {
    multiset{k.ptr} + Pages(k.sub)
  }

  ghost function PagesKids(kids: seq<Kid>): multiset<nat>
    decreases kids, 0
  {
    if kids == [] then multiset{}
    else PagesKid(kids[0]) + PagesKids(kids[1..])
  }

  ghost predicate EntryOK(e: Entry) {
    e.ptr == 0 && |e.key| <= MAX_KEY && |e.val| <= MAX_VAL
  }

  /** Leaves at depth `h` exactly; every node below the root is non-empty and fits its page. */
  ghost predicate WF(t: Tree, h: nat)
    decreases h, 0
  {
    match t
    case Leaf(es) => h == 0 && forall i :: 0 <= i < |es| ==> EntryOK(es[i])
    case Inner(kids) => h > 0 && forall i :: 0 <= i < |kids| ==> kids[i].ptr != 0 && Good(kids[i].sub, h - 1)
  }

  ghost predicate Good(t: Tree, h: nat)
    decreases h, 1
  {
    WF(t, h) && NodeOf(t).es != [] && Size(NodeOf(t)) <= PAGE
  }

  /** Every page below the root of `t` holds its node. */
  ghost predicate Stored(pages: map<nat, Node>, t: Tree)
    decreases t
  {
    t.Inner? ==> forall i :: 0 <= i < |t.kids| ==> StoredKid(pages, t.kids[i])
  }

  ghost predicate StoredKid(pages: map<nat, Node>, k: Kid)
    decreases k
  {
    k.ptr in pages && pages[k.ptr] == NodeOf(k.sub) && Stored(pages, k.sub)
  }

  lemma {:induction false} StoredGrows(pages: map<nat, Node>, more: map<nat, Node>, t: Tree)
    requires Stored(pages, t)
    requires forall p :: p in pages ==> p in more && more[p] == pages[p]
    ensures Stored(more, t)
    decreases t
  {
    if t.Inner? {
      forall i | 0 <= i < |t.kids| ensures StoredKid(more, t.kids[i]) {
        assert StoredKid(pages, t.kids[i]);
        StoredGrows(pages, more, t.kids[i].sub);
      }
    }
  }

  lemma KidsHead(kids: seq<Kid>)
    requires kids != []
    ensures FlatKids(kids) == FlatKid(kids[0]) + FlatKids(kids[1..])
    ensures PagesKids(kids) == PagesKid(kids[0]) + PagesKids(kids[1..])
  {
  }

  lemma NoKids()
    ensures FlatKids([]) == [] && PagesKids([]) == multiset{}
  {
  }

  lemma {:induction false} FlatKidsConcat(a: seq<Kid>, b: seq<Kid>)
    ensures FlatKids(a + b) == FlatKids(a) + FlatKids(b)
    decreases |a|
  {
    hide FlatKid, FlatKids;
    if a == [] {
      NoKids();
      assert a + b == b;
    } else {
      FlatKidsConcat(a[1..], b);
      assert (a + b)[1..] == a[1..] + b;
      KidsHead(a);
      KidsHead(a + b);
    }
  }

  lemma {:induction false} PagesKidsConcat(a: seq<Kid>, b: seq<Kid>)
    ensures PagesKids(a + b) == PagesKids(a) + PagesKids(b)
    decreases |a|
  {
    hide PagesKid, PagesKids;
    if a == [] {
      NoKids();
      assert a + b == b;
    } else {
      PagesKidsConcat(a[1..], b);
      assert (a + b)[1..] == a[1..] + b;
      KidsHead(a);
      KidsHead(a + b);
      AddThree(PagesKid(a[0]), PagesKids(a[1..]), PagesKids(b));
    }
  }

  lemma AddThree(a: multiset<nat>, b: multiset<nat>, c: multiset<nat>)
    ensures a + b + c == a + (b + c)
  {
  }

  lemma OneKid(k: Kid)
    ensures FlatKids([k]) == Flat(k.sub)
    ensures PagesKids([k]) == PagesKid(k)
  {
    assert [k][1..] == [];
  }

  /** A list of kids, seen around position `i`. */
  lemma AroundKid(kids: seq<Kid>, i: nat)
    requires i < |kids|
    ensures FlatKids(kids) == FlatKids(kids[..i]) + Flat(kids[i].sub) + FlatKids(kids[i + 1..])
    ensures PagesKids(kids) == PagesKids(kids[..i]) + PagesKid(kids[i]) + PagesKids(kids[i + 1..])
  {
    hide FlatKids, PagesKids, Flat, Pages;
    Seqs.SplitAt(kids, i);
    FlatKidsConcat(kids[..i] + [kids[i]], kids[i + 1..]);
    FlatKidsConcat(kids[..i], [kids[i]]);
    PagesKidsConcat(kids[..i] + [kids[i]], kids[i + 1..]);
    PagesKidsConcat(kids[..i], [kids[i]]);
    OneKid(kids[i]);
  }

  lemma {:induction false} GoodFirst(t: Tree, h: nat)
    requires Good(t, h)
    ensures Flat(t) != [] && Flat(t)[0].key == FirstKey(t)
    ensures |FirstKey(t)| <= MAX_KEY
    decreases h
  {
    if t.Inner? {
      GoodFirst(t.kids[0].sub, h - 1);
      assert FlatKids(t.kids) == FlatKid(t.kids[0]) + FlatKids(t.kids[1..]);
    } else {
      assert EntryOK(t.es[0]);
    }
  }

  /** Every entry of a well-formed node leaves room on a page. */
  lemma NodeWithin(t: Tree, h: nat)
    requires WF(t, h)
    ensures Within(NodeOf(t).es, PAGE - HEADER)
  {
    var es := NodeOf(t).es;
    forall i | 0 <= i < |es| ensures EntrySize(es[i]) <= PAGE - HEADER {
      if t.Inner? {
        GoodFirst(t.kids[i].sub, h - 1);
      } else {
        assert EntryOK(t.es[i]);
      }
    }
  }

  /** Where the entries of kid `i` start. */
  ghost function Start(kids: seq<Kid>, i: nat): nat
    requires i <= |kids|
  {
    |FlatKids(kids[..i])|
  }

  lemma StartStep(kids: seq<Kid>, i: nat, h: nat)
    requires i < |kids| && Good(kids[i].sub, h)
    ensures Start(kids, i) < Start(kids, i + 1) <= |FlatKids(kids)|
    ensures Start(kids, i + 1) == Start(kids, i) + |Flat(kids[i].sub)|
    ensures FlatKids(kids)[Start(kids, i)].key == FirstKey(kids[i].sub)
  {
    GoodFirst(kids[i].sub, h);
    hide FlatKids, Flat, Good;
    AroundKid(kids, i);
    assert kids[..i + 1] == kids[..i] + [kids[i]];
    FlatKidsConcat(kids[..i], [kids[i]]);
    OneKid(kids[i]);
  }

  lemma {:induction false} StartsGrow(kids: seq<Kid>, i: nat, j: nat, h: nat)
    requires i < j <= |kids|
    requires forall x :: 0 <= x < |kids| ==> Good(kids[x].sub, h)
    ensures Start(kids, i) < Start(kids, j)
    decreases j
  {
    hide Good, FlatKids;
    StartStep(kids, j - 1, h);
    if i < j - 1 {
      StartsGrow(kids, i, j - 1, h);
    }
  }

  /** The separators of a node whose subtree is sorted are sorted. */
  lemma SepsSorted(kids: seq<Kid>, h: nat)
    requires forall x :: 0 <= x < |kids| ==> Good(kids[x].sub, h)
    requires Sorted(FlatKids(kids))
    ensures Sorted(Seps(kids))
  {
    hide Good, FlatKids, Lt, FirstKey;
    forall i, j | 0 <= i < j < |kids| ensures Lt(Seps(kids)[i].key, Seps(kids)[j].key) {
      StartStep(kids, i, h);
      StartStep(kids, j, h);
      StartsGrow(kids, i, j, h);
    }
  }

  lemma NodeSorted(t: Tree, h: nat)
    requires WF(t, h) && Sorted(Flat(t))
    ensures Sorted(NodeOf(t).es)
  {
    if t.Inner? {
      SepsSorted(t.kids, h - 1);
    }
  }

  /** Following the separators leads to the only kid that can hold `k`. */
  lemma Descend(kids: seq<Kid>, h: nat, k: Bytes, r: int)
    requires forall x :: 0 <= x < |kids| ==> Good(kids[x].sub, h)
    requires Sorted(FlatKids(kids))
    requires IsLE(Seps(kids), k, r) && r >= 0
    ensures Flat(kids[r].sub) != [] && Sorted(Flat(kids[r].sub))
    ensures Le(Flat(kids[r].sub)[0].key, k)
    ensures FlatKids(kids[r + 1..]) != [] ==> Lt(k, FlatKids(kids[r + 1..])[0].key)
  {
    hide Lt, Le, FirstKey, FlatKids, Flat;
    GoodFirst(kids[r].sub, h);
    assert Seps(kids)[r].key == FirstKey(kids[r].sub);
    AroundKid(kids, r);
    SortedMiddle(FlatKids(kids[..r]), Flat(kids[r].sub), FlatKids(kids[r + 1..]));
    if r + 1 < |kids| {
      NextFirst(kids, r, h);
      assert Seps(kids)[r + 1].key == FirstKey(kids[r + 1].sub);
    } else {
      assert kids[r + 1..] == [];
      NoKids();
    }
  }

  lemma NextFirst(kids: seq<Kid>, r: nat, h: nat)
    requires r + 1 < |kids| && Good(kids[r + 1].sub, h)
    ensures FlatKids(kids[r + 1..]) != [] && FlatKids(kids[r + 1..])[0].key == FirstKey(kids[r + 1].sub)
  {
    GoodFirst(kids[r + 1].sub, h);
  }

  lemma SortedMiddle(a: seq<Entry>, b: seq<Entry>, c: seq<Entry>)
    requires Sorted(a + b + c)
    ensures Sorted(b)
  {
    hide Lt;
    var s := a + b + c;
    assert forall i :: 0 <= i < |b| ==> s[|a| + i] == b[i];
    forall i, j | 0 <= i < j < |b| ensures Lt(b[i].key, b[j].key) {
      assert Lt(s[|a| + i].key, s[|a| + j].key);
    }
  }

  /** Replacing kid `i` by the kids `mid`. */
  lemma ReplaceKids(kids: seq<Kid>, lo: nat, hi: nat, mid: seq<Kid>)
    requires lo <= hi <= |kids|
    ensures FlatKids(Splice(kids, lo, hi, mid)) == FlatKids(kids[..lo]) + FlatKids(mid) + FlatKids(kids[hi..])
    ensures PagesKids(Splice(kids, lo, hi, mid)) == PagesKids(kids[..lo]) + PagesKids(mid) + PagesKids(kids[hi..])
    ensures Seps(Splice(kids, lo, hi, mid)) == Splice(Seps(kids), lo, hi, Seps(mid))
  {
    FlatKidsConcat(kids[..lo] + mid, kids[hi..]);
    FlatKidsConcat(kids[..lo], mid);
    PagesKidsConcat(kids[..lo] + mid, kids[hi..]);
    PagesKidsConcat(kids[..lo], mid);
    SepsSplice(kids, lo, hi, mid);
  }

  lemma SepsSplice(kids: seq<Kid>, lo: nat, hi: nat, mid: seq<Kid>)
    requires lo <= hi <= |kids|
    ensures Seps(Splice(kids, lo, hi, mid)) == Splice(Seps(kids), lo, hi, Seps(mid))
  {
    hide Sep;
  }

  // ---- cutting a tree at its root node ----

  ghost function Take(t: Tree, n: nat): Tree
    requires n <= |NodeOf(t).es|
  {
    match t
    case Leaf(es) => Leaf(es[..n])
    case Inner(kids) => Inner(kids[..n])
  }

  ghost function Drop(t: Tree, n: nat): Tree
    requires n <= |NodeOf(t).es|
  {
    match t
    case Leaf(es) => Leaf(es[n..])
    case Inner(kids) => Inner(kids[n..])
  }

  lemma TakeDrop(t: Tree, n: nat, h: nat, pages: map<nat, Node>)
    requires n <= |NodeOf(t).es|
    ensures NodeOf(Take(t, n)) == Node(t.Leaf?, NodeOf(t).es[..n])
    ensures NodeOf(Drop(t, n)) == Node(t.Leaf?, NodeOf(t).es[n..])
    ensures Flat(t) == Flat(Take(t, n)) + Flat(Drop(t, n))
    ensures Pages(t) == Pages(Take(t, n)) + Pages(Drop(t, n))
    ensures WF(t, h) ==> WF(Take(t, n), h) && WF(Drop(t, n), h)
    ensures Stored(pages, t) ==> Stored(pages, Take(t, n)) && Stored(pages, Drop(t, n))
  {
    hide FlatKids, PagesKids, FirstKey, Good, StoredKid, Take, Drop, WF, Stored, Flat, Pages, NodeOf;
    TakeContent(t, n);
    if WF(t, h) {
      TakeWF(t, n, h);
    }
    if Stored(pages, t) {
      TakeStored(t, n, pages);
    }
  }

  lemma TakeContent(t: Tree, n: nat)
    requires n <= |NodeOf(t).es|
    ensures NodeOf(Take(t, n)) == Node(t.Leaf?, NodeOf(t).es[..n])
    ensures NodeOf(Drop(t, n)) == Node(t.Leaf?, NodeOf(t).es[n..])
    ensures Flat(t) == Flat(Take(t, n)) + Flat(Drop(t, n))
    ensures Pages(t) == Pages(Take(t, n)) + Pages(Drop(t, n))
  {
    hide FlatKids, PagesKids, FirstKey, Sep;
    if t.Inner? {
      KidsCut(t.kids, n);
      InnerOf(t.kids);
      InnerOf(t.kids[..n]);
      InnerOf(t.kids[n..]);
    } else {
      assert t.es == t.es[..n] + t.es[n..];
    }
  }

  lemma InnerOf(kids: seq<Kid>)
    ensures Flat(Inner(kids)) == FlatKids(kids) && Pages(Inner(kids)) == PagesKids(kids)
    ensures NodeOf(Inner(kids)) == Node(false, Seps(kids))
  {
  }

  lemma TakeWF(t: Tree, n: nat, h: nat)
    requires n <= |NodeOf(t).es| && WF(t, h)
    ensures WF(Take(t, n), h) && WF(Drop(t, n), h)
  {
    hide Good, FirstKey;
  }

  lemma TakeStored(t: Tree, n: nat, pages: map<nat, Node>)
    requires n <= |NodeOf(t).es| && Stored(pages, t)
    ensures Stored(pages, Take(t, n)) && Stored(pages, Drop(t, n))
  {
    hide StoredKid, FirstKey;
  }

  lemma KidsCut(kids: seq<Kid>, n: nat)
    requires n <= |kids|
    ensures FlatKids(kids) == FlatKids(kids[..n]) + FlatKids(kids[n..])
    ensures PagesKids(kids) == PagesKids(kids[..n]) + PagesKids(kids[n..])
    ensures Seps(kids[..n]) == Seps(kids)[..n] && Seps(kids[n..]) == Seps(kids)[n..]
  {
    hide FlatKids, PagesKids, Sep;
    assert kids == kids[..n] + kids[n..];
    FlatKidsConcat(kids[..n], kids[n..]);
    PagesKidsConcat(kids[..n], kids[n..]);
  }

  /** The subtrees under the parts of a split root node. */
  ghost function Pieces(t: Tree, parts: seq<Node>): (r: seq<Tree>)
    requires Joined(parts) == NodeOf(t).es
    ensures |r| == |parts|
    decreases parts
  {
    if parts == [] then []
    else
      var n := |parts[0].es|;
      TakeDrop(t, n, 0, map[]);
      [Take(t, n)] + Pieces(Drop(t, n), parts[1..])
  }

  ghost function Zip(ptrs: seq<nat>, subs: seq<Tree>): (r: seq<Kid>)
    requires |ptrs| == |subs|
    ensures |r| == |ptrs|
  {
    seq(|ptrs|, i requires 0 <= i < |ptrs| => Kid(ptrs[i], subs[i]))
  }

  lemma {:induction false} PiecesGood(t: Tree, h: nat, parts: seq<Node>, pages: map<nat, Node>)
    requires Joined(parts) == NodeOf(t).es && FitParts(parts, t.Leaf?)
    requires WF(t, h) && Stored(pages, t)
    ensures forall i :: 0 <= i < |parts| ==> NodeOf(Pieces(t, parts)[i]) == parts[i]
    ensures forall i :: 0 <= i < |parts| ==> Good(Pieces(t, parts)[i], h) && Stored(pages, Pieces(t, parts)[i])
    decreases parts
  {
    hide Flat, FlatKids, Pages, PagesKids, Seps, FirstKey;
    if parts != [] {
      var n := |parts[0].es|;
      assert parts[0].leaf == t.Leaf?;
      TakeDrop(t, n, h, pages);
      PiecesGood(Drop(t, n), h, parts[1..], pages);
      TakeGood(t, h, parts, pages);
      assert Pieces(t, parts) == [Take(t, n)] + Pieces(Drop(t, n), parts[1..]);
    }
  }

  lemma TakeGood(t: Tree, h: nat, parts: seq<Node>, pages: map<nat, Node>)
    requires parts != [] && Joined(parts) == NodeOf(t).es && FitParts(parts, t.Leaf?)
    requires WF(t, h) && Stored(pages, t)
    ensures NodeOf(Take(t, |parts[0].es|)) == parts[0]
    ensures Good(Take(t, |parts[0].es|), h) && Stored(pages, Take(t, |parts[0].es|))
  {
    hide Flat, FlatKids, Pages, PagesKids, Seps, FirstKey;
    TakeDrop(t, |parts[0].es|, h, pages);
    assert parts[0].leaf == t.Leaf?;
  }

  lemma {:induction false} PiecesContent(t: Tree, parts: seq<Node>, ptrs: seq<nat>)
    requires Joined(parts) == NodeOf(t).es && |ptrs| == |parts|
    ensures FlatKids(Zip(ptrs, Pieces(t, parts))) == Flat(t)
    ensures PagesKids(Zip(ptrs, Pieces(t, parts))) == multiset(ptrs) + Pages(t)
    decreases parts
  {
    hide Flat, FlatKids, Pages, PagesKids, Zip, NodeOf, Take, Drop;
    if parts == [] {
      NoEntries(t, ptrs);
      assert ptrs == [];
    } else {
      var n := |parts[0].es|;
      TakeDrop(t, n, 0, map[]);
      var rest := Drop(t, n);
      PiecesContent(rest, parts[1..], ptrs[1..]);
      ZipFirst(ptrs, Take(t, n), Pieces(rest, parts[1..]));
      assert ptrs == [ptrs[0]] + ptrs[1..];
      assert PagesKids(Zip(ptrs, Pieces(t, parts))) ==
             multiset{ptrs[0]} + Pages(Take(t, n)) + (multiset(ptrs[1..]) + Pages(rest));
    }
  }

  lemma NoEntries(t: Tree, ptrs: seq<nat>)
    requires NodeOf(t).es == [] && ptrs == []
    ensures FlatKids(Zip(ptrs, [])) == Flat(t)
    ensures PagesKids(Zip(ptrs, [])) == Pages(t)
  {
    assert t.Inner? ==> |t.kids| == |Seps(t.kids)|;
  }

  lemma ZipFirst(ptrs: seq<nat>, piece: Tree, subs: seq<Tree>)
    requires |ptrs| == |subs| + 1
    ensures FlatKids(Zip(ptrs, [piece] + subs)) == Flat(piece) + FlatKids(Zip(ptrs[1..], subs))
    ensures PagesKids(Zip(ptrs, [piece] + subs)) == multiset{ptrs[0]} + Pages(piece) + PagesKids(Zip(ptrs[1..], subs))
  {
    hide FlatKids, PagesKids;
    var first := Kid(ptrs[0], piece);
    assert Zip(ptrs, [piece] + subs) == [first] + Zip(ptrs[1..], subs);
    FlatKidsConcat([first], Zip(ptrs[1..], subs));
    PagesKidsConcat([first], Zip(ptrs[1..], subs));
    OneKid(first);
  }
}
