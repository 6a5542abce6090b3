/** Inputs within the limits for which a node does not fit its page. */
module Overflows {
  import opened Bytes
  import opened Seqs
  import opened SortedSeq
  import opened Nodes
  import opened Trees
  import opened TreeFits
  import opened BTrees

  function Zeros(n: nat): (r: Bytes)
    ensures |r| == n
  {
    seq(n, _ => 0)
  }

  /** An entry of `size` bytes with a one-byte key. */
  function EntryOf(k: byte, size: nat): (e: Entry)
    requires size >= 15
    ensures EntrySize(e) == size
  {
    Entry(0, [k], Zeros(size - 15))
  }

  /** Six small entries. */
  function Smalls(): (r: seq<Entry>)
    ensures |r| == 6
  {
    [EntryOf(2, 15), EntryOf(3, 15), EntryOf(4, 15), EntryOf(5, 15), EntryOf(6, 15), EntryOf(7, 15)]
  }

  lemma OneByteKeys(a: byte, b: byte)
    ensures Compare([a], [b]) == if a < b then -1 else if a > b then 1 else 0
  {
    assert [a][1..] == [] && [b][1..] == [];
  }

  lemma SmallSizes()
    ensures EsSize(Smalls()) == 90 && EsSize(Smalls()[..2]) == 30 && EsSize(Smalls()[2..]) == 60
  {
    var s := Smalls();
    assert s == s[..1] + s[1..2] + s[2..3] + s[3..4] + s[4..5] + s[5..6];
    SizeOfTwo(s[0], s[1]);
    SizeOfTwo(s[2], s[3]);
    SizeOfTwo(s[4], s[5]);
    assert s[..2] == [s[0], s[1]] && s[2..] == [s[2], s[3]] + [s[4], s[5]];
    EsSizeConcat([s[2], s[3]], [s[4], s[5]]);
    EsSizeCut(s, 2);
  }

  lemma SizeOfTwo(a: Entry, b: Entry)
    ensures EsSize([a, b]) == EntrySize(a) + EntrySize(b)
  {
    assert [a, b][..1] == [a];
    EsSizeOne(a);
  }

  function Leaf3000(): (r: seq<Entry>)
    ensures |r| == 7
  {
    [EntryOf(0, 3000)] + Smalls()
  }

  lemma LeafKeys(i: nat)
    requires i < 7
    ensures Leaf3000()[i].key == [if i == 0 then 0 else i + 1] && EntryOK(Leaf3000()[i])
  {
  }

  lemma LeafSorted()
    ensures Sorted(Leaf3000()) && LE(Leaf3000(), [1]) == 0
  {
    hide LE, Compare;
    var s := Leaf3000();
    forall i, j | 0 <= i < j < |s| ensures Lt(s[i].key, s[j].key) {
      LeafKeys(i);
      LeafKeys(j);
      OneByteKeys(s[i].key[0], s[j].key[0]);
    }
    forall i | 0 <= i < |s| ensures if i == 0 then Le(s[i].key, [1]) else Lt([1], s[i].key) {
      LeafKeys(i);
      OneByteKeys(s[i].key[0], 1);
      OneByteKeys(1, s[i].key[0]);
    }
    LECorrect(s, [1]);
    LEUnique(s, [1], LE(s, [1]), 0);
  }

  lemma LeafPut(e: Entry)
    requires e == EntryOf(1, 2000)
    ensures Put(Leaf3000(), e.key, e.val) == [EntryOf(0, 3000), e] + Smalls()
  {
    LeafSorted();
    hide LE, Compare;
    LeafKeys(0);
    var s := Leaf3000();
    assert PutAt(s, [1]) == 1;
    assert Splice(s, 1, 1, [e]) == [s[0]] + [e] + Smalls();
  }

  /** Two large entries and six small ones: every cut leaves the two large ones together. */
  lemma NoCut(a: Entry, b: Entry)
    requires EntrySize(a) == 3000 && EntrySize(b) == 2000
    ensures !SplitFits([a, b] + Smalls())
  {
    var s := Smalls();
    var es := [a, b] + s;
    SmallSizes();
    SizeOfTwo(a, b);
    EsSizeConcat([a, b], s);
    EsSizeConcat([a, b], s[..2]);
    hide EsSize, Smalls;
    assert es[4..] == s[2..] && es[..4] == [a, b] + s[..2];
    assert Cut(es) == 4;
    assert es[..4][2..] == s[..2];
    assert Cut(es[..4]) == 2;
    assert es[..2] == [a, b];
  }

  /**
   * A leaf of one page and one insertion that three pages cannot hold: 3000 bytes, then the inserted
   * 2000 bytes, then six small entries. The cut only moves right, so the two large entries stay together.
   */
  lemma SplitFails()
    ensures var leaf, e := Leaf3000(), EntryOf(1, 2000);
            Good(Leaf(leaf), 0) && Sorted(leaf) && EntryOK(e) && !SplitFits(Put(leaf, e.key, e.val))
  {
    hide EsSize, LE, SplitFits, Smalls, Leaf3000, Good, Put, Sorted;
    GoodLeaf();
    LeafSorted();
    LeafPut(EntryOf(1, 2000));
    NoCut(EntryOf(0, 3000), EntryOf(1, 2000));
  }

  lemma GoodLeaf()
    ensures Good(Leaf(Leaf3000()), 0)
  {
    var leaf := Leaf3000();
    SmallSizes();
    EsSizeOne(leaf[0]);
    EsSizeConcat([leaf[0]], Smalls());
    forall i | 0 <= i < |leaf| ensures EntryOK(leaf[i]) {
      LeafKeys(i);
    }
    hide EsSize, Smalls;
    assert leaf == [leaf[0]] + Smalls();
  }

  // ---- deletion ----

  function LongKey(k: byte): (r: Bytes)
    ensures |r| == 1000
  {
    [k] + Zeros(999)
  }

  /** A leaf whose first key is long. */
  function LongLeaf(k: byte): Tree {
    Leaf([Entry(0, LongKey(k), Zeros(300))])
  }

  /** A leaf with a short key before a long one. */
  function ShortLong(): Tree {
    Leaf([Entry(0, [1], []), Entry(0, LongKey(2), Zeros(300))])
  }

  /** The leaf of the sentinel, with one large entry behind it. */
  function FirstLeaf(): Tree {
    Leaf([Entry(0, [], []), Entry(0, [0], Zeros(2900))])
  }

  /** An inner node that fits its page, over the sentinel's leaf, a short separator and four long ones. */
  function Parent(): Tree {
    Inner([Kid(11, FirstLeaf()), Kid(12, ShortLong()), Kid(13, LongLeaf(3)), Kid(14, LongLeaf(4)), Kid(15, LongLeaf(5)), Kid(16, LongLeaf(6))])
  }

  lemma SixSizes(es: seq<Entry>)
    requires |es| == 6
    ensures EsSize(es) == EntrySize(es[0]) + EntrySize(es[1]) + EntrySize(es[2]) + EntrySize(es[3]) + EntrySize(es[4]) + EntrySize(es[5])
  {
    SizeOfTwo(es[0], es[1]);
    SizeOfTwo(es[2], es[3]);
    SizeOfTwo(es[4], es[5]);
    assert es == [es[0], es[1]] + ([es[2], es[3]] + [es[4], es[5]]);
    hide EsSize;
    EsSizeConcat([es[0], es[1]], [es[2], es[3]] + [es[4], es[5]]);
    EsSizeConcat([es[2], es[3]], [es[4], es[5]]);
  }

  /** Keys with different first bytes. */
  lemma HeadOrder(a: Bytes, b: Bytes)
    requires b != [] && (a == [] || a[0] < b[0])
    ensures Lt(a, b) && Le(a, b)
  {
    CompareAntisymmetric(a, b);
  }

  lemma SameKey(a: Bytes)
    ensures Le(a, a)
  {
    CompareAntisymmetric(a, a);
  }

  lemma LongLeafGood(k: byte)
    ensures Good(LongLeaf(k), 0) && Flat(LongLeaf(k)) == [Entry(0, LongKey(k), Zeros(300))] && FirstKey(LongLeaf(k)) == LongKey(k)
    ensures EsSize(NodeOf(LongLeaf(k)).es) == 1314
  {
    EsSizeOne(Entry(0, LongKey(k), Zeros(300)));
  }

  lemma OtherLeaves()
    ensures Good(FirstLeaf(), 0) && Good(ShortLong(), 0)
  {
    SizeOfTwo(Entry(0, [], []), Entry(0, [0], Zeros(2900)));
    SizeOfTwo(Entry(0, [1], []), Entry(0, LongKey(2), Zeros(300)));
  }

  /** The separators of the parent, and their room. */
  lemma ParentSeps()
    ensures Good(Parent(), 1) && EsSize(Seps(Parent().kids)) == 4085 && EsSize(Seps(Parent().kids)[1..2]) == 15
  {
    hide EsSize, FirstLeaf, LongKey, Zeros;
    OtherLeaves();
    LongLeafGood(3);
    LongLeafGood(4);
    LongLeafGood(5);
    LongLeafGood(6);
    var es := Seps(Parent().kids);
    assert FirstKey(FirstLeaf()) == [] by { FirstLeafKeys(); }
    assert FirstKey(ShortLong()) == [1];
    SixSizes(es);
    assert es[1..2] == [es[1]];
    EsSizeOne(es[1]);
  }

  lemma FirstLeafKeys()
    ensures FirstKey(FirstLeaf()) == [] && Flat(FirstLeaf()) == [Entry(0, [], []), Entry(0, [0], Zeros(2900))]
  {
  }

  /** The entries of the parent's leaves. */
  function ParentEntries(): seq<Entry> {
    [Entry(0, [], []), Entry(0, [0], Zeros(2900)), Entry(0, [1], []), Entry(0, LongKey(2), Zeros(300)),
     Entry(0, LongKey(3), Zeros(300)), Entry(0, LongKey(4), Zeros(300)), Entry(0, LongKey(5), Zeros(300)), Entry(0, LongKey(6), Zeros(300))]
  }

  lemma FlatSix(a: Kid, b: Kid, c: Kid, d: Kid, e: Kid, f: Kid)
    ensures FlatKids([a, b, c, d, e, f]) == Flat(a.sub) + Flat(b.sub) + Flat(c.sub) + Flat(d.sub) + Flat(e.sub) + Flat(f.sub)
  {
    hide Flat, FlatKids;
    FlatKidsConcat([a], [b]);
    FlatKidsConcat([a, b], [c]);
    FlatKidsConcat([a, b, c], [d]);
    FlatKidsConcat([a, b, c, d], [e]);
    FlatKidsConcat([a, b, c, d, e], [f]);
    assert [a] + [b] == [a, b] && [a, b] + [c] == [a, b, c] && [a, b, c] + [d] == [a, b, c, d] && [a, b, c, d] + [e] == [a, b, c, d, e];
    assert [a, b, c, d, e] + [f] == [a, b, c, d, e, f];
    OneKid(a);
    OneKid(b);
    OneKid(c);
    OneKid(d);
    OneKid(e);
    OneKid(f);
  }

  lemma ParentFlat()
    ensures Flat(Parent()) == ParentEntries()
  {
    FirstLeafKeys();
    LongLeafGood(3);
    LongLeafGood(4);
    LongLeafGood(5);
    LongLeafGood(6);
    var kids := Parent().kids;
    FlatSix(kids[0], kids[1], kids[2], kids[3], kids[4], kids[5]);
    assert Flat(ShortLong()) == [Entry(0, [1], []), Entry(0, LongKey(2), Zeros(300))];
    assert Flat(Parent()) == FlatKids(kids);
    hide LongKey, Zeros, Flat, FlatKids, LongLeaf, FirstLeaf, ShortLong, Good, EsSize;
  }

  lemma ParentSorted()
    ensures Sorted(ParentEntries())
  {
    hide Zeros, Lt, Le;
    var s := ParentEntries();
    forall i, j | 0 <= i < j < |s| ensures Lt(s[i].key, s[j].key) {
      HeadOrder(s[i].key, s[j].key);
    }
  }

  lemma SepKeys(i: nat)
    requires i < 6
    ensures |Seps(Parent().kids)| == 6 && Seps(Parent().kids)[i].key == if i == 0 then [] else if i == 1 then [1] else LongKey(i as byte + 1)
  {
    hide Zeros, LongKey;
  }

  lemma SecondKid()
    ensures LE(Seps(Parent().kids), [1]) == 1
  {
    var s := Seps(Parent().kids);
    SepKeys(0);
    hide Parent, Seps, LE, Le, Lt;
    forall i | 0 <= i < |s| ensures if i <= 1 then Le(s[i].key, [1]) else Lt([1], s[i].key) {
      SepKeys(i);
      SameKey([1]);
      HeadOrder([], [1]);
      if i > 1 {
        HeadOrder([1], s[i].key);
      }
    }
    forall i, j | 0 <= i < j < |s| ensures Lt(s[i].key, s[j].key) {
      SepKeys(i);
      SepKeys(j);
      HeadOrder(s[i].key, s[j].key);
    }
    LECorrect(s, [1]);
    LEUnique(s, [1], LE(s, [1]), 1);
  }

  lemma RemoveShort()
    ensures Remove(ShortLong().es, [1]) == LongLeaf(2).es
  {
    var es := ShortLong().es;
    assert LE(es, [1]) == 0 by {
      assert Lt([1], LongKey(2));
      assert es[..1] == [es[0]];
      CompareAntisymmetric([1], [1]);
    }
    assert Splice(es, 0, 1, []) == [es[1]];
  }

  /**
   * A tree of two levels within all limits, and one deletion after which the rebuilt root does not fit its page:
   * the deletion leaves a kid that is too large to be merged, and its separator grows from one byte to a thousand.
   */
  lemma SeparatorOverflows()
    ensures Good(Parent(), 1) && Sorted(Flat(Parent())) && Rooted(Parent())
    ensures Flat(Parent())[2].key == [1] && CheckLimit([1], []).Done? && !DeleteFits(Parent(), [1])
  {
    ParentSeps();
    ParentFlat();
    ParentSorted();
    SepKeys(0);
    assert FirstKey(Parent()) == [] by { FirstLeafKeys(); }
    SecondKid();
    NoMerge();
    var es := LongLeaf(2).es;
    LongLeafGood(2);
    hide Flat, Parent, Seps, EsSize, Sorted, Good, FirstKey, LE, Bare, MergeSide, SideKey, Deleted, DeleteFits, Zeros, LongLeaf, ParentEntries;
    DeletedSize(Parent().kids, [1], 1, es);
    DeleteFitsAbove(Parent(), [1], 1);
  }

  /** What is left of the second leaf is not merged. */
  lemma NoMerge()
    ensures |Parent().kids| == 6 && Parent() == Inner(Parent().kids)
    ensures var kids, es := Parent().kids, LongLeaf(2).es;
            && Bare(es) == Deleted(kids[1].sub, [1]) && MergeSide(kids, 1, es) == 0 && SideKey(kids, 1, es) == LongKey(2) && es != []
  {
    DeletedShort();
    LongLeafGood(2);
    TooLarge(Parent().kids, 1, LongLeaf(2).es);
    assert KeyOf(LongLeaf(2).es) == LongKey(2);
    hide EsSize, Remove, Zeros, LongKey, MergeSide, SideKey, Good, Flat, Deleted, Bare, LongLeaf, ShortLong, FirstLeaf;
  }

  lemma DeletedShort()
    ensures Bare(LongLeaf(2).es) == Deleted(ShortLong(), [1]) && LongLeaf(2).es != []
  {
    RemoveShort();
    hide LE, Remove, Zeros, LongKey;
  }

  lemma TooLarge(kids: seq<Kid>, r: nat, es: seq<Entry>)
    requires r < |kids| && HEADER + EsSize(es) > PAGE / 4
    ensures MergeSide(kids, r, es) == 0 && SideKey(kids, r, es) == KeyOf(es)
  {
    hide EsSize;
  }
}
