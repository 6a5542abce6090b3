/** Tree nodes as sequences of entries, with their exact size on a page, and the page splitting rules. */
module Nodes {
  import opened Bytes
  import opened Seqs
  import opened SortedSeq

  const PAGE := 4096
  const HEADER := 4
  const MAX_KEY := 1000
  const MAX_VAL := 3000

  /** The content of one tree page. */
  datatype Node = Node(leaf: bool, es: seq<Entry>)

  /** 8 bytes of pointer, 2 of offset, 4 of lengths, then the key and the value. */
  function EntrySize(e: Entry): (n: nat)
    ensures n >= 14
  {
    14 + |e.key| + |e.val|
  }

  function EsSize(es: seq<Entry>): nat {
    if es == [] then 0 else EsSize(es[..|es| - 1]) + EntrySize(es[|es| - 1])
  }

  function Size(n: Node): nat {
    HEADER + EsSize(n.es)
  }

  ghost predicate Within(es: seq<Entry>, limit: nat) {
    forall i :: 0 <= i < |es| ==> EntrySize(es[i]) <= limit
  }

  lemma {:induction false} EsSizeConcat(a: seq<Entry>, b: seq<Entry>)
    ensures EsSize(a + b) == EsSize(a) + EsSize(b)
  {
    if b == [] {
      assert a + b == a;
    } else {
      EsSizeConcat(a, b[..|b| - 1]);
      assert (a + b)[..|a + b| - 1] == a + b[..|b| - 1];
    }
  }

  lemma EsSizeCut(es: seq<Entry>, i: nat)
    requires i <= |es|
    ensures EsSize(es) == EsSize(es[..i]) + EsSize(es[i..])
  {
    hide EsSize;
    EsSizeConcat(es[..i], es[i..]);
    assert es == es[..i] + es[i..];
  }

  lemma {:induction false} EsSizeBounds(es: seq<Entry>, limit: nat)
    requires Within(es, limit)
    ensures 14 * |es| <= EsSize(es) <= limit * |es|
  {
    if es != [] {
      EsSizeBounds(es[..|es| - 1], limit);
      assert EntrySize(es[|es| - 1]) <= limit;
      assert limit * |es| == limit * (|es| - 1) + limit;
    }
  }

  lemma EsSizeOne(e: Entry)
    ensures EsSize([e]) == EntrySize(e)
  {
    assert [e][..0] == [];
  }

  lemma EsSizeSplice(es: seq<Entry>, lo: nat, hi: nat, mid: seq<Entry>)
    requires lo <= hi <= |es|
    ensures EsSize(Splice(es, lo, hi, mid)) == EsSize(es) - EsSize(es[lo..hi]) + EsSize(mid)
  {
    EsSizeCut(es, lo);
    EsSizeCut(es[lo..], hi - lo);
    assert es[lo..][..hi - lo] == es[lo..hi] && es[lo..][hi - lo..] == es[hi..];
    EsSizeConcat(es[..lo], mid);
    EsSizeConcat(es[..lo] + mid, es[hi..]);
  }

  /** Binary search for the last position at most `key`; a miss on the left wraps to 65535. */
  method NodeLookupLE(node: Node, key: Bytes) returns (idx: nat)
    requires Sorted(node.es)
    ensures idx == if LE(node.es, key) == -1 then 65535 else LE(node.es, key)
  {
    hide Compare, LE;
    var left, right := 0, |node.es| - 1;
    while left <= right
      invariant 0 <= left <= right + 1 <= |node.es|
      invariant forall i :: 0 <= i < left ==> Lt(node.es[i].key, key)
      invariant forall i :: right < i < |node.es| ==> Lt(key, node.es[i].key)
    {
      var mid := (left + right) / 2;
      var cmp := Compare(node.es[mid].key, key);
      if cmp == 0 {
        OnlyAt(node.es, key, mid);
        return mid;
      }
      if cmp > 0 {
        CompareAntisymmetric(node.es[mid].key, key);
        forall i | mid < i < |node.es| ensures Lt(key, node.es[i].key) {
          LtLt(key, node.es[mid].key, node.es[i].key);
        }
        right := mid - 1;
      } else {
        forall i | 0 <= i < mid ensures Lt(node.es[i].key, key) {
          LtLt(node.es[i].key, node.es[mid].key, key);
        }
        left := mid + 1;
      }
    }
    LECorrect(node.es, key);
    LEUnique(node.es, key, LE(node.es, key), right);
    idx := if right < 0 then 65535 else right;
  }

  /** The first position from `n` on whose right part fits one page. */
  ghost function CutFrom(es: seq<Entry>, n: nat): (c: nat)
    requires n <= |es|
    ensures n <= c <= |es|
    ensures HEADER + EsSize(es[c..]) <= PAGE
    ensures forall m :: n <= m < c ==> HEADER + EsSize(es[m..]) > PAGE
    decreases |es| - n
  {
    if HEADER + EsSize(es[n..]) <= PAGE || n == |es| then
      assert n == |es| ==> es[n..] == [];
      n
    else CutFrom(es, n + 1)
  }

  /** Where a node is cut: at its middle, or further right until the right part fits. */
  ghost function Cut(es: seq<Entry>): nat {
    CutFrom(es, |es| / 2)
  }

  lemma CutInside(es: seq<Entry>)
    requires |es| >= 2 && Within(es, PAGE - HEADER)
    ensures 0 < Cut(es) < |es|
  {
    var last := |es| - 1;
    assert es[last..] == [es[last]];
    EsSizeOne(es[last]);
    assert Cut(es) <= last;
  }

  /** Cut an oversized node in two; the right part always fits, the left part may not. */
  method NodeSplit2(node: Node) returns (left: Node, right: Node)
    requires |node.es| >= 2 && Within(node.es, PAGE - HEADER)
    ensures left == Node(node.leaf, node.es[..Cut(node.es)])
    ensures right == Node(node.leaf, node.es[Cut(node.es)..])
    ensures left.es != [] && right.es != [] && Size(right) <= PAGE
  {
    hide EsSize, CutFrom;
    CutInside(node.es);
    var nleft := |node.es| / 2;
    EsSizeCut(node.es, nleft);
    while Size(node) - (HEADER + EsSize(node.es[..nleft])) + HEADER > PAGE
      invariant |node.es| / 2 <= nleft <= Cut(node.es)
      invariant EsSize(node.es) == EsSize(node.es[..nleft]) + EsSize(node.es[nleft..])
      decreases |node.es| - nleft
    {
      nleft := nleft + 1;
      EsSizeCut(node.es, nleft);
    }
    left := Node(node.leaf, node.es[..nleft]);
    right := Node(node.leaf, node.es[nleft..]);
  }

  /** Three pages are enough: one of the first, first two or three cuts leaves parts that all fit. */
  ghost predicate SplitFits(es: seq<Entry>) {
    || HEADER + EsSize(es) <= PAGE
    || HEADER + EsSize(es[..Cut(es)]) <= PAGE
    || HEADER + EsSize(es[..Cut(es[..Cut(es)])]) <= PAGE
  }

  /** The parts into which a node's entries are split; three parts may still be too large. */
  ghost function PartsOf(es: seq<Entry>): (r: seq<seq<Entry>>)
    ensures 1 <= |r| <= 3
  {
    var c := Cut(es);
    var d := Cut(es[..c]);
    if HEADER + EsSize(es) <= PAGE then [es]
    else if HEADER + EsSize(es[..c]) <= PAGE then [es[..c], es[c..]]
    else [es[..d], es[d..c], es[c..]]
  }

  /** The parts of a split node are those. */
  ghost predicate SplitParts(parts: seq<Node>, es: seq<Entry>) {
    |parts| == |PartsOf(es)| && forall i :: 0 <= i < |parts| ==> parts[i].es == PartsOf(es)[i]
  }

  ghost function Joined(parts: seq<Node>): seq<Entry> {
    if parts == [] then [] else parts[0].es + Joined(parts[1..])
  }

  ghost predicate FitParts(parts: seq<Node>, leaf: bool) {
    forall i :: 0 <= i < |parts| ==> parts[i].leaf == leaf && parts[i].es != [] && Size(parts[i]) <= PAGE
  }

  /** Split a node into one to three pages. `ok` is false where the source's assertion on the leftmost part fails. */
  method NodeSplit3(node: Node) returns (ok: bool, parts: seq<Node>)
    requires node.es != [] && Within(node.es, PAGE - HEADER)
    ensures ok <==> SplitFits(node.es)
    ensures ok ==> 1 <= |parts| <= 3 && FitParts(parts, node.leaf) && Joined(parts) == node.es
    ensures ok ==> (|parts| == 1 <==> Size(node) <= PAGE)
    ensures ok ==> SplitParts(parts, node.es)
  {
    hide EsSize, CutFrom, Joined;
    if Size(node) <= PAGE {
      JoinedCons(node, []);
      assert [node] + [] == [node] && node.es + [] == node.es;
      return true, [node];
    }
    AtLeastTwo(node.es);
    var left, right := NodeSplit2(node);
    if Size(left) <= PAGE {
      JoinedCons(left, [right] + []);
      JoinedCons(right, []);
      assert [left] + ([right] + []) == [left, right];
      return true, [left, right];
    }
    AtLeastTwo(left.es);
    var leftleft, middle := NodeSplit2(left);
    var d := Cut(left.es);
    assert left.es[..d] == node.es[..d];
    if Size(leftleft) > PAGE {
      return false, [];
    }
    JoinedCons(leftleft, [middle] + ([right] + []));
    JoinedCons(middle, [right] + []);
    JoinedCons(right, []);
    assert [leftleft] + ([middle] + ([right] + [])) == [leftleft, middle, right];
    return true, [leftleft, middle, right];
  }

  lemma AtLeastTwo(es: seq<Entry>)
    requires Within(es, PAGE - HEADER) && HEADER + EsSize(es) > PAGE
    ensures |es| >= 2
  {
  }

  lemma JoinedCons(n: Node, rest: seq<Node>)
    ensures Joined([n] + rest) == n.es + Joined(rest)
    ensures Joined([]) == []
  {
    assert ([n] + rest)[1..] == rest;
  }

  /** With entries of at most 256 bytes, a page that has grown by two entries always splits. */
  lemma SmallEntriesSplit(es: seq<Entry>)
    requires Within(es, 256) && HEADER + EsSize(es) <= PAGE + 512
    ensures SplitFits(es)
  {
    hide EsSize, CutFrom;
    var c := Cut(es);
    var left := es[..c];
    var d := Cut(left);
    assert left[..d] == es[..d];
    EsSizeCut(es, c);
    EsSizeCut(es, d);
    EsSizeBounds(es[..d], 256);
    EsSizeBounds(es[d..], 256);
    LateCutFits(es, |es| / 2);
    LateCutFits(left, c / 2);
    assert c == |es| / 2 && d == c / 2 ==> 4 * d <= |es|;
  }

  /** If the cut had to move right, the left part is small. */
  lemma LateCutFits(es: seq<Entry>, n: nat)
    requires Within(es, 256) && n <= |es| && HEADER + EsSize(es) <= PAGE + 512
    ensures CutFrom(es, n) == n || EsSize(es[..CutFrom(es, n)]) <= 768
  {
    var c := CutFrom(es, n);
    if c > n {
      assert HEADER + EsSize(es[c - 1..]) > PAGE;
      EsSizeCut(es, c - 1);
      assert es[..c][..c - 1] == es[..c - 1];
      assert EntrySize(es[c - 1]) <= 256;
    }
  }
}
