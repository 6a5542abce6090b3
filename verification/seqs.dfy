/** Splicing: replace the stretch `lo..hi` of a sequence. Every edit of a node is a splice. */
module Seqs {

  function Splice<T>(s: seq<T>, lo: nat, hi: nat, mid: seq<T>): seq<T>
    requires lo <= hi <= |s|
  {
    s[..lo] + mid + s[hi..]
  }

  lemma SpliceIndex<T>(s: seq<T>, lo: nat, hi: nat, mid: seq<T>)
    requires lo <= hi <= |s|
    ensures |Splice(s, lo, hi, mid)| == |s| - (hi - lo) + |mid|
    ensures forall x :: 0 <= x < lo ==> Splice(s, lo, hi, mid)[x] == s[x]
    ensures forall x :: lo <= x < lo + |mid| ==> Splice(s, lo, hi, mid)[x] == mid[x - lo]
    ensures forall x :: lo + |mid| <= x < |Splice(s, lo, hi, mid)| ==>
                          Splice(s, lo, hi, mid)[x] == s[x - lo - |mid| + hi]
  {
  }

  lemma SpliceMiddle<T>(a: seq<T>, b: seq<T>, c: seq<T>, lo: nat, hi: nat, mid: seq<T>)
    requires lo <= hi <= |b|
    ensures Splice(a + b + c, |a| + lo, |a| + hi, mid) == a + Splice(b, lo, hi, mid) + c
  {
    var s := a + b + c;
    assert s[..|a| + lo] == a + b[..lo];
    assert s[|a| + hi..] == b[hi..] + c;
  }

  lemma SplitAt<T>(s: seq<T>, i: nat)
    requires i < |s|
    ensures s == s[..i] + [s[i]] + s[i + 1..]
  {
  }
}
