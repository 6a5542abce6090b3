/** Byte strings and the lexicographic order that every key comparison uses. */
module Bytes {

  type byte = x: int | 0 <= x < 256

  type Bytes = seq<byte>

  /** Three-way lexicographic comparison: -1, 0 or 1. */
  function Compare(a: Bytes, b: Bytes): (r: int)
    ensures -1 <= r <= 1
    ensures r == 0 <==> a == b
  {
    if a == [] then
      if b == [] then 0 else -1
    else if b == [] then 1
    else if a[0] < b[0] then -1
    else if a[0] > b[0] then 1
    else
      assert a == [a[0]] + a[1..] && b == [b[0]] + b[1..];
      Compare(a[1..], b[1..])
  }

  predicate Lt(a: Bytes, b: Bytes) {
    Compare(a, b) < 0
  }

  predicate Le(a: Bytes, b: Bytes) {
    Compare(a, b) <= 0
  }

  lemma {:induction false} CompareAntisymmetric(a: Bytes, b: Bytes)
    ensures Compare(b, a) == -Compare(a, b)
  {
    if a != [] && b != [] && a[0] == b[0] {
      CompareAntisymmetric(a[1..], b[1..]);
    }
  }

  lemma {:induction false} LeLtTransitive(a: Bytes, b: Bytes, c: Bytes)
    requires Le(a, b) && Le(b, c)
    ensures Le(a, c)
    ensures Lt(a, b) || Lt(b, c) ==> Lt(a, c)
  {
    if a != [] && b != [] && c != [] && a[0] == b[0] == c[0] {
      LeLtTransitive(a[1..], b[1..], c[1..]);
    }
  }

  /** The four comparison operators of the cursor and scan interfaces. */
  datatype Cmp = CmpGE | CmpGT | CmpLT | CmpLE

  predicate CmpOK(cur: Bytes, cmp: Cmp, key: Bytes) {
    var r := Compare(cur, key);
    match cmp
    case CmpGE => r >= 0
    case CmpGT => r > 0
    case CmpLT => r < 0
    case CmpLE => r <= 0
  }

  /** A common prefix does not influence the comparison. */
  lemma {:induction false} ComparePrefix(p: Bytes, a: Bytes, b: Bytes)
    ensures Compare(p + a, p + b) == Compare(a, b)
  {
    if p == [] {
      assert p + a == a && p + b == b;
    } else {
      ComparePrefix(p[1..], a, b);
      assert (p + a)[1..] == p[1..] + a && (p + b)[1..] == p[1..] + b;
    }
  }
}
