/** The order-preserving encoding of typed values, and its decoder. */
module Codec {
  import opened Bytes

  type int64 = x: int | -0x8000_0000_0000_0000 <= x < 0x8000_0000_0000_0000
  type uint64 = x: int | 0 <= x < 0x1_0000_0000_0000_0000
  type uint32 = x: int | 0 <= x < 0x1_0000_0000

  const TYPE_BYTES: byte := 1
  const TYPE_INT64: byte := 2

  /** A table cell. */
  datatype Value = I64(i: int64) | Str(s: Bytes)

  function TypeOf(v: Value): byte {
    if v.I64? then TYPE_INT64 else TYPE_BYTES
  }

  function Types(vals: seq<Value>): (r: seq<byte>)
    ensures |r| == |vals|
  {
    seq(|vals|, i requires 0 <= i < |vals| => TypeOf(vals[i]))
  }

  // ---- integers ----

  /** Two's complement. */
  function Unsigned(i: int64): uint64 {
    if i < 0 then i + 0x1_0000_0000_0000_0000 else i
  }

  function Signed(u: uint64): int64 {
    if u >= 0x8000_0000_0000_0000 then u - 0x1_0000_0000_0000_0000 else u
  }

  /** Exclusive or with the top bit. */
  function FlipSign(u: uint64): uint64 {
    if u >= 0x8000_0000_0000_0000 then u - 0x8000_0000_0000_0000 else u + 0x8000_0000_0000_0000
  }

  /** Big-endian bytes. */
  function BigEndian(u: nat, n: nat): (r: Bytes)
    ensures |r| == n
  {
    if n == 0 then [] else BigEndian(u / 256, n - 1) + [u % 256]
  }

  function FromBigEndian(b: Bytes): nat {
    if b == [] then 0 else FromBigEndian(b[..|b| - 1]) * 256 + b[|b| - 1]
  }

  function Power256(n: nat): (p: nat)
    ensures p > 0
  {
    if n == 0 then 1 else 256 * Power256(n - 1)
  }

  lemma {:induction false} BigEndianBack(u: nat, n: nat)
    requires u < Power256(n)
    ensures FromBigEndian(BigEndian(u, n)) == u
    decreases n
  {
    if n > 0 {
      BigEndianBack(u / 256, n - 1);
      assert BigEndian(u, n)[..n - 1] == BigEndian(u / 256, n - 1);
    }
  }

  lemma {:induction false} FromBigEndianBound(b: Bytes)
    ensures FromBigEndian(b) < Power256(|b|)
    decreases |b|
  {
    if b != [] {
      FromBigEndianBound(b[..|b| - 1]);
    }
  }

  /** Comparing what follows a common part; a difference in the first part decides. */
  lemma {:induction false} CompareParts(a: Bytes, b: Bytes, x: Bytes, y: Bytes)
    requires |a| == |b|
    ensures Compare(a + x, b + y) == if a == b then Compare(x, y) else Compare(a, b)
    decreases |a|
  {
    if a == [] {
      assert a + x == x && b + y == y;
    } else {
      CompareParts(a[1..], b[1..], x, y);
      assert (a + x)[1..] == a[1..] + x && (b + y)[1..] == b[1..] + y;
      assert a == [a[0]] + a[1..] && b == [b[0]] + b[1..];
    }
  }

  function Sign(i: int): int {
    if i < 0 then -1 else if i > 0 then 1 else 0
  }

  lemma {:induction false} BigEndianOrder(u: nat, v: nat, n: nat)
    requires u < Power256(n) && v < Power256(n)
    ensures Compare(BigEndian(u, n), BigEndian(v, n)) == Sign(u - v)
    decreases n
  {
    if n > 0 {
      BigEndianOrder(u / 256, v / 256, n - 1);
      CompareParts(BigEndian(u / 256, n - 1), BigEndian(v / 256, n - 1), [u % 256], [v % 256]);
      OneByte(u % 256, v % 256);
    }
  }

  lemma OneByte(a: byte, b: byte)
    ensures Compare([a], [b]) == Sign(a - b)
  {
    assert [a][1..] == [] && [b][1..] == [];
  }

  /** An integer column: the sign bit flipped, big-endian. */
  function EncodeInt(i: int64): (r: Bytes)
    ensures |r| == 8
  {
    BigEndian(FlipSign(Unsigned(i)), 8)
  }

  lemma EightBytes()
    ensures Power256(8) == 0x1_0000_0000_0000_0000
  {
    assert Power256(4) == 0x1_0000_0000;
    assert Power256(8) == 256 * (256 * (256 * (256 * Power256(4))));
  }

  lemma IntOrder(i: int64, j: int64)
    ensures Compare(EncodeInt(i), EncodeInt(j)) == Sign(i - j)
  {
    EightBytes();
    BigEndianOrder(FlipSign(Unsigned(i)), FlipSign(Unsigned(j)), 8);
  }

  lemma IntBack(i: int64)
    ensures FromBigEndian(EncodeInt(i)) < 0x1_0000_0000_0000_0000
    ensures Signed(FlipSign(FromBigEndian(EncodeInt(i)))) == i
  {
    EightBytes();
    BigEndianBack(FlipSign(Unsigned(i)), 8);
  }

  // ---- strings ----

  /** A byte as it appears inside an encoded string: no 0 remains. */
  function EscapeByte(c: byte): Bytes {
    if c <= 1 then [1, c + 1] else [c]
  }

  function Escape(s: Bytes): Bytes {
    if s == [] then [] else Escape(s[..|s| - 1]) + EscapeByte(s[|s| - 1])
  }

  lemma EscapeLast(s: Bytes)
    requires s != []
    ensures Escape(s) == Escape(s[..|s| - 1]) + EscapeByte(s[|s| - 1])
  {
  }

  lemma {:induction false} EscapeConcat(a: Bytes, b: Bytes)
    ensures Escape(a + b) == Escape(a) + Escape(b)
    decreases |b|
  {
    hide Escape, EscapeByte;
    if b == [] {
      EscapeNothing();
      assert a + b == a;
    } else {
      var n := |b| - 1;
      EscapeConcat(a, b[..n]);
      assert (a + b)[..|a + b| - 1] == a + b[..n];
      EscapeLast(b);
      EscapeLast(a + b);
      assert Escape(a) + (Escape(b[..n]) + EscapeByte(b[n])) == (Escape(a) + Escape(b[..n])) + EscapeByte(b[n]);
    }
  }

  lemma EscapeHead(s: Bytes)
    requires s != []
    ensures Escape(s) == EscapeByte(s[0]) + Escape(s[1..])
  {
    hide Escape, EscapeByte;
    assert s == [s[0]] + s[1..];
    EscapeConcat([s[0]], s[1..]);
    EscapeLast([s[0]]);
    EscapeNothing();
    assert [s[0]][..0] == [];
  }

  lemma {:induction false} NoZero(s: Bytes)
    ensures 0 !in Escape(s)
    decreases |s|
  {
    if s != [] {
      NoZero(s[..|s| - 1]);
    }
  }

  /** The number of bytes that need escaping. */
  function CountEscapes(s: Bytes): (n: nat)
    ensures n <= |s|
  {
    if s == [] then 0 else CountEscapes(s[..|s| - 1]) + if s[|s| - 1] <= 1 then 1 else 0
  }

  lemma {:induction false} EscapeLength(s: Bytes)
    ensures |Escape(s)| == |s| + CountEscapes(s)
    ensures CountEscapes(s) == 0 ==> Escape(s) == s
    decreases |s|
  {
    if s != [] {
      EscapeLength(s[..|s| - 1]);
      assert s == s[..|s| - 1] + [s[|s| - 1]];
    }
  }

  lemma {:induction false} CountGrows(s: Bytes, n: nat)
    requires n <= |s|
    ensures n + CountEscapes(s[..n]) <= |s| + CountEscapes(s)
    decreases |s| - n
  {
    if n < |s| {
      CountGrows(s, n + 1);
      assert s[..n + 1][..n] == s[..n];
    } else {
      assert s[..n] == s;
    }
  }

  /** `bytes.Count` of 0 and of 1. */
  method Count(s: Bytes) returns (n: nat)
    ensures n == CountEscapes(s)
  {
    n := 0;
    for i := 0 to |s|
      invariant n == CountEscapes(s[..i])
    {
      assert s[..i + 1][..i] == s[..i];
      if s[i] <= 1 {
        n := n + 1;
      }
    }
    assert s[..|s|] == s;
  }

  /** Escape into a buffer of the right size. */
  method EscapeString(s: Bytes) returns (r: Bytes)
    ensures r == Escape(s)
  {
    hide Escape, CountEscapes;
    var toEscape := Count(s);
    EscapeLength(s);
    if toEscape == 0 {
      return s;
    }
    var out := new byte[|s| + toEscape];
    var pos := 0;
    EscapeNothing();
    assert s[..0] == [];
    for i := 0 to |s|
      invariant pos == i + CountEscapes(s[..i]) <= out.Length
      invariant out[..pos] == Escape(s[..i])
    {
      CountGrows(s, i + 1);
      EscapeStep(s, i);
      var ch := s[i];
      if ch <= 1 {
        out[pos], out[pos + 1] := 1, ch + 1;
        assert out[..pos + 2] == out[..pos] + [1, ch + 1];
        pos := pos + 2;
      } else {
        out[pos] := ch;
        assert out[..pos + 1] == out[..pos] + [ch];
        pos := pos + 1;
      }
    }
    assert s[..|s|] == s && out[..out.Length] == out[..];
    r := out[..];
  }

  lemma EscapeNothing()
    ensures Escape([]) == [] && CountEscapes([]) == 0
  {
  }

  lemma EscapeStep(s: Bytes, i: nat)
    requires i < |s|
    ensures Escape(s[..i + 1]) == Escape(s[..i]) + EscapeByte(s[i])
    ensures CountEscapes(s[..i + 1]) == CountEscapes(s[..i]) + if s[i] <= 1 then 1 else 0
  {
    assert s[..i + 1][..i] == s[..i];
  }

  datatype Unescaped = Plain(s: Bytes) | Malformed

  function Prepend(r: Bytes, u: Unescaped): Unescaped {
    if u.Plain? then Plain(r + u.s) else Malformed
  }

  /** The string that an escaped string stands for, if it is well formed. */
  function Unescape(e: Bytes): Unescaped {
    if e == [] then Plain([])
    else if e[0] != 1 then Prepend([e[0]], Unescape(e[1..]))
    else if |e| >= 2 && (e[1] == 1 || e[1] == 2) then Prepend([e[1] - 1], Unescape(e[2..]))
    else Malformed
  }

  lemma PrependTwice(a: Bytes, b: Bytes, u: Unescaped)
    ensures Prepend(a, Prepend(b, u)) == Prepend(a + b, u)
    ensures Prepend([], u) == u
  {
    if u.Plain? {
      assert a + (b + u.s) == (a + b) + u.s;
      assert [] + u.s == u.s;
    }
  }

  lemma {:induction false} UnescapeEscape(s: Bytes)
    ensures Unescape(Escape(s)) == Plain(s)
    decreases |s|
  {
    if s != [] {
      UnescapeEscape(s[1..]);
      EscapeHead(s);
      var e := Escape(s);
      assert s == [s[0]] + s[1..];
      if s[0] <= 1 {
        assert e[2..] == Escape(s[1..]);
      } else {
        assert e[1..] == Escape(s[1..]);
      }
    }
  }

  lemma {:induction false} NothingEscaped(e: Bytes)
    requires 1 !in e
    ensures Unescape(e) == Plain(e)
    decreases |e|
  {
    if e != [] {
      NothingEscaped(e[1..]);
      assert e == [e[0]] + e[1..];
    }
  }

  lemma UnescapeStep(d: Bytes, r: Bytes)
    requires d != []
    ensures d[0] != 1 ==> Prepend(r, Unescape(d)) == Prepend(r + [d[0]], Unescape(d[1..]))
    ensures d[0] == 1 && |d| >= 2 && (d[1] == 1 || d[1] == 2) ==>
              Prepend(r, Unescape(d)) == Prepend(r + [d[1] - 1], Unescape(d[2..]))
    ensures d[0] == 1 && !(|d| >= 2 && (d[1] == 1 || d[1] == 2)) ==> Unescape(d) == Malformed
  {
    UnescapeHead(d);
    hide Unescape, Prepend;
    if d[0] != 1 {
      PrependTwice(r, [d[0]], Unescape(d[1..]));
    } else if |d| >= 2 && (d[1] == 1 || d[1] == 2) {
      PrependTwice(r, [d[1] - 1], Unescape(d[2..]));
    }
  }

  lemma UnescapeHead(e: Bytes)
    requires e != []
    ensures e[0] != 1 ==> Unescape(e) == Prepend([e[0]], Unescape(e[1..]))
    ensures e[0] == 1 ==>
              if |e| >= 2 && (e[1] == 1 || e[1] == 2) then Unescape(e) == Prepend([e[1] - 1], Unescape(e[2..]))
              else Unescape(e) == Malformed
  {
  }

  lemma NothingLeft(r: Bytes)
    ensures Prepend(r, Unescape([])) == Plain(r)
  {
  }

  /** Undo the escaping; `Malformed` is where the source fails its assertion or runs out of input. */
  method UnescapeString(e: Bytes) returns (out: Unescaped)
    ensures out == Unescape(e)
  {
    hide Unescape;
    if 1 !in e {
      NothingEscaped(e);
      return Plain(e);
    }
    var r := [];
    var i := 0;
    PrependTwice([], [], Unescape(e));
    assert e[0..] == e;
    while i < |e|
      invariant i <= |e|
      invariant Unescape(e) == Prepend(r, Unescape(e[i..]))
    {
      UnescapeStep(e[i..], r);
      assert e[i..][1..] == e[i + 1..] && e[i..][0] == e[i];
      if e[i] == 1 {
        i := i + 1;
        if i >= |e| || !(e[i] == 1 || e[i] == 2) {
          return Malformed;
        }
        assert e[i - 1..][2..] == e[i + 1..] && e[i - 1..][1] == e[i];
        r := r + [e[i] - 1];
      } else {
        r := r + [e[i]];
      }
      i := i + 1;
    }
    assert e[|e|..] == [];
    NothingLeft(r);
    out := Plain(r);
  }

  /** The order of two terminated strings, whatever follows them. */
  lemma {:induction false} StrOrder(s: Bytes, t: Bytes, x: Bytes, y: Bytes)
    ensures Compare(Escape(s) + [0] + x, Escape(t) + [0] + y) == if s == t then Compare(x, y) else Compare(s, t)
    decreases |s|
  {
    hide Escape, EscapeByte, Compare;
    if s == [] || t == [] {
      StrEnd(s, t, x, y);
    } else {
      StrOrder(s[1..], t[1..], x, y);
      EscapeHead(s);
      EscapeHead(t);
      CompareHeads(s, t);
      var a, b := Escape(s[1..]) + [0] + x, Escape(t[1..]) + [0] + y;
      Regroup(EscapeByte(s[0]), Escape(s[1..]), x);
      Regroup(EscapeByte(t[0]), Escape(t[1..]), y);
      ByteOrder(s[0], t[0], a, b);
    }
  }

  lemma Regroup(a: Bytes, b: Bytes, x: Bytes)
    ensures (a + b) + [0] + x == a + (b + [0] + x)
  {
  }

  lemma CompareHeads(s: Bytes, t: Bytes)
    requires s != [] && t != []
    ensures Compare(s, t) == if s[0] == t[0] then Compare(s[1..], t[1..]) else Sign(s[0] as int - t[0] as int)
    ensures s == t <==> s[0] == t[0] && s[1..] == t[1..]
  {
    assert s == [s[0]] + s[1..] && t == [t[0]] + t[1..];
  }

  lemma ByteOrder(c: byte, d: byte, a: Bytes, b: Bytes)
    ensures Compare(EscapeByte(c) + a, EscapeByte(d) + b) == if c == d then Compare(a, b) else Sign(c - d)
  {
    if c == d {
      ComparePrefix(EscapeByte(c), a, b);
    } else {
      var x, y := EscapeByte(c) + a, EscapeByte(d) + b;
      if c <= 1 && d <= 1 {
        assert x[1..] == [c + 1] + a && y[1..] == [d + 1] + b;
      }
    }
  }

  lemma StrEnd(s: Bytes, t: Bytes, x: Bytes, y: Bytes)
    requires s == [] || t == []
    ensures Compare(Escape(s) + [0] + x, Escape(t) + [0] + y) == if s == t then Compare(x, y) else Compare(s, t)
  {
    if s == [] && t == [] {
      assert ([0] + x)[1..] == x && ([0] + y)[1..] == y;
    } else if s == [] {
      EscapeHead(t);
      assert (Escape(t) + [0] + y)[0] == EscapeByte(t[0])[0];
    } else {
      EscapeHead(s);
      assert (Escape(s) + [0] + x)[0] == EscapeByte(s[0])[0];
    }
  }
}
