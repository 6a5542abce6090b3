/** What a transaction does, as a list of operations, and when the list is a correct run from a given map. */
module Serial {
  import opened Bytes
  import opened Conflicts

  datatype Lookup = Found(val: Bytes) | Missing

  /** A point read and its answer, a range read and its answer, an insertion or update, a deletion. */
  datatype Op =
    | ReadKey(key: Bytes, answer: Lookup)
    | ReadRange(range: KeyRange, answers: map<Bytes, Bytes>)
    | SetKey(key: Bytes, val: Bytes)
    | DelKey(key: Bytes)

  /** First byte of a pending value. */
  const FLAG_DELETED: byte := 1
  const FLAG_UPDATED: byte := 2

  ghost function At(m: map<Bytes, Bytes>, k: Bytes): Lookup {
    if k in m then Found(m[k]) else Missing
  }

  ghost function RangeOf(m: map<Bytes, Bytes>, r: KeyRange): map<Bytes, Bytes> {
    map k | k in m && Inside(k, r) :: m[k]
  }

  ghost function Effect(m: map<Bytes, Bytes>, op: Op): map<Bytes, Bytes> {
    match op
    case SetKey(key, val) => m[key := val]
    case DelKey(key) => m - {key}
    case _ => m
  }

  ghost function Run(m: map<Bytes, Bytes>, ops: seq<Op>): map<Bytes, Bytes> {
    if ops == [] then m else Effect(Run(m, ops[..|ops| - 1]), ops[|ops| - 1])
  }

  ghost predicate AnswerOK(m: map<Bytes, Bytes>, op: Op) {
    match op
    case ReadKey(key, answer) => answer == At(m, key)
    case ReadRange(range, answers) => answers == RangeOf(m, range)
    case _ => true
  }

  /** Executed from `m`, the operations give exactly these answers. */
  ghost predicate Legal(m: map<Bytes, Bytes>, ops: seq<Op>) {
    ops != [] ==>
      && Legal(m, ops[..|ops| - 1])
      && AnswerOK(Run(m, ops[..|ops| - 1]), ops[|ops| - 1])
  }

  ghost function RangeIn(op: Op): KeyRange {
    match op
    case ReadRange(range, _) => range
    case ReadKey(key, _) => Point(key)
    case SetKey(key, _) => Point(key)
    case DelKey(key) => Point(key)
  }

  /** The keys that the operations depend on are among `deps`. */
  ghost predicate Covered(ops: seq<Op>, deps: seq<KeyRange>) {
    forall i :: 0 <= i < |ops| ==> RangeIn(ops[i]) in deps
  }

  ghost predicate Agree(a: map<Bytes, Bytes>, b: map<Bytes, Bytes>, deps: seq<KeyRange>) {
    forall k :: InReads(k, deps) ==> SameAt(a, b, k)
  }

  /** Two maps that agree on what the operations read are as good as each other. */
  lemma {:induction false} SameAnswers(a: map<Bytes, Bytes>, b: map<Bytes, Bytes>, ops: seq<Op>, deps: seq<KeyRange>)
    requires Legal(a, ops) && Covered(ops, deps) && Agree(a, b, deps)
    ensures Legal(b, ops) && Agree(Run(a, ops), Run(b, ops), deps)
    decreases |ops|
  {
    hide Compare, Le;
    if ops != [] {
      var front, op := ops[..|ops| - 1], ops[|ops| - 1];
      SameAnswers(a, b, front, deps);
      assert RangeIn(op) in deps;
      SameAnswer(Run(a, front), Run(b, front), op, deps);
    }
  }

  lemma SameAnswer(a: map<Bytes, Bytes>, b: map<Bytes, Bytes>, op: Op, deps: seq<KeyRange>)
    requires Agree(a, b, deps) && RangeIn(op) in deps && AnswerOK(a, op)
    ensures AnswerOK(b, op) && Agree(Effect(a, op), Effect(b, op), deps)
  {
    hide Compare, Le;
    forall k | Inside(k, RangeIn(op)) ensures SameAt(a, b, k) {
      assert InReads(k, deps);
    }
    if op.ReadKey? {
      PointInside(op.key);
    } else if op.ReadRange? {
      assert RangeOf(a, op.range) == RangeOf(b, op.range);
    }
  }

  lemma PointInside(k: Bytes)
    ensures Inside(k, Point(k))
  {
  }

  // ---- the pending tree as the net effect of the operations ----

  /** The flagged values that the operations leave in the pending tree. */
  ghost function PendingOf(ops: seq<Op>): map<Bytes, Bytes> {
    if ops == [] then map[]
    else
      var p, op := PendingOf(ops[..|ops| - 1]), ops[|ops| - 1];
      match op
      case SetKey(key, val) => p[key := [FLAG_UPDATED] + val]
      case DelKey(key) => p[key := [FLAG_DELETED]]
      case _ => p
  }

  /** Reads leave the pending values alone, and a write sets one. */
  lemma ReadLeaves(ops: seq<Op>, op: Op)
    requires op.ReadKey? || op.ReadRange?
    ensures PendingOf(ops + [op]) == PendingOf(ops)
  {
    assert (ops + [op])[..|ops|] == ops;
  }

  lemma WriteLeaves(ops: seq<Op>, op: Op)
    requires op.SetKey? || op.DelKey?
    ensures PendingOf(ops + [op]) == PendingOf(ops)[op.key := if op.SetKey? then [FLAG_UPDATED] + op.val else [FLAG_DELETED]]
  {
    assert (ops + [op])[..|ops|] == ops;
  }

  ghost predicate FlagOK(v: Bytes) {
    v != [] && (v == [FLAG_DELETED] || v[0] == FLAG_UPDATED)
  }

  /** The meaning of a flagged value. */
  ghost function Unflag(v: Bytes): Lookup {
    if v != [] && v[0] == FLAG_UPDATED then Found(v[1..]) else Missing
  }

  /** A key, looked up among the pending values first. */
  ghost function Through(m: map<Bytes, Bytes>, pending: map<Bytes, Bytes>, k: Bytes): Lookup {
    if k in pending then Unflag(pending[k]) else At(m, k)
  }

  /** Pending values laid over a map. */
  ghost function Overlay(m: map<Bytes, Bytes>, pending: map<Bytes, Bytes>): map<Bytes, Bytes> {
    map k | k in m.Keys + pending.Keys && Through(m, pending, k).Found? :: Through(m, pending, k).val
  }

  lemma OverlayAt(m: map<Bytes, Bytes>, pending: map<Bytes, Bytes>, k: Bytes)
    ensures At(Overlay(m, pending), k) == Through(m, pending, k)
  {
  }

  lemma SameMaps(a: map<Bytes, Bytes>, b: map<Bytes, Bytes>)
    requires forall k :: At(a, k) == At(b, k)
    ensures a == b
  {
    forall k | k in a ensures k in b && a[k] == b[k] {
      assert At(a, k) == At(b, k);
    }
    forall k | k in b ensures k in a {
      assert At(a, k) == At(b, k);
    }
  }

  lemma {:induction false} PendingFlags(ops: seq<Op>)
    ensures forall k :: k in PendingOf(ops) ==> FlagOK(PendingOf(ops)[k])
    decreases |ops|
  {
    if ops != [] {
      PendingFlags(ops[..|ops| - 1]);
    }
  }

  lemma {:induction false} RunAt(m: map<Bytes, Bytes>, ops: seq<Op>, k: Bytes)
    ensures At(Run(m, ops), k) == Through(m, PendingOf(ops), k)
    decreases |ops|
  {
    if ops != [] {
      var op := ops[|ops| - 1];
      RunAt(m, ops[..|ops| - 1], k);
      if op.SetKey? {
        assert ([FLAG_UPDATED] + op.val)[1..] == op.val;
      }
    }
  }

  /** Running the operations is laying their net effect over the map. */
  lemma RunIsOverlay(m: map<Bytes, Bytes>, ops: seq<Op>)
    ensures Run(m, ops) == Overlay(m, PendingOf(ops))
  {
    hide Run, PendingOf, Overlay, At, Through;
    forall k ensures At(Run(m, ops), k) == At(Overlay(m, PendingOf(ops)), k) {
      RunAt(m, ops, k);
      OverlayAt(m, PendingOf(ops), k);
    }
    SameMaps(Run(m, ops), Overlay(m, PendingOf(ops)));
  }

  /** What is pending has been read. */
  lemma {:induction false} PendingRead(ops: seq<Op>, deps: seq<KeyRange>)
    requires Covered(ops, deps)
    ensures forall k :: k in PendingOf(ops) ==> Point(k) in deps && InReads(k, deps)
    decreases |ops|
  {
    hide Inside;
    if ops != [] {
      PendingRead(ops[..|ops| - 1], deps);
      assert RangeIn(ops[|ops| - 1]) in deps;
      forall k | k in PendingOf(ops) ensures Point(k) in deps && InReads(k, deps) {
        PointInside(k);
      }
    }
  }

  // ---- serial executions ----

  /** The map after running whole transactions one after the other. */
  ghost function RunAll(m: map<Bytes, Bytes>, txs: seq<seq<Op>>): map<Bytes, Bytes> {
    if txs == [] then m else Run(RunAll(m, txs[..|txs| - 1]), txs[|txs| - 1])
  }

  /** The transactions, one after the other, each with all its answers right. */
  ghost predicate SerialRun(m: map<Bytes, Bytes>, txs: seq<seq<Op>>) {
    txs != [] ==>
      && SerialRun(m, txs[..|txs| - 1])
      && Legal(RunAll(m, txs[..|txs| - 1]), txs[|txs| - 1])
  }

  lemma RunAllMore(m: map<Bytes, Bytes>, txs: seq<seq<Op>>, ops: seq<Op>)
    ensures RunAll(m, txs + [ops]) == Run(RunAll(m, txs), ops)
    ensures SerialRun(m, txs) && Legal(RunAll(m, txs), ops) ==> SerialRun(m, txs + [ops])
  {
    assert (txs + [ops])[..|txs|] == txs;
  }
}
