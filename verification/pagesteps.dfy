/** The elementary steps on the page store, each with the proof that it keeps `Core`. */
module PageSteps {
  import opened Nodes
  import opened PageState

  /** Steps that only move the head leave every page's content alone. */
  ghost predicate SameContent(s: State, s': State) {
    && s'.file == s.file && s'.updates == s.updates && s'.flushed == s.flushed && s'.nappend == s.nappend
    && s'.tailSeq == s.tailSeq && s'.maxSeq == s.maxSeq && s'.maxVer == s.maxVer && s'.curVer == s.curVer
    && s'.chain == s.chain && s'.qptr == s.qptr && s'.qver == s.qver && s'.start == s.start
  }

  lemma ContentKept(s: State, s': State)
    requires Core(s) && Numbers(s') && SameContent(s, s')
    ensures Domain(s') && Slots(s') && Links(s') && Versions(s') && SinceStart(s')
    ensures s'.pages == s.pages && s'.inUse == s.inUse ==> TreePages(s')
  {
    hide Partition, Available, Numbers;
    assert forall p :: Current(s', p) == Current(s, p);
    hide Current;
    forall i | s'.start.headSeq <= i < s'.tailSeq ensures SlotHolds(s', i) {
      assert SlotHolds(s, i);
    }
  }

  // ---- Advance: take the item at the head ----

  ghost predicate CanPop(s: State)
    requires Numbers(s)
  {
    s.headSeq < s.maxSeq && s.qver[s.headSeq] <= s.maxVer
  }

  /** True when taking the head item empties the head page. */
  ghost predicate Wraps(seqno: nat) {
    (seqno + 1) % CAP == 0
  }

  ghost function Advance(s: State): State
    requires Numbers(s) && CanPop(s)
  {
    var head := s.chain[s.headSeq / CAP];
    var s' := s.(headSeq := s.headSeq + 1, taken := s.taken + multiset{s.qptr[s.headSeq]});
    if Wraps(s.headSeq) then
      s'.(headPage := s.chain[(s.headSeq + 1) / CAP], retired := s.retired + {head}, loose := s.loose + multiset{head})
    else s'
  }

  /** The same in the terms of the fields. */
  lemma AdvanceFields(s: State, next: nat)
    requires Numbers(s) && CanPop(s)
    requires Wraps(s.headSeq) ==> (s.headSeq + 1) / CAP < |s.chain| && next == s.chain[(s.headSeq + 1) / CAP]
    ensures s.headSeq < |s.qptr|
    ensures var s' := s.(headSeq := s.headSeq + 1, taken := s.taken + multiset{s.qptr[s.headSeq]});
            Advance(s) == if Wraps(s.headSeq) then
                s'.(headPage := next, retired := s.retired + {s.headPage}, loose := s.loose + multiset{s.headPage})
              else s'
  {
  }

  lemma AdvanceKeeps(s: State)
    requires Core(s) && CanPop(s)
    ensures Core(Advance(s))
    ensures s.qptr[s.headSeq] != 0 && !Frozen(Advance(s), s.qptr[s.headSeq]) && s.qptr[s.headSeq] !in s.updates
  {
    hide Domain, Slots, Links, TreePages, Available, Versions, SinceStart, Partition;
    AdvanceNumbers(s);
    ContentKept(s, Advance(s));
    AdvancePartition(s);
    AdvanceAvailable(s);
  }

  lemma AdvanceNumbers(s: State)
    requires Core(s) && CanPop(s)
    ensures Numbers(Advance(s))
    ensures !Wraps(s.headSeq) ==> (s.headSeq + 1) / CAP == s.headSeq / CAP
    ensures Wraps(s.headSeq) ==> (s.headSeq + 1) / CAP == s.headSeq / CAP + 1
  {
    hide Domain, Slots, Links, Partition, TreePages, Available, Versions, SinceStart;
  }

  lemma AdvancePartition(s: State)
    requires Core(s) && CanPop(s)
    ensures Numbers(Advance(s)) && Partition(Advance(s))
  {
    hide Domain, Slots, Links, TreePages, Available, Versions, SinceStart, AllPages;
    AdvanceNumbers(s);
    AdvanceQueue(s);
    hide Numbers, Queue, ListPages;
    var s' := Advance(s);
    if Wraps(s.headSeq) {
      Regroup2(s.inUse, s.taken, s.loose, multiset(ListPages(s')), multiset(Queue(s')), s.chain[s.headSeq / CAP], s.qptr[s.headSeq]);
    } else {
      Regroup1(s.inUse, s.taken, s.loose, multiset(ListPages(s)), multiset(Queue(s')), s.qptr[s.headSeq]);
    }
  }

  lemma AdvanceQueue(s: State)
    requires Core(s) && CanPop(s)
    ensures Numbers(Advance(s)) && multiset(Queue(s)) == multiset{s.qptr[s.headSeq]} + multiset(Queue(Advance(s)))
    ensures !Wraps(s.headSeq) ==> ListPages(Advance(s)) == ListPages(s)
    ensures Wraps(s.headSeq) ==>
              multiset(ListPages(s)) == multiset{s.chain[s.headSeq / CAP]} + multiset(ListPages(Advance(s)))
  {
    hide Core, Numbers, CanPop, Advance;
    AdvanceNumbers(s);
    AdvanceHeads(s);
    DropFirst(s.qptr, s.headSeq);
    if Wraps(s.headSeq) {
      DropFirst(s.chain, s.headSeq / CAP);
    }
  }

  lemma CoreNumbers(s: State)
    requires Core(s)
    ensures Numbers(s)
  {
  }

  lemma AdvanceHeads(s: State)
    requires Core(s) && CanPop(s)
    ensures s.headSeq < |s.qptr| && s.headSeq / CAP < |s.chain|
    ensures var s' := Advance(s); s'.qptr == s.qptr && s'.chain == s.chain && s'.headSeq == s.headSeq + 1
  {
    hide Domain, Slots, Links, TreePages, Available, Versions, SinceStart, Partition;
  }

  lemma DropFirst(q: seq<nat>, i: nat)
    requires i < |q|
    ensures multiset(q[i..]) == multiset{q[i]} + multiset(q[i + 1..])
  {
    assert q[i..] == [q[i]] + q[i + 1..];
  }

  lemma Regroup1(a: multiset<nat>, t: multiset<nat>, l: multiset<nat>, c: multiset<nat>, q: multiset<nat>, x: nat)
    ensures a + t + l + c + (multiset{x} + q) == a + (t + multiset{x}) + l + c + q
  {
  }

  lemma Regroup2(a: multiset<nat>, t: multiset<nat>, l: multiset<nat>, c: multiset<nat>, q: multiset<nat>, h: nat, x: nat)
    ensures a + t + l + (multiset{h} + c) + (multiset{x} + q) == a + (t + multiset{x}) + (l + multiset{h}) + c + q
  {
  }

  lemma AdvanceAvailable(s: State)
    requires Core(s) && CanPop(s)
    ensures Numbers(Advance(s)) && Available(Advance(s))
    ensures s.qptr[s.headSeq] != 0 && !Frozen(Advance(s), s.qptr[s.headSeq]) && s.qptr[s.headSeq] !in s.updates
  {
    hide Domain, Slots, Links, TreePages, Versions, SinceStart, Partition, Frozen;
    AdvanceNumbers(s);
    var s' := Advance(s);
    AdvanceFrozen(s);
    AdvanceWaiting(s);
    assert Waiting(s, s.headSeq);
    QueueRole(s, s.headSeq);
    AdvanceLists(s);
    forall p | p in s'.taken ensures !Frozen(s', p) {
      if p in s.taken {
        assert !Frozen(s, p);
        TakenNotHead(s, p);
      }
    }
  }

  lemma TakenNotHead(s: State, p: nat)
    requires Core(s) && p in s.taken
    ensures s.headSeq / CAP < |s.chain| && p != s.chain[s.headSeq / CAP]
  {
    hide Domain, Slots, Links, TreePages, Versions, SinceStart, Available, Partition;
    ListPageRole(s, s.headSeq / CAP);
  }

  /** Only the head page that is emptied becomes frozen. */
  lemma AdvanceFrozen(s: State)
    requires Core(s) && CanPop(s)
    ensures s.headSeq / CAP < |s.chain|
    ensures forall p :: Frozen(Advance(s), p) ==> Frozen(s, p) || (Wraps(s.headSeq) && p == s.chain[s.headSeq / CAP])
    ensures forall p :: p in s.retired ==> p in Advance(s).retired
  {
    hide Domain, Slots, Links, TreePages, Versions, SinceStart, Available, Partition;
  }

  lemma AdvanceWaiting(s: State)
    requires Core(s) && CanPop(s)
    ensures Numbers(Advance(s))
    ensures forall i :: Advance(s).headSeq <= i < Advance(s).maxSeq ==> Waiting(Advance(s), i)
    ensures s.headSeq / CAP < |s.chain| && s.qptr[s.headSeq] != s.chain[s.headSeq / CAP]
  {
    hide Domain, Slots, Links, TreePages, Versions, SinceStart, Partition, Frozen;
    AdvanceNumbers(s);
    AdvanceFrozen(s);
    ListPageRole(s, s.headSeq / CAP);
    QueueRole(s, s.headSeq);
    assert s.chain[s.headSeq / CAP] == ListPages(s)[0];
    forall i | Advance(s).headSeq <= i < Advance(s).maxSeq ensures Waiting(Advance(s), i) {
      assert Waiting(s, i);
      QueueRole(s, i);
    }
  }

  lemma AdvanceLists(s: State)
    requires Core(s) && CanPop(s)
    ensures Numbers(Advance(s))
    ensures forall b :: Advance(s).headSeq / CAP <= b < |Advance(s).chain| ==> !Frozen(Advance(s), Advance(s).chain[b])
    ensures forall b :: s.start.headSeq / CAP <= b < Advance(s).headSeq / CAP ==> s.chain[b] in Advance(s).retired
    ensures forall p :: p in Advance(s).retired ==> p < End(Advance(s))
  {
    hide Domain, Slots, Links, TreePages, Versions, SinceStart, Partition, Frozen;
    AdvanceNumbers(s);
    AdvanceFrozen(s);
    ListPageRole(s, s.headSeq / CAP);
    forall b | Advance(s).headSeq / CAP <= b < |Advance(s).chain| ensures !Frozen(Advance(s), Advance(s).chain[b]) {
      assert !Frozen(s, s.chain[b]);
    }
  }

  // ---- writing one page ----

  lemma WriteOne(s: State, s': State, x: nat, pg: Page)
    requires s'.file == s.file && s'.flushed == s.flushed && s'.updates == s.updates[x := pg]
    ensures Current(s', x) == pg
    ensures forall p :: p != x ==> Current(s', p) == Current(s, p)
  {
  }

  /** The tail page is the only list page of its number, and no tree page. */
  lemma TailAlone(s: State)
    requires Core(s)
    ensures 1 <= s.tailPage < End(s) && !Frozen(s, s.tailPage)
    ensures forall b :: s.start.headSeq / CAP <= b < |s.chain| - 1 ==> s.chain[b] != s.tailPage
    ensures forall i :: s.headSeq <= i < s.tailSeq ==> s.qptr[i] != s.tailPage
    ensures s.tailPage !in s.taken
  {
    hide Domain, Slots, Links, TreePages, Versions, SinceStart, Partition;
    var last := |s.chain| - 1;
    LastBlock(s);
    ListPageRole(s, last);
    assert s.tailPage == s.chain[last];
    forall i | s.headSeq <= i < s.tailSeq ensures s.qptr[i] != s.tailPage {
      assert Queue(s)[i - s.headSeq] == s.qptr[i];
    }
  }

  lemma LastBlock(s: State)
    requires Numbers(s)
    ensures s.headSeq / CAP < |s.chain|
  {
  }

  // ---- Record: put a page into the tail slot ----

  ghost predicate Attached(s: State) {
    |s.chain| == s.tailSeq / CAP + 1
  }

  ghost function TailWith(s: State, p: nat): Page {
    var pg := AsList(Current(s, s.tailPage));
    ListPage(pg.next, pg.items[s.tailSeq % CAP := Item(p, s.curVer)])
  }

  ghost function Record(s: State, p: nat): State {
    s.(updates := s.updates[s.tailPage := TailWith(s, p)], qptr := s.qptr + [p], qver := s.qver + [s.curVer],
    tailSeq := s.tailSeq + 1, loose := s.loose - multiset{p})
  }

  lemma RecordKeeps(s: State, p: nat)
    requires Core(s) && Attached(s) && p in s.loose
    ensures Core(Record(s, p))
  {
    hide Domain, Slots, Links, TreePages, Available, Versions, SinceStart, Partition;
    RecordNumbers(s, p);
    RecordContent(s, p);
    RecordSlots(s, p);
    RecordPartition(s, p);
    RecordAvailable(s, p);
    RecordVersions(s, p);
  }

  lemma RecordNumbers(s: State, p: nat)
    requires Core(s) && Attached(s)
    ensures Numbers(Record(s, p))
  {
    hide Domain, Slots, Links, Partition, TreePages, Available, Versions, SinceStart;
  }

  lemma RecordContent(s: State, p: nat)
    requires Core(s) && Attached(s)
    ensures Domain(Record(s, p)) && Links(Record(s, p)) && TreePages(Record(s, p))
  {
    hide Partition, Available, Versions, SinceStart, Slots;
    var s' := Record(s, p);
    TailAlone(s);
    WriteOne(s, s', s.tailPage, TailWith(s, p));
    hide Numbers, Current;
  }

  lemma RecordSlots(s: State, p: nat)
    requires Core(s) && Attached(s)
    ensures Numbers(Record(s, p)) && Slots(Record(s, p))
  {
    hide Partition, Available, Versions, SinceStart, Domain, TreePages, Links;
    var s' := Record(s, p);
    RecordNumbers(s, p);
    TailAlone(s);
    WriteOne(s, s', s.tailPage, TailWith(s, p));
    forall i | s'.start.headSeq <= i < s'.tailSeq ensures SlotHolds(s', i) {
      RecordSlot(s, p, i);
    }
  }

  lemma RecordSlot(s: State, p: nat, i: nat)
    requires Core(s) && Attached(s) && s.start.headSeq <= i <= s.tailSeq
    ensures Numbers(Record(s, p)) && SlotHolds(Record(s, p), i)
  {
    hide Partition, Available, Versions, SinceStart, Domain, TreePages, Links;
    var s' := Record(s, p);
    RecordNumbers(s, p);
    TailAlone(s);
    WriteOne(s, s', s.tailPage, TailWith(s, p));
    hide Current;
    if i < s.tailSeq {
      assert SlotHolds(s, i);
      if i / CAP == |s.chain| - 1 {
        assert i % CAP != s.tailSeq % CAP;
      }
    }
  }

  lemma RecordPartition(s: State, p: nat)
    requires Core(s) && Attached(s) && p in s.loose
    ensures Numbers(Record(s, p)) && Partition(Record(s, p))
  {
    hide Domain, Slots, Links, TreePages, Available, Versions, SinceStart, AllPages, TailWith;
    var s' := Record(s, p);
    RecordNumbers(s, p);
    assert Queue(s') == Queue(s) + [p];
    assert ListPages(s') == ListPages(s) && End(s') == End(s);
    hide Numbers, Queue, ListPages;
    Regroup3(s.inUse + s.taken, s.loose, multiset(ListPages(s)), multiset(Queue(s)), p);
  }

  lemma Regroup3(a: multiset<nat>, l: multiset<nat>, c: multiset<nat>, q: multiset<nat>, x: nat)
    requires x in l
    ensures a + (l - multiset{x}) + c + (q + multiset{x}) == a + l + c + q
  {
  }

  lemma RecordAvailable(s: State, p: nat)
    requires Core(s) && Attached(s)
    ensures Numbers(Record(s, p)) && Available(Record(s, p))
  {
    hide Domain, Slots, Links, TreePages, Versions, SinceStart, Partition, TailWith;
    var s' := Record(s, p);
    RecordNumbers(s, p);
    TailAlone(s);
    forall i | s'.headSeq <= i < s'.maxSeq ensures Waiting(s', i) {
      assert Waiting(s, i);
    }
    forall b | s'.headSeq / CAP <= b < |s'.chain| ensures !Frozen(s', s'.chain[b]) {
      assert !Frozen(s, s.chain[b]);
    }
    forall q | q in s'.taken ensures !Frozen(s', q) {
      assert !Frozen(s, q);
    }
  }

  lemma RecordVersions(s: State, p: nat)
    requires Core(s) && Attached(s)
    ensures Numbers(Record(s, p)) && Versions(Record(s, p)) && SinceStart(Record(s, p))
  {
    hide Domain, Slots, Links, TreePages, Available, Partition, TailWith;
    var s' := Record(s, p);
    RecordNumbers(s, p);
    assert s'.qptr[..s.maxSeq] == s.qptr[..s.maxSeq];
    assert s'.qver[..s.maxSeq] == s.qver[..s.maxSeq];
  }

  // ---- Link: attach a page behind the full tail page ----

  ghost function TailLinked(s: State, next: nat): Page {
    ListPage(next, AsList(Current(s, s.tailPage)).items)
  }

  ghost function Link(s: State, next: nat): State {
    s.(updates := s.updates[s.tailPage := TailLinked(s, next)], chain := s.chain + [next], tailPage := next,
    taken := s.taken - multiset{next})
  }

  lemma LinkKeeps(s: State, next: nat)
    requires Core(s) && Detached(s) && next in s.taken
    ensures Core(Link(s, next))
  {
    hide Domain, Slots, Links, TreePages, Available, Versions, SinceStart, Partition;
    LinkNumbers(s, next);
    LinkContent(s, next);
    LinkSlots(s, next);
    LinkPartition(s, next);
    LinkAvailable(s, next);
    LinkVersions(s, next);
  }

  lemma LinkNumbers(s: State, next: nat)
    requires Core(s) && Detached(s)
    ensures Numbers(Link(s, next)) && s.headSeq / CAP < |s.chain|
  {
    hide Domain, Slots, Links, Partition, TreePages, Available, Versions, SinceStart;
    LastBlock(s);
  }

  lemma LinkContent(s: State, next: nat)
    requires Core(s) && Detached(s) && next in s.taken
    ensures Domain(Link(s, next)) && Links(Link(s, next)) && TreePages(Link(s, next))
  {
    hide Core, Domain, Links, TreePages, Link;
    LinkDomain(s, next);
    LinkLinks(s, next);
    LinkTree(s, next);
  }

  lemma LinkDomain(s: State, next: nat)
    requires Core(s) && Detached(s) && next in s.taken
    ensures Domain(Link(s, next))
  {
    hide Available, Versions, SinceStart, Slots, Links, TreePages;
    TailAlone(s);
    Roles(s, next);
    hide Partition;
  }

  lemma LinkLinks(s: State, next: nat)
    requires Core(s) && Detached(s) && next in s.taken
    ensures Links(Link(s, next))
  {
    hide Available, Versions, SinceStart, Slots, TreePages, Domain;
    var s' := Link(s, next);
    TailAlone(s);
    hide Partition;
    WriteOne(s, s', s.tailPage, TailLinked(s, next));
    hide Numbers, Current;
  }

  lemma LinkTree(s: State, next: nat)
    requires Core(s) && Detached(s) && next in s.taken
    ensures TreePages(Link(s, next))
  {
    hide Available, Versions, SinceStart, Slots, Links, Domain;
    var s' := Link(s, next);
    TailAlone(s);
    hide Partition;
    WriteOne(s, s', s.tailPage, TailLinked(s, next));
    hide Numbers, Current;
  }

  lemma LinkSlots(s: State, next: nat)
    requires Core(s) && Detached(s)
    ensures Numbers(Link(s, next)) && Slots(Link(s, next))
  {
    hide Partition, Available, Versions, SinceStart, Domain, TreePages, Links;
    var s' := Link(s, next);
    LinkNumbers(s, next);
    WriteOne(s, s', s.tailPage, TailLinked(s, next));
    hide Current;
    forall i | s'.start.headSeq <= i < s'.tailSeq ensures SlotHolds(s', i) {
      assert SlotHolds(s, i);
    }
  }

  lemma LinkPartition(s: State, next: nat)
    requires Core(s) && Detached(s) && next in s.taken
    ensures Numbers(Link(s, next)) && Partition(Link(s, next))
  {
    hide Domain, Slots, Links, TreePages, Available, Versions, SinceStart, AllPages, TailLinked;
    var s' := Link(s, next);
    LinkNumbers(s, next);
    assert ListPages(s') == ListPages(s) + [next];
    assert Queue(s') == Queue(s) && End(s') == End(s);
    hide Numbers, Queue, ListPages;
    Regroup4(s.inUse, s.taken, s.loose, multiset(ListPages(s)), multiset(Queue(s)), next);
  }

  lemma Regroup4(a: multiset<nat>, t: multiset<nat>, l: multiset<nat>, c: multiset<nat>, q: multiset<nat>, x: nat)
    requires x in t
    ensures a + (t - multiset{x}) + l + (c + multiset{x}) + q == a + t + l + c + q
  {
  }

  lemma LinkAvailable(s: State, next: nat)
    requires Core(s) && Detached(s) && next in s.taken
    ensures Numbers(Link(s, next)) && Available(Link(s, next))
  {
    hide Domain, Slots, Links, TreePages, Versions, SinceStart, Partition, TailLinked;
    var s' := Link(s, next);
    LinkNumbers(s, next);
    TailAlone(s);
    assert !Frozen(s, next);
    forall i | s'.headSeq <= i < s'.maxSeq ensures Waiting(s', i) {
      assert Waiting(s, i);
    }
    forall b | s'.headSeq / CAP <= b < |s'.chain| ensures !Frozen(s', s'.chain[b]) {
      if b < |s.chain| { assert !Frozen(s, s.chain[b]); }
    }
    forall q | q in s'.taken ensures !Frozen(s', q) {
      assert !Frozen(s, q);
    }
  }

  lemma LinkVersions(s: State, next: nat)
    requires Core(s) && Detached(s)
    ensures Numbers(Link(s, next)) && Versions(Link(s, next)) && SinceStart(Link(s, next))
  {
    hide Domain, Slots, Links, TreePages, Available, Partition, TailLinked;
    var s' := Link(s, next);
    LinkNumbers(s, next);
    assert s'.chain[..|s.start.chain|] == s.chain[..|s.start.chain|];
  }

  // ---- Append: a new page behind the end of the file ----

  ghost function Append(s: State, pg: Page): State {
    s.(updates := s.updates[End(s) := pg], nappend := s.nappend + 1, taken := s.taken + multiset{End(s)})
  }

  lemma AppendKeeps(s: State, pg: Page)
    requires Core(s)
    ensures Core(Append(s, pg)) && End(s) !in s.updates && !Frozen(s, End(s))
  {
    hide Slots, Links, TreePages, Available, Versions, SinceStart, Partition;
    assert End(s) !in s.updates;
    hide Domain;
    AppendContent(s, pg);
    AppendPartition(s, pg);
    AppendAvailable(s, pg);
  }

  lemma AppendContent(s: State, pg: Page)
    requires Core(s)
    ensures Domain(Append(s, pg)) && Links(Append(s, pg)) && TreePages(Append(s, pg))
    ensures Numbers(Append(s, pg)) && Slots(Append(s, pg)) && Versions(Append(s, pg)) && SinceStart(Append(s, pg))
  {
    AppendNumbers(s, pg);
    hide Core, Domain, Links, TreePages, Numbers, Slots, Versions, SinceStart, Append;
    AppendLinks(s, pg);
    AppendTree(s, pg);
    AppendSlots(s, pg);
  }

  lemma AppendNumbers(s: State, pg: Page)
    requires Core(s)
    ensures Numbers(Append(s, pg)) && Versions(Append(s, pg)) && SinceStart(Append(s, pg)) && Domain(Append(s, pg))
  {
    hide Partition, Available, Links, TreePages, Slots;
  }

  lemma AppendLinks(s: State, pg: Page)
    requires Core(s)
    ensures Links(Append(s, pg))
  {
    hide Partition, Available, TreePages, Slots, Versions, SinceStart, Numbers;
    WriteOne(s, Append(s, pg), End(s), pg);
    hide Current;
  }

  lemma AppendTree(s: State, pg: Page)
    requires Core(s)
    ensures TreePages(Append(s, pg))
  {
    hide Partition, Available, Links, Slots, Versions, SinceStart, Numbers, Domain;
    WriteOne(s, Append(s, pg), End(s), pg);
    hide Current;
  }

  lemma AppendSlots(s: State, pg: Page)
    requires Core(s)
    ensures Numbers(Append(s, pg)) && Slots(Append(s, pg))
  {
    hide Partition, Available, Links, TreePages, Versions, SinceStart;
    var s' := Append(s, pg);
    assert Numbers(s');
    hide Numbers;
    WriteOne(s, s', End(s), pg);
    hide Current;
    forall i | s'.start.headSeq <= i < s'.tailSeq ensures SlotHolds(s', i) {
      assert SlotHolds(s, i);
      BlockOf(s, i);
    }
  }

  lemma BlockOf(s: State, i: nat)
    requires Numbers(s) && Domain(s) && s.start.headSeq <= i < s.tailSeq
    ensures s.start.headSeq / CAP <= i / CAP < |s.chain| && 1 <= s.chain[i / CAP] < End(s)
  {
  }

  lemma AppendPartition(s: State, pg: Page)
    requires Core(s)
    ensures Numbers(Append(s, pg)) && Partition(Append(s, pg))
  {
    hide Domain, Slots, Links, TreePages, Available, Versions, SinceStart;
    var s' := Append(s, pg);
    assert AllPages(End(s')) == AllPages(End(s)) + {End(s)};
    assert multiset(AllPages(End(s'))) == multiset(AllPages(End(s))) + multiset{End(s)};
    assert ListPages(s') == ListPages(s) && Queue(s') == Queue(s);
    hide AllPages, ListPages, Queue;
    Regroup5(s.inUse, s.taken, s.loose, multiset(ListPages(s)), multiset(Queue(s)), End(s));
  }

  lemma Regroup5(a: multiset<nat>, t: multiset<nat>, l: multiset<nat>, c: multiset<nat>, q: multiset<nat>, x: nat)
    ensures a + (t + multiset{x}) + l + c + q == a + t + l + c + q + multiset{x}
  {
  }

  lemma AppendAvailable(s: State, pg: Page)
    requires Core(s)
    ensures Numbers(Append(s, pg)) && Available(Append(s, pg)) && !Frozen(s, End(s))
  {
    hide Slots, Links, Versions, SinceStart;
    var s' := Append(s, pg);
    assert End(s) !in s.pages;
    hide TreePages, Domain;
    forall i | s'.headSeq <= i < s'.maxSeq ensures Waiting(s', i) {
      assert Waiting(s, i);
      QueueRole(s, i);
    }
    hide Partition;
    forall b | s'.headSeq / CAP <= b < |s'.chain| ensures !Frozen(s', s'.chain[b]) {
      assert !Frozen(s, s.chain[b]);
    }
    forall q | q in s'.taken ensures !Frozen(s', q) {
      if q in s.taken { assert !Frozen(s, q); }
    }
  }

  // ---- Give: a page from the free list becomes a tree page ----

  ghost function Give(s: State, p: nat, node: Node): State {
    s.(updates := s.updates[p := TreePage(node)], pages := s.pages[p := node],
    inUse := s.inUse + multiset{p}, taken := s.taken - multiset{p})
  }

  lemma GiveKeeps(s: State, p: nat, node: Node)
    requires Core(s) && p in s.taken
    ensures Core(Give(s, p, node)) && p !in s.pages
  {
    hide Domain, Slots, Links, TreePages, Versions, SinceStart, Partition;
    assert !Frozen(s, p);
    hide Available;
    GiveContent(s, p, node);
    GiveSlots(s, p, node);
    GivePartition(s, p, node);
    GiveAvailable(s, p, node);
  }

  /** A page on its way out of the free list is neither a list page nor queued. */
  lemma TakenAlone(s: State, p: nat)
    requires Core(s) && p in s.taken
    ensures 1 <= p < End(s) && !Frozen(s, p)
    ensures forall b :: s.start.headSeq / CAP <= b < |s.chain| ==> s.chain[b] != p
    ensures forall i :: s.headSeq <= i < s.tailSeq ==> s.qptr[i] != p
  {
    hide Domain, Slots, Links, TreePages, Versions, SinceStart;
    Roles(s, p);
    hide Partition;
    forall b | s.start.headSeq / CAP <= b < |s.chain| ensures s.chain[b] != p {
      if b >= s.headSeq / CAP {
        assert s.chain[b] == ListPages(s)[b - s.headSeq / CAP];
      }
    }
    forall i | s.headSeq <= i < s.tailSeq ensures s.qptr[i] != p {
      assert s.qptr[i] == Queue(s)[i - s.headSeq];
    }
  }

  lemma GiveContent(s: State, p: nat, node: Node)
    requires Core(s) && p in s.taken
    ensures Domain(Give(s, p, node)) && Links(Give(s, p, node)) && TreePages(Give(s, p, node))
  {
    hide Core, Domain, Links, TreePages, Give;
    GiveDomain(s, p, node);
    GiveLinks(s, p, node);
    GiveTree(s, p, node);
  }

  lemma GiveDomain(s: State, p: nat, node: Node)
    requires Core(s) && p in s.taken
    ensures Domain(Give(s, p, node))
  {
    hide Partition, Available, Versions, SinceStart, Slots, Numbers, Links, TreePages;
    TakenAlone(s, p);
  }

  lemma GiveLinks(s: State, p: nat, node: Node)
    requires Core(s) && p in s.taken
    ensures Links(Give(s, p, node))
  {
    hide Partition, Available, Versions, SinceStart, Slots, Numbers, TreePages, Domain;
    TakenAlone(s, p);
    WriteOne(s, Give(s, p, node), p, TreePage(node));
    hide Current;
  }

  lemma GiveTree(s: State, p: nat, node: Node)
    requires Core(s) && p in s.taken
    ensures TreePages(Give(s, p, node))
  {
    hide Partition, Available, Versions, SinceStart, Slots, Numbers, Links, Domain;
    TakenAlone(s, p);
    WriteOne(s, Give(s, p, node), p, TreePage(node));
    hide Current;
  }

  lemma GiveSlots(s: State, p: nat, node: Node)
    requires Core(s) && p in s.taken
    ensures Numbers(Give(s, p, node)) && Slots(Give(s, p, node))
    ensures Versions(Give(s, p, node)) && SinceStart(Give(s, p, node))
  {
    hide Partition, Available, Links, TreePages;
    var s' := Give(s, p, node);
    TakenAlone(s, p);
    WriteOne(s, s', p, TreePage(node));
    assert Numbers(s');
    hide Current, Numbers;
    forall i | s'.start.headSeq <= i < s'.tailSeq ensures SlotHolds(s', i) {
      assert SlotHolds(s, i);
      BlockOf(s, i);
    }
  }

  lemma GivePartition(s: State, p: nat, node: Node)
    requires Core(s) && p in s.taken
    ensures Numbers(Give(s, p, node)) && Partition(Give(s, p, node))
  {
    hide Domain, Slots, Links, TreePages, Available, Versions, SinceStart, AllPages;
    var s' := Give(s, p, node);
    assert ListPages(s') == ListPages(s) && Queue(s') == Queue(s) && End(s') == End(s);
    hide Numbers, Queue, ListPages;
    Regroup6(s.inUse, s.taken, s.loose + multiset(ListPages(s)) + multiset(Queue(s)), p);
  }

  lemma Regroup6(a: multiset<nat>, t: multiset<nat>, rest: multiset<nat>, x: nat)
    requires x in t
    ensures (a + multiset{x}) + (t - multiset{x}) + rest == a + t + rest
  {
  }

  lemma GiveAvailable(s: State, p: nat, node: Node)
    requires Core(s) && p in s.taken
    ensures Numbers(Give(s, p, node)) && Available(Give(s, p, node))
  {
    hide Domain, Slots, Links, TreePages, Versions, SinceStart;
    var s' := Give(s, p, node);
    TakenAlone(s, p);
    Roles(s, p);
    hide Partition;
    forall i | s'.headSeq <= i < s'.maxSeq ensures Waiting(s', i) {
      assert Waiting(s, i);
    }
    forall b | s'.headSeq / CAP <= b < |s'.chain| ensures !Frozen(s', s'.chain[b]) {
      assert !Frozen(s, s.chain[b]);
    }
    forall q | q in s'.taken ensures !Frozen(s', q) {
      assert !Frozen(s, q);
    }
  }

  // ---- Take: a tree page is released ----

  ghost function Take(s: State, p: nat): State {
    s.(inUse := s.inUse - multiset{p}, loose := s.loose + multiset{p})
  }

  lemma TakeKeeps(s: State, p: nat)
    requires Core(s) && p in s.inUse
    ensures Core(Take(s, p))
  {
    hide Domain, Slots, Links, Versions, SinceStart, Available, Partition;
    var s' := Take(s, p);
    assert TreePages(s');
    hide TreePages;
    ContentKept(s, s');
    TakePartition(s, p);
    assert Available(s') by { TakeAvailable(s, p); }
  }

  lemma TakePartition(s: State, p: nat)
    requires Core(s) && p in s.inUse
    ensures Numbers(Take(s, p)) && Partition(Take(s, p))
  {
    hide Domain, Slots, Links, TreePages, Available, Versions, SinceStart, AllPages;
    var s' := Take(s, p);
    assert ListPages(s') == ListPages(s) && Queue(s') == Queue(s) && End(s') == End(s);
    hide Numbers, Queue, ListPages;
    Regroup7(s.inUse, s.taken, s.loose, multiset(ListPages(s)), multiset(Queue(s)), p);
  }

  lemma Regroup7(a: multiset<nat>, t: multiset<nat>, l: multiset<nat>, c: multiset<nat>, q: multiset<nat>, x: nat)
    requires x in a
    ensures (a - multiset{x}) + t + (l + multiset{x}) + c + q == a + t + l + c + q
  {
  }

  lemma TakeAvailable(s: State, p: nat)
    requires Core(s)
    ensures Numbers(Take(s, p)) && Available(Take(s, p))
  {
    hide Domain, Slots, Links, TreePages, Versions, SinceStart, Partition;
    var s' := Take(s, p);
    forall i | s'.headSeq <= i < s'.maxSeq ensures Waiting(s', i) {
      assert Waiting(s, i);
    }
    forall b | s'.headSeq / CAP <= b < |s'.chain| ensures !Frozen(s', s'.chain[b]) {
      assert !Frozen(s, s.chain[b]);
    }
    forall q | q in s'.taken ensures !Frozen(s', q) {
      assert !Frozen(s, q);
    }
  }

  // ---- what a push does as a whole ----

  /** The tree pages, and the pages on their way out, are not touched by the free list. */
  ghost predicate Untouched(s: State, s': State) {
    && s'.pages == s.pages && s'.inUse == s.inUse && s'.taken == s.taken && s'.start == s.start
    && (forall p :: p in s.taken && p in s'.updates ==> p in s.updates)
  }

  /** A new list page, if one is needed, comes from the head of the queue; the file only grows if the head is blocked. */
  ghost predicate Recycled(s: State, s': State, need: bool)
    requires Numbers(s)
  {
    if !need then s'.headSeq == s.headSeq && s'.nappend == s.nappend
    else if CanPop(s) then s'.headSeq == s.headSeq + 1 && s'.nappend == s.nappend
    else s'.headSeq == s.headSeq && s'.nappend == s.nappend + 1
  }

  /** `ptr` joins the queue behind everything queued before, and at most one emptied list page joins behind it. */
  ghost predicate Pushed(s: State, s': State, ptr: nat) {
    && Numbers(s) && Recycled(s, s', (s.tailSeq + 1) % CAP == 0)
    && Untouched(s, s') && ptr in s.loose && s'.loose == s.loose - multiset{ptr}
    && s.headSeq <= s'.headSeq <= s.headSeq + 1
    && (s'.qptr == s.qptr + [ptr] ||
        (Wraps(s.headSeq) && s'.headSeq == s.headSeq + 1 && s'.qptr == s.qptr + [ptr, s.headPage]))
  }

  ghost predicate Extended(s: State, s': State) {
    && Numbers(s) && Recycled(s, s', true)
    && Untouched(s, s') && s'.loose == s.loose
    && s.headSeq <= s'.headSeq <= s.headSeq + 1
    && (s'.qptr == s.qptr ||
        (Wraps(s.headSeq) && s'.headSeq == s.headSeq + 1 && s'.qptr == s.qptr + [s.headPage]))
  }

  lemma RecordPushed(s: State, ptr: nat)
    requires Core(s) && Attached(s) && ptr in s.loose
    ensures Record(s, ptr).tailSeq == s.tailSeq + 1
    ensures Record(s, ptr).tailSeq % CAP != 0 ==> Pushed(s, Record(s, ptr), ptr)
    ensures Record(s, ptr).tailSeq % CAP != 0 ==> Attached(Record(s, ptr))
    ensures Record(s, ptr).tailSeq % CAP == 0 ==> Detached(Record(s, ptr))
  {
    TailAlone(s);
  }

  lemma PushedExtended(s: State, ptr: nat, s': State)
    requires ptr in s.loose && Numbers(s) && Extended(Record(s, ptr), s') && s.tailPage !in s.taken
    requires (s.tailSeq + 1) % CAP == 0
    ensures Pushed(s, s', ptr)
  {
    hide TailWith;
    assert s.qptr + [ptr] + [s.headPage] == s.qptr + [ptr, s.headPage];
  }

  /** The tail page that comes from the head of the list, linked. */
  lemma HeadLinked(s: State)
    requires Core(s) && Detached(s) && CanPop(s)
    ensures s.headSeq < |s.qptr| && s.qptr[s.headSeq] in Advance(s).taken && Detached(Advance(s)) && Core(Advance(s))
    ensures var s' := Link(Advance(s), s.qptr[s.headSeq]);
            && Untouched(s, s') && Recycled(s, s', true) && s'.qptr == s.qptr && Attached(s') && Core(s')
            && s'.loose == (if Wraps(s.headSeq) then s.loose + multiset{s.headPage} else s.loose)
            && forall q :: Attached(Record(s', q))
  {
    hide Core, Numbers, Advance, TailWith, TailLinked, CanPop, Attached, Detached, Wraps;
    CoreNumbers(s);
    AdvanceHeads(s);
    AdvanceDetached(s);
    AdvanceKeeps(s);
    var next := s.qptr[s.headSeq];
    Linked(Advance(s), next);
    LinkKeeps(Advance(s), next);
    assert (s.taken + multiset{next}) - multiset{next} == s.taken;
  }

  /** The new tail page comes from the head of the list ... */
  lemma ExtendFromHead(s: State)
    requires Core(s) && Detached(s) && CanPop(s)
    ensures s.qptr[s.headSeq] in Advance(s).taken && Detached(Advance(s))
    ensures var s' := Link(Advance(s), s.qptr[s.headSeq]);
            if Wraps(s.headSeq) then
              s.headPage in s'.loose && Attached(s') && Attached(Record(s', s.headPage)) && Extended(s, Record(s', s.headPage))
            else Attached(s') && Extended(s, s')
  {
    hide Core, Numbers, Advance, Link, TailWith, CanPop, Attached, Detached, Wraps;
    CoreNumbers(s);
    HeadLinked(s);
    var s' := Link(Advance(s), s.qptr[s.headSeq]);
    if Wraps(s.headSeq) {
      TailAlone(s');
      assert (s.loose + multiset{s.headPage}) - multiset{s.headPage} == s.loose;
    }
  }

  lemma AdvanceDetached(s: State)
    requires Core(s) && Detached(s) && CanPop(s)
    ensures var s' := Advance(s);
            && s.qptr[s.headSeq] in s'.taken && Detached(s')
            && s'.pages == s.pages && s'.inUse == s.inUse && s'.start == s.start && s'.updates == s.updates
            && s'.taken == s.taken + multiset{s.qptr[s.headSeq]}
            && s'.qptr == s.qptr && s'.headSeq == s.headSeq + 1 && s'.nappend == s.nappend
            && s'.loose == if Wraps(s.headSeq) then s.loose + multiset{s.headPage} else s.loose
  {
    hide Domain, Slots, Links, Partition, Available, TreePages, Versions, SinceStart;
  }

  lemma Linked(s: State, next: nat)
    requires Core(s) && Detached(s)
    ensures var s' := Link(s, next);
            && s'.pages == s.pages && s'.inUse == s.inUse && s'.start == s.start
            && s'.taken == s.taken - multiset{next}
            && (forall p :: p in s.taken && p in s'.updates ==> p in s.updates)
            && s'.qptr == s.qptr && s'.headSeq == s.headSeq && s'.loose == s.loose && s'.nappend == s.nappend
            && Attached(s') && forall q :: Attached(Record(s', q))
  {
    TailAlone(s);
    hide Core, Numbers;
    assert CAP * (s.tailSeq / CAP) == s.tailSeq;
    assert (s.tailSeq + 1) / CAP == s.tailSeq / CAP;
  }

  /** ... or from the end of the file. */
  lemma ExtendFromEnd(s: State)
    requires Core(s) && Detached(s) && !CanPop(s)
    ensures End(s) in Append(s, ZERO).taken && Detached(Append(s, ZERO))
    ensures Extended(s, Link(Append(s, ZERO), End(s))) && Attached(Link(Append(s, ZERO), End(s)))
  {
    TailAlone(s);
    Roles(s, End(s));
    hide Domain, Slots, Links, Partition, Available, TreePages, Versions, SinceStart, TailLinked;
    assert Link(Append(s, ZERO), End(s)).taken == s.taken;
  }
}
