/** What happens to the page store at the edges of a commit. */
module Epochs {
  import opened Nodes
  import opened PageState
  import opened PageSteps

  /** Nothing is pending: the state between two commits. */
  ghost predicate Idle(s: State) {
    && Core(s) && Attached(s)
    && s.updates == map[] && s.nappend == 0 && s.taken == multiset{} && s.loose == multiset{}
    && s.maxSeq == s.tailSeq && s.retired == {}
    && s.start.headSeq == s.headSeq && s.start.base == s.pages.Keys
  }

  ghost function NewState(): State {
    Whole(map[1 := ZERO], PageInfo(2, 0, map[]), FreeList(1, 0, 1, 0, 0, 0, 0), NewLedger())
  }

  /** A new file is idle. */
  lemma NewIdle()
    ensures Idle(NewState())
  {
    NewNumbers();
    hide Domain, Slots, Links, TreePages, Available, Versions, SinceStart, Partition, Numbers;
    NewContent();
    NewRoles();
  }

  lemma NewNumbers()
    ensures Numbers(NewState()) && Attached(NewState()) && SinceStart(NewState())
  {
    assert 0 / CAP == 0;
  }

  lemma NewContent()
    ensures var s := NewState(); Numbers(s) && Domain(s) && Slots(s) && Links(s) && TreePages(s) && Versions(s) && Available(s)
  {
    NewNumbers();
    hide Numbers, Current;
  }

  lemma NewRoles()
    ensures Numbers(NewState()) && Partition(NewState())
  {
    NewNumbers();
    hide Numbers;
    assert AllPages(2) == {1};
    assert ListPages(NewState()) == [1] && Queue(NewState()) == [];
  }

  /** The working state of a commit that began in the idle state `s0`. */
  ghost predicate Working(s0: State, s: State) {
    && Idle(s0) && Core(s) && Attached(s) && s.taken == multiset{} && s.loose == multiset{}
    && s.start == s0.start
  }

  ghost function SetVer(s: State, v: nat): State {
    s.(curVer := v, start := s.start.(curVer := v))
  }

  lemma SetVerKeeps(s: State, v: nat)
    requires Idle(s)
    requires forall i :: s.headSeq <= i < s.tailSeq ==> s.qver[i] <= v
    ensures Idle(SetVer(s, v))
  {
    hide Domain, Slots, Links, TreePages, Available, Versions, SinceStart, Partition;
    var s' := SetVer(s, v);
    SetVerContent(s, v);
    SamePartition(s, s');
    SetVerAvailable(s, v);
  }

  lemma SetVerContent(s: State, v: nat)
    requires Idle(s)
    requires forall i :: s.headSeq <= i < s.tailSeq ==> s.qver[i] <= v
    ensures var s' := SetVer(s, v);
            Numbers(s') && Domain(s') && Slots(s') && Links(s') && TreePages(s') && Versions(s') && SinceStart(s')
  {
    hide Partition, Available;
    var s' := SetVer(s, v);
    assert forall p :: Current(s', p) == Current(s, p);
    assert Numbers(s');
    hide Current, Numbers;
    forall i | s'.start.headSeq <= i < s'.tailSeq ensures SlotHolds(s', i) {
      assert SlotHolds(s, i);
    }
  }

  lemma SetVerAvailable(s: State, v: nat)
    requires Idle(s)
    ensures Numbers(SetVer(s, v)) && Available(SetVer(s, v))
  {
    hide Slots, Links, TreePages, Versions, SinceStart, Partition, Domain;
    var s' := SetVer(s, v);
    forall i | s'.headSeq <= i < s'.maxSeq ensures Waiting(s', i) {
      assert Waiting(s, i);
    }
    forall b | s'.headSeq / CAP <= b < |s'.chain| ensures !Frozen(s', s'.chain[b]) {
      assert !Frozen(s, s.chain[b]);
    }
  }

  lemma SamePartition(s: State, s': State)
    requires Numbers(s) && Partition(s) && Numbers(s')
    requires s'.inUse == s.inUse && s'.taken == s.taken && s'.loose == s.loose && s'.chain == s.chain && s'.qptr == s.qptr
    requires s'.headSeq == s.headSeq && End(s') == End(s)
    ensures Partition(s')
  {
  }

  // ---- a successful write of the pages ----

  ghost function Flush(s: State): State {
    var file := s.file + s.updates;
    s.(file := file, updates := map[], flushed := End(s), nappend := 0, retired := {},
    start := Start(file, End(s), s.headSeq, s.maxSeq, s.maxVer, s.curVer,
                   s.chain[..if s.maxSeq / CAP < |s.chain| then s.maxSeq / CAP + 1 else 0],
                   s.qptr[..if s.maxSeq <= |s.qptr| then s.maxSeq else 0],
                   s.qver[..if s.maxSeq <= |s.qver| then s.maxSeq else 0], s.pages.Keys))
  }

  lemma FlushReads(s: State, p: nat)
    requires End(s) >= 3
    ensures Current(Flush(s), p) == Current(s, p) || (Current(s, p) == ZERO && Unwritten(s, p))
  {
  }

  lemma FlushKeeps(s: State)
    requires Core(s) && End(s) >= 3
    ensures Core(Flush(s))
  {
    hide Domain, Slots, Links, TreePages, Available, Versions, SinceStart, Partition;
    FlushNumbers(s);
    FlushContent(s);
    FlushSlots(s);
    FlushAvailable(s);
    SamePartition(s, Flush(s));
  }

  lemma FlushNumbers(s: State)
    requires Core(s)
    ensures Numbers(Flush(s)) && SinceStart(Flush(s)) && Versions(Flush(s))
  {
    hide Domain, Slots, Links, TreePages, Available, Partition;
  }

  lemma FlushContent(s: State)
    requires Core(s) && End(s) >= 3
    ensures Domain(Flush(s)) && TreePages(Flush(s)) && Links(Flush(s))
  {
    hide Slots, Available, Versions, Partition, SinceStart;
    var s' := Flush(s);
    forall p ensures Current(s', p) == Current(s, p) || Current(s, p) == ZERO {
      FlushReads(s, p);
    }
    hide Current;
    forall b | s'.start.headSeq / CAP <= b < |s'.chain| - 1 ensures LinkAt(Current(s', s'.chain[b]), s'.chain[b + 1]) {
      assert LinkAt(Current(s, s.chain[b]), s.chain[b + 1]);
      assert s.chain[b + 1] >= 1;
    }
  }

  lemma FlushSlots(s: State)
    requires Core(s) && End(s) >= 3
    ensures Numbers(Flush(s)) && Slots(Flush(s))
  {
    hide Available, Versions, Partition, SinceStart, TreePages, Links, Domain;
    var s' := Flush(s);
    FlushNumbers(s);
    forall i | s'.start.headSeq <= i < s'.tailSeq ensures SlotHolds(s', i) {
      assert SlotHolds(s, i);
      FlushReads(s, s.chain[i / CAP]);
    }
  }

  lemma FlushAvailable(s: State)
    requires Core(s)
    ensures Numbers(Flush(s)) && Available(Flush(s))
  {
    hide Slots, Links, TreePages, Versions, SinceStart, Partition, Domain;
    var s' := Flush(s);
    FlushNumbers(s);
    forall i | s'.headSeq <= i < s'.maxSeq ensures Waiting(s', i) {
      assert Waiting(s, i);
    }
    forall b | s'.headSeq / CAP <= b < |s'.chain| ensures !Frozen(s', s'.chain[b]) {
      assert !Frozen(s, s.chain[b]);
    }
    forall q | q in s'.taken ensures !Frozen(s', q) {
      assert !Frozen(s, q);
    }
  }

  // ---- a failed write: back to the state before the commit, whatever reached the file ----

  /** Some of the pending writes have reached the file. */
  ghost predicate PartlyWritten(s0: State, s: State, file: map<nat, Page>) {
    && (forall p :: p in s0.file ==> p in file)
    && (forall p :: p in file ==> (p in s0.file && file[p] == s0.file[p]) || (p in s.updates && file[p] == s.updates[p]))
  }

  ghost function Revert(s0: State, file: map<nat, Page>): State {
    s0.(file := file, start := s0.start.(file := file))
  }

  lemma RevertKeeps(s0: State, s: State, file: map<nat, Page>)
    requires Working(s0, s) && PartlyWritten(s0, s, file)
    ensures Idle(Revert(s0, file))
  {
    hide Domain, Slots, Links, TreePages, Available, Versions, SinceStart, Partition;
    var s' := Revert(s0, file);
    RevertNumbers(s0, s, file);
    RevertReads(s0, s, file);
    RevertSlots(s0, s, file);
    RevertLinks(s0, s, file);
    SamePartition(s0, s');
    RevertAvailable(s0, file);
  }

  lemma RevertNumbers(s0: State, s: State, file: map<nat, Page>)
    requires Working(s0, s) && PartlyWritten(s0, s, file)
    ensures var s' := Revert(s0, file); Numbers(s') && Domain(s') && Versions(s') && SinceStart(s')
  {
    hide Slots, Links, TreePages, Available, Partition;
  }

  lemma RevertReads(s0: State, s: State, file: map<nat, Page>)
    requires Working(s0, s) && PartlyWritten(s0, s, file)
    ensures TreePages(Revert(s0, file))
  {
    hide Slots, Links, Available, Partition, Versions, Numbers;
  }

  lemma RevertSlots(s0: State, s: State, file: map<nat, Page>)
    requires Working(s0, s) && PartlyWritten(s0, s, file)
    ensures Numbers(Revert(s0, file)) && Slots(Revert(s0, file))
  {
    hide Links, TreePages, Available, Partition, Versions;
    var s' := Revert(s0, file);
    assert Numbers(s');
    forall i | s'.start.headSeq <= i < s'.tailSeq ensures SlotHolds(s', i) {
      RevertSlot(s0, s, file, i);
    }
  }

  lemma RevertSlot(s0: State, s: State, file: map<nat, Page>, i: nat)
    requires Working(s0, s) && PartlyWritten(s0, s, file) && s0.headSeq <= i < s0.tailSeq
    ensures Numbers(Revert(s0, file)) && SlotHolds(Revert(s0, file), i)
  {
    hide Links, TreePages, Available, Partition, Versions;
    SameBlock(s0, s, i);
    hide Slots, SinceStart;
    assert SlotHolds(s0, i) && SlotHolds(s, i);
  }

  /** The working state extends the item log and the page chain of the idle one. */
  lemma SameBlock(s0: State, s: State, i: nat)
    requires Working(s0, s) && s0.headSeq <= i < s0.tailSeq
    ensures i < s.tailSeq && i / CAP < |s.chain| && s.chain[i / CAP] == s0.chain[i / CAP]
    ensures s.qptr[i] == s0.qptr[i] && s.qver[i] == s0.qver[i]
    ensures SlotHolds(s0, i) && SlotHolds(s, i)
  {
    hide Links, TreePages, Available, Partition, Versions, Domain;
    assert s.chain[..|s.start.chain|][i / CAP] == s0.chain[..|s.start.chain|][i / CAP];
    assert s.qptr[..s.maxSeq][i] == s0.qptr[..s.maxSeq][i];
    assert s.qver[..s.maxSeq][i] == s0.qver[..s.maxSeq][i];
  }

  lemma RevertLinks(s0: State, s: State, file: map<nat, Page>)
    requires Working(s0, s) && PartlyWritten(s0, s, file)
    ensures Links(Revert(s0, file))
  {
    hide Slots, TreePages, Available, Partition, Versions;
    var s' := Revert(s0, file);
    forall b | s'.start.headSeq / CAP <= b < |s'.chain| - 1 ensures LinkAt(Current(s', s'.chain[b]), s'.chain[b + 1]) {
      assert s.chain[..|s.start.chain|][b] == s0.chain[..|s.start.chain|][b];
      assert s.chain[..|s.start.chain|][b + 1] == s0.chain[..|s.start.chain|][b + 1];
      assert LinkAt(Current(s0, s0.chain[b]), s0.chain[b + 1]);
      assert LinkAt(Current(s, s.chain[b]), s.chain[b + 1]);
    }
  }

  lemma RevertAvailable(s0: State, file: map<nat, Page>)
    requires Idle(s0)
    ensures Numbers(Revert(s0, file)) && Available(Revert(s0, file))
  {
    hide Slots, Links, TreePages, Versions, SinceStart, Partition, Domain;
    var s' := Revert(s0, file);
    forall i | s'.headSeq <= i < s'.maxSeq ensures Waiting(s', i) {
      assert Waiting(s0, i);
    }
    forall b | s'.headSeq / CAP <= b < |s'.chain| ensures !Frozen(s', s'.chain[b]) {
      assert !Frozen(s0, s0.chain[b]);
    }
  }

  // ---- SetMaxVer: what was freed becomes available, what is still read stays frozen ----

  ghost function Restart(s: State, keep: map<nat, Node>, maxVer: nat): State {
    s.(maxSeq := s.tailSeq, maxVer := maxVer, pages := keep, retired := {},
    start := Start(s.file, s.flushed, s.headSeq, s.tailSeq, maxVer, s.curVer, s.chain, s.qptr, s.qver, keep.Keys))
  }

  ghost predicate Keeps(s: State, keep: map<nat, Node>, maxVer: nat)
    requires Numbers(s)
  {
    && (forall p :: p in keep ==> p in s.pages && s.pages[p] == keep[p])
    && (forall p :: p in s.inUse ==> p in keep)
    && (forall i :: s.headSeq <= i < s.tailSeq && s.qptr[i] in keep ==> maxVer < s.qver[i])
  }

  lemma RestartKeeps(s: State, keep: map<nat, Node>, maxVer: nat)
    requires Core(s) && Attached(s) && s.updates == map[] && s.nappend == 0 && s.taken == multiset{} && s.loose == multiset{}
    requires Keeps(s, keep, maxVer)
    ensures Idle(Restart(s, keep, maxVer))
  {
    hide Domain, Slots, Links, TreePages, Available, Versions, SinceStart, Partition, Keeps;
    var s' := Restart(s, keep, maxVer);
    RestartNumbers(s, keep, maxVer);
    RestartContent(s, keep, maxVer);
    SamePartition(s, s');
    RestartAvailable(s, keep, maxVer);
  }

  lemma RestartNumbers(s: State, keep: map<nat, Node>, maxVer: nat)
    requires Core(s) && Attached(s)
    ensures var s' := Restart(s, keep, maxVer); Numbers(s') && SinceStart(s') && Attached(s') && Versions(s')
  {
    hide Domain, Slots, Links, TreePages, Available, Partition;
    assert s.chain[..|s.chain|] == s.chain && s.qptr[..s.tailSeq] == s.qptr && s.qver[..s.tailSeq] == s.qver;
  }

  lemma RestartContent(s: State, keep: map<nat, Node>, maxVer: nat)
    requires Core(s) && Attached(s) && s.updates == map[] && Keeps(s, keep, maxVer)
    ensures var s' := Restart(s, keep, maxVer); Numbers(s') && Domain(s') && Slots(s') && Links(s') && TreePages(s')
  {
    hide Available, Versions, Partition, SinceStart;
    var s' := Restart(s, keep, maxVer);
    RestartNumbers(s, keep, maxVer);
    assert forall p :: Current(s', p) == Current(s, p);
    hide Current, Numbers;
    forall i | s'.start.headSeq <= i < s'.tailSeq ensures SlotHolds(s', i) {
      assert SlotHolds(s, i);
    }
  }

  lemma RestartAvailable(s: State, keep: map<nat, Node>, maxVer: nat)
    requires Core(s) && Attached(s) && s.updates == map[] && s.taken == multiset{} && Keeps(s, keep, maxVer)
    ensures Numbers(Restart(s, keep, maxVer)) && Available(Restart(s, keep, maxVer))
  {
    hide Slots, Links, TreePages, Versions, SinceStart, Partition, Domain;
    var s' := Restart(s, keep, maxVer);
    RestartNumbers(s, keep, maxVer);
    forall b | s'.headSeq / CAP <= b < |s'.chain| ensures !Frozen(s', s'.chain[b]) {
      assert !Frozen(s, s.chain[b]);
    }
  }
}
