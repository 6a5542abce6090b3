/**
 * The page store behind a tree: pages in a file with copy-on-write updates and a free list, or
 * the append-only list of pages of a transaction's pending tree. The tree's three callbacks
 * (`get`, `new`, `del`) are the methods `Get`, `New` and `Del`.
 */
module PageStore {
  import opened Nodes
  import opened PageState
  import opened PageSteps
  import opened Epochs

  /** The tree pages of a file. */
  ghost function NodesIn(file: map<nat, Page>): map<nat, Node> {
    map p | p in file && file[p].TreePage? :: file[p].node
  }

  class PageStore {
    const inMemory: bool
    const base: PageStore?  // set for a snapshot: the store whose file it reads
    var mem: seq<Node>  // pages 1.. of an in-memory store

    var file: map<nat, Page>  // as read through the memory map
    var page: PageInfo
    var free: FreeList
    ghost var ledger: Ledger

    /** The pages of a transaction's pending tree. */
    constructor InMemory()
      ensures inMemory && Inv() && ledger.inUse == multiset{} && ledger.pages == map[]
    {
      inMemory, base, mem := true, null, [];
      file, page, free := map[], PageInfo(0, 0, map[]), FreeList(0, 0, 0, 0, 0, 0, 0);
      ledger := Ledger([], [], [], map[], {}, multiset{}, multiset{}, multiset{}, Start(map[], 0, 0, 0, 0, 0, [], [], [], {}));
    }

    /** The pages of a database file. */
    constructor OnFile(file: map<nat, Page>, page: PageInfo, free: FreeList, ghost ledger: Ledger)
      ensures !inMemory && base == null && this.file == file && this.page == page && this.free == free && this.ledger == ledger
    {
      inMemory, base, mem := false, null, [];
      this.file, this.page, this.free, this.ledger := file, page, free, ledger;
    }

    /** The file of another store, as a reader sees it. */
    constructor View(base: PageStore)
      ensures this.base == base && !inMemory
    {
      inMemory, this.base, mem := false, base, [];
      file, page, free := map[], PageInfo(0, 0, map[]), FreeList(0, 0, 0, 0, 0, 0, 0);
      ledger := Ledger([], [], [], map[], {}, multiset{}, multiset{}, multiset{}, Start(map[], 0, 0, 0, 0, 0, [], [], [], {}));
    }

    ghost function Abs(): State
      reads this
    {
      Whole(file, page, free, ledger)
    }

    ghost predicate MemOK()
      reads this
    {
      && (forall p :: p in ledger.pages ==> 1 <= p <= |mem| && mem[p - 1] == ledger.pages[p])
      && (forall p :: p in ledger.inUse ==> p in ledger.pages)
    }

    /** Between operations of the tree. */
    ghost predicate Inv()
      reads this
    {
      base == null &&
      if inMemory then MemOK()
      else Core(Abs()) && Attached(Abs()) && ledger.taken == multiset{} && ledger.loose == multiset{}
    }

    /** Tree pages can be read: always from a file, from other stores between operations. */
    ghost predicate Readable()
      reads this
    {
      base != null || Inv()
    }

    /** The tree pages that can be read. A snapshot never sees the pending updates of its file. */
    ghost function Nodes(): map<nat, Node>
      reads this`ledger, (if base == null then {} else {base})`file
    {
      if base == null then ledger.pages else NodesIn(base.file)
    }

    /** Read a page: pending update or file. */
    method PageRead(ptr: nat) returns (content: Page)
      requires ptr in page.updates || (ptr in file && !Unwritten(Abs(), ptr))
      ensures content == Current(Abs(), ptr)
    {
      if ptr in page.updates {
        return page.updates[ptr];
      }
      return file[ptr];
    }

    /** A writable copy of a page among the updates. */
    method PageWrite(ptr: nat) returns (content: Page)
      requires ptr in page.updates || ptr in file || Unwritten(Abs(), ptr)
      modifies this`page
      ensures content == Current(old(Abs()), ptr)
      ensures page == old(page).(updates := old(page.updates)[ptr := content])
    {
      if ptr in page.updates {
        assert page.updates == page.updates[ptr := page.updates[ptr]];
        return page.updates[ptr];
      }
      content := ZERO;
      if !(page.flushed == 2 && ptr == 1) {
        content := file[ptr];
      }
      page := page.(updates := page.updates[ptr := content]);
    }

    /** A new page behind the end of the file. */
    method PageAppend(content: Page) returns (ptr: nat)
      requires Core(Abs())
      modifies this`page, this`ledger
      ensures Core(Abs()) && Abs() == Append(old(Abs()), content) && ptr == End(old(Abs()))
      ensures ptr !in old(page.updates) && !Frozen(old(Abs()), ptr) && ptr != 0
    {
      hide Core, Frozen;
      AppendKeeps(Abs(), content);
      EndPositive(Abs());
      ptr := page.flushed + page.nappend;
      page := page.(nappend := page.nappend + 1, updates := page.updates[ptr := content]);
      ledger := ledger.(taken := ledger.taken + multiset{ptr});
    }

    /**
     * Take the item at the head: in push order, never past `maxSeq`, never one that a reader may
     * still need; and nothing is taken only if every item up to `maxSeq` is blocked.
     */
    method FlPop() returns (ptr: nat, head: nat)
      requires Core(Abs())
      modifies this`free, this`ledger
      ensures Core(Abs())
      ensures ptr == 0 <==> NothingFree(old(Abs()))
      ensures ptr == 0 ==> head == 0 && Abs() == old(Abs())
      ensures ptr != 0 ==> CanPop(old(Abs())) && Abs() == Advance(old(Abs()))
      ensures ptr != 0 ==> ptr == old(Abs()).qptr[old(free.headSeq)] && ptr !in page.updates && !Frozen(Abs(), ptr)
      ensures ptr != 0 ==> head == if Wraps(old(free.headSeq)) then old(free.headPage) else 0
      ensures ptr != 0 ==> (head != 0 <==> Wraps(old(free.headSeq)))
    {
      hide Core, Numbers, Current, Unwritten, SlotHolds, NothingFree, Frozen;
      ghost var s := Abs();
      if free.headSeq == free.maxSeq {
        AllBlocked(s);
        return 0, 0;
      }
      HeadReadable(s);
      var node := PageRead(free.headPage);
      var item := node.items[free.headSeq % CAP];
      if free.maxVer < item.ver {
        AllBlocked(s);
        return 0, 0;
      }
      AdvanceKeeps(s);
      HeadFree(s);
      ptr := item.ptr;
      head := AdvanceHead(ptr, node.next);
    }

    /** Step over the head item; a head page that has become empty is removed from the list. */
    method AdvanceHead(ghost ptr: nat, next: nat) returns (head: nat)
      requires Numbers(Abs()) && CanPop(Abs()) && ptr == Abs().qptr[free.headSeq]
      requires Wraps(free.headSeq) ==>
                 (free.headSeq + 1) / CAP < |Abs().chain| && next == Abs().chain[(free.headSeq + 1) / CAP]
      modifies this`free, this`ledger
      ensures Abs() == Advance(old(Abs()))
      ensures head == if Wraps(old(free.headSeq)) then old(free.headPage) else 0
    {
      ghost var s := Abs();
      AdvanceFields(s, next);
      hide CanPop, Detached, Numbers, Advance;
      head := 0;
      ledger := ledger.(taken := ledger.taken + multiset{ptr});
      free := free.(headSeq := free.headSeq + 1);
      assert Abs() == s.(headSeq := s.headSeq + 1, taken := s.taken + multiset{s.qptr[s.headSeq]});
      if free.headSeq % CAP == 0 {
        head := free.headPage;
        free := free.(headPage := next);
        ledger := ledger.(retired := ledger.retired + {head}, loose := ledger.loose + multiset{head});
      }
    }

    /** Fill the tail slot. */
    method FillTail(ptr: nat)
      requires Core(Abs()) && Attached(Abs()) && ptr in ledger.loose
      modifies this`page, this`free, this`ledger
      ensures Core(Abs()) && Abs() == Record(old(Abs()), ptr)
      ensures free.tailPage !in ledger.taken
    {
      hide Core, Current, Unwritten;
      ghost var s := Abs();
      TailReadable(s);
      RecordKeeps(s, ptr);
      var content := PageWrite(free.tailPage);
      var list := AsList(content);
      list := ListPage(list.next, list.items[free.tailSeq % CAP := Item(ptr, free.curVer)]);
      page := page.(updates := page.updates[free.tailPage := list]);
      assert page.updates == s.updates[s.tailPage := TailWith(s, ptr)];
      ledger := ledger.(qptr := ledger.qptr + [ptr], qver := ledger.qver + [free.curVer], loose := ledger.loose - multiset{ptr});
      free := free.(tailSeq := free.tailSeq + 1);
    }

    /** Link the page `next` behind the full tail page. */
    method LinkTail(next: nat)
      requires Core(Abs()) && Detached(Abs()) && next in ledger.taken
      modifies this`page, this`free, this`ledger
      ensures Core(Abs()) && Abs() == Link(old(Abs()), next)
      ensures old(free.tailPage) !in old(ledger.taken)
    {
      hide Core, Current, Unwritten;
      ghost var s := Abs();
      TailReadable(s);
      LinkKeeps(s, next);
      var content := PageWrite(free.tailPage);
      var list := ListPage(next, AsList(content).items);
      page := page.(updates := page.updates[free.tailPage := list]);
      assert page.updates == s.updates[s.tailPage := TailLinked(s, next)];
      free := free.(tailPage := next);
      ledger := ledger.(chain := ledger.chain + [next], taken := ledger.taken - multiset{next});
    }

    /**
     * Put one page at the tail; a full tail page gets a successor, recycled from the head if
     * possible, and an emptied head page is queued as well.
     */
    method PushTail(ptr: nat)
      requires Core(Abs()) && Attached(Abs()) && ptr in ledger.loose
      modifies this`page, this`free, this`ledger
      ensures Core(Abs()) && Attached(Abs())
      ensures Pushed(old(Abs()), Abs(), ptr)
    {
      hide Core, Record, Pushed;
      StateNumbers(Abs());
      FillTail(ptr);
      RecordPushed(old(Abs()), ptr);
      TailAlone(old(Abs()));
      if free.tailSeq % CAP == 0 {
        Extend();
        PushedExtended(old(Abs()), ptr, Abs());
      }
    }

    /** Give the full list a new tail page. */
    method Extend()
      requires Core(Abs()) && Detached(Abs())
      modifies this`page, this`free, this`ledger
      ensures Core(Abs()) && Attached(Abs())
      ensures Extended(old(Abs()), Abs())
    {
      hide Core, Extended, Advance, Append, Link, Record, NothingFree, Detached, Attached;
      ghost var s := Abs();
      var next, head := FlPop();
      if next == 0 {
        BlockedHead(s);
        ExtendFromEnd(s);
        next := PageAppend(ZERO);
      } else {
        ExtendFromHead(s);
      }
      LinkTail(next);
      if head != 0 {
        FillTail(head);
      }
    }

    /** Take one page from the free list, 0 if none may be taken; an emptied list page is recycled. */
    method PopHead() returns (ptr: nat)
      requires !inMemory && Inv()
      modifies this`page, this`free, this`ledger
      ensures Core(Abs()) && Attached(Abs()) && ledger.loose == multiset{}
      ensures ptr == 0 <==> NothingFree(old(Abs()))
      ensures ptr == 0 ==> Abs() == old(Abs())
      ensures ptr != 0 && page.nappend != old(page.nappend) ==> Wraps(old(free.headSeq)) && NothingFree(Abs())
      ensures old(page.nappend) <= page.nappend <= old(page.nappend) + 1
      ensures ledger.taken == if ptr == 0 then multiset{} else multiset{ptr}
      ensures ptr != 0 ==> ptr == old(Abs()).qptr[old(free.headSeq)] && ptr !in page.updates && ptr !in ledger.pages
      ensures ledger.pages == old(ledger.pages) && ledger.inUse == old(ledger.inUse) && ledger.start == old(ledger.start)
    {
      hide Core, NothingFree, Attached, Frozen;
      ghost var s := Abs();
      var head;
      ptr, head := FlPop();
      if ptr != 0 {
        PoppedFacts(s);
        hide Advance;
        if head != 0 {
          ghost var s1 := Abs();
          PushTail(head);
          if page.nappend != s1.nappend {
            StillBlocked(s1, Abs(), head);
          }
        }
      }
    }

    /** `BTree.get`: read a tree page. */
    method Get(ptr: nat) returns (node: Node)
      requires Inv() && ptr in ledger.pages
      ensures node == ledger.pages[ptr]
    {
      if inMemory {
        return mem[ptr - 1];
      }
      TreeReadable(Abs(), ptr);
      hide Core, Current;
      var content := PageRead(ptr);
      return content.node;
    }

    /** `BTree.get` of any tree, snapshots included. */
    method Read(ptr: nat) returns (node: Node)
      requires Readable() && ptr in Nodes()
      ensures node == Nodes()[ptr]
    {
      hide Inv;
      if base != null {
        return base.file[ptr].node;
      }
      node := Get(ptr);
    }

    /** `BTree.new`: a page for a new node, recycled or appended; nothing that is still needed is overwritten. */
    method New(node: Node) returns (ptr: nat)
      requires Inv() && Size(node) <= PAGE
      modifies this`mem, this`page, this`free, this`ledger
      ensures !inMemory ==> ptr == if NothingFree(old(Abs())) then End(old(Abs())) else old(Abs()).qptr[old(free.headSeq)]
      ensures Inv() && ptr != 0 && ptr !in old(ledger.pages)
      ensures ledger.pages == old(ledger.pages)[ptr := node]
      ensures ledger.inUse == old(ledger.inUse) + multiset{ptr}
      ensures ledger.start == old(ledger.start)
    {
      hide Core, Attached;
      if inMemory {
        mem := mem + [node];
        ptr := |mem|;
        ledger := ledger.(pages := ledger.pages[ptr := node], inUse := ledger.inUse + multiset{ptr});
      } else {
        ptr := PageAlloc(node);
      }
    }

    /** Reuse a free page, or append one. */
    method PageAlloc(node: Node) returns (ptr: nat)
      requires !inMemory && Inv() && Size(node) <= PAGE
      modifies this`page, this`free, this`ledger
      ensures if NothingFree(old(Abs())) then ptr == End(old(Abs())) && page.nappend == old(page.nappend) + 1 && free == old(free)
              else ptr == old(Abs()).qptr[old(free.headSeq)]
      ensures Inv() && ptr != 0 && ptr !in old(ledger.pages)
      ensures !NothingFree(old(Abs())) && page.nappend != old(page.nappend) ==>
                page.nappend == old(page.nappend) + 1 && Wraps(old(free.headSeq)) && NothingFree(Abs())
      ensures ledger.pages == old(ledger.pages)[ptr := node]
      ensures ledger.inUse == old(ledger.inUse) + multiset{ptr}
      ensures ledger.start == old(ledger.start)
    {
      hide Core, Attached, NothingFree, Frozen, Append, Current, Unwritten;
      ptr := PopHead();
      if ptr == 0 {
        ptr := AppendNode(node);
      } else {
        ghost var s := Abs();
        StateNumbers(s);
        UseFree(ptr, node);
        StateNumbers(Abs());
        SameQueue(s, Abs());
      }
    }

    /** Put the node on a new page behind the end of the file. */
    method AppendNode(node: Node) returns (ptr: nat)
      requires !inMemory && Inv() && Size(node) <= PAGE
      modifies this`page, this`ledger
      ensures ptr == End(old(Abs())) && page.nappend == old(page.nappend) + 1
      ensures Inv() && ptr != 0 && ptr !in old(ledger.pages)
      ensures ledger.pages == old(ledger.pages)[ptr := node]
      ensures ledger.inUse == old(ledger.inUse) + multiset{ptr}
      ensures ledger.start == old(ledger.start)
    {
      hide Core, Attached, Frozen, Append, Current, Unwritten;
      ghost var s := Abs();
      ptr := PageAppend(TreePage(node));
      AppendFacts(s, TreePage(node));
      GiveNew(Abs(), ptr, node);
      assert page.updates == page.updates[ptr := TreePage(node)];
      ledger := ledger.(
        pages := ledger.pages[ptr := node], inUse := ledger.inUse + multiset{ptr}, taken := ledger.taken - multiset{ptr});
    }

    /** Put the node on the page that came from the free list. */
    method UseFree(ptr: nat, node: Node)
      requires !inMemory && base == null && Core(Abs()) && Attached(Abs()) && ledger.loose == multiset{} && ledger.taken == multiset{ptr}
      requires ptr !in page.updates && Size(node) <= PAGE
      modifies this`page, this`ledger
      ensures page.nappend == old(page.nappend) && ledger.qver == old(ledger.qver)
      ensures Inv() && ptr != 0 && ptr !in old(ledger.pages)
      ensures ledger.pages == old(ledger.pages)[ptr := node]
      ensures ledger.inUse == old(ledger.inUse) + multiset{ptr}
      ensures ledger.start == old(ledger.start)
    {
      hide Core, Attached, Frozen, Current, Unwritten;
      GiveNew(Abs(), ptr, node);
      page := page.(updates := page.updates[ptr := TreePage(node)]);
      ledger := ledger.(
        pages := ledger.pages[ptr := node], inUse := ledger.inUse + multiset{ptr}, taken := ledger.taken - multiset{ptr});
    }

    /** `BTree.del`: release a tree page; it stays readable for everybody who may still need it. */
    method Del(ptr: nat)
      requires Inv() && ptr in ledger.inUse
      modifies this`page, this`free, this`ledger
      ensures Inv()
      ensures ledger.pages == old(ledger.pages)
      ensures ledger.inUse == old(ledger.inUse) - multiset{ptr}
      ensures ledger.start == old(ledger.start)
    {
      hide Core;
      ghost var s := Abs();
      if !inMemory {
        TakeKeeps(s, ptr);
      }
      ledger := ledger.(inUse := ledger.inUse - multiset{ptr});
      if inMemory {
        return;
      }
      ledger := ledger.(loose := ledger.loose + multiset{ptr});
      assert Abs() == Take(s, ptr);
      PushTail(ptr);
    }

    // ---- between commits ----

    /** The version that the next commit will have. */
    method SetCurVer(v: nat)
      modifies this`free, this`ledger
      ensures Abs() == SetVer(old(Abs()), v)
    {
      free := free.(curVer := v);
      ledger := ledger.(start := ledger.start.(curVer := v));
    }

    /** Set the oldest version in use, and open everything queued so far for allocation. */
    method SetMaxVer(maxVer: nat, ghost keep: map<nat, Node>)
      modifies this`free, this`ledger
      ensures Abs() == Restart(old(Abs()), keep, maxVer) && free.maxVer == maxVer
    {
      free := free.(maxSeq := free.tailSeq, maxVer := maxVer);
      ledger := ledger.(
        pages := keep, retired := {},
        start := Start(file, page.flushed, free.headSeq, free.tailSeq, maxVer, free.curVer,
                       ledger.chain, ledger.qptr, ledger.qver, keep.Keys));
    }

    /** Write one pending page to the file. */
    method WriteBack(ptr: nat)
      requires ptr in page.updates
      modifies this`file
      ensures file == old(file)[ptr := page.updates[ptr]]
    {
      file := file[ptr := page.updates[ptr]];
    }

    /** All updates are in the file: drop them. */
    method Written()
      requires file + page.updates == file
      modifies this`page, this`ledger
      ensures Abs() == Flush(old(Abs()))
    {
      ghost var s := Flush(Abs());
      page := PageInfo(page.flushed + page.nappend, 0, map[]);
      ledger := ledger.(retired := {}, start := s.start);
    }

    /** Go back to what the meta record says, and drop the updates. */
    method Rollback(flushed: nat, headPage: nat, headSeq: nat, tailPage: nat, tailSeq: nat, ghost s0: State)
      requires flushed == s0.flushed && headPage == s0.headPage && headSeq == s0.headSeq
      requires tailPage == s0.tailPage && tailSeq == s0.tailSeq && s0.updates == map[] && s0.nappend == 0
      requires free.maxSeq == s0.maxSeq && free.maxVer == s0.maxVer && free.curVer == s0.curVer
      modifies this`page, this`free, this`ledger
      ensures Abs() == Revert(s0, file)
    {
      free := free.(headPage := headPage, headSeq := headSeq, tailPage := tailPage, tailSeq := tailSeq);
      page := PageInfo(flushed, 0, map[]);
      ledger := Ledger(s0.chain, s0.qptr, s0.qver, s0.pages, s0.retired, s0.inUse, s0.taken, s0.loose, s0.start.(file := file));
    }
  }

  lemma PoppedFacts(s: State)
    requires Core(s) && CanPop(s) && Attached(s)
    ensures var s' := Advance(s);
            && Attached(s') && s'.taken == s.taken + multiset{s.qptr[s.headSeq]}
            && s'.loose == (if Wraps(s.headSeq) then s.loose + multiset{s.headPage} else s.loose)
            && s'.pages == s.pages && s'.inUse == s.inUse && s'.start == s.start && s'.updates == s.updates
            && s'.nappend == s.nappend && s.qptr[s.headSeq] != 0 && s.qptr[s.headSeq] !in s.pages
  {
    AdvanceKeeps(s);
    hide Domain, Slots, Links, Partition, Available, TreePages, Versions, SinceStart;
  }

  lemma AppendFacts(s: State, pg: Page)
    requires Core(s) && Attached(s)
    ensures var s' := Append(s, pg);
            && Attached(s') && s'.taken == s.taken + multiset{End(s)} && s'.updates == s.updates[End(s) := pg]
            && s'.loose == s.loose && s'.pages == s.pages && s'.inUse == s.inUse && s'.start == s.start && s'.nappend == s.nappend + 1
  {
    hide Core;
  }

  lemma GiveNew(s: State, ptr: nat, node: Node)
    requires Core(s) && Attached(s) && ptr in s.taken
    ensures Core(Give(s, ptr, node)) && Attached(Give(s, ptr, node)) && ptr != 0 && ptr !in s.pages
  {
    hide Core, Give;
    GiveKeeps(s, ptr, node);
    TakenAlone(s, ptr);
    assert Attached(Give(s, ptr, node)) by { GiveAttached(s, ptr, node); }
  }

  lemma GiveAttached(s: State, ptr: nat, node: Node)
    requires Attached(s)
    ensures Attached(Give(s, ptr, node))
  {
  }

  lemma TreeReadable(s: State, ptr: nat)
    requires Core(s) && ptr in s.pages
    ensures ptr in s.updates || (ptr in s.file && !Unwritten(s, ptr))
    ensures Current(s, ptr) == TreePage(s.pages[ptr])
  {
    hide Domain, Slots, Links, Partition, Available, Versions, SinceStart;
  }

  /** The head page is readable, its head slot holds the head item, and its link is set when needed. */
  lemma HeadReadable(s: State)
    requires Core(s) && s.headSeq != s.maxSeq
    ensures s.headSeq < s.maxSeq
    ensures Numbers(s) && s.headSeq / CAP < |s.chain| && s.headPage == s.chain[s.headSeq / CAP]
    ensures s.headSeq < |s.qptr| && s.maxSeq <= |s.qver|
    ensures s.headPage in s.updates || (s.headPage in s.file && !Unwritten(s, s.headPage))
    ensures SlotAt(Current(s, s.headPage), s.headSeq % CAP, s.qptr[s.headSeq], s.qver[s.headSeq])
    ensures Wraps(s.headSeq) ==> (s.headSeq + 1) / CAP < |s.chain| && Current(s, s.headPage).next == s.chain[(s.headSeq + 1) / CAP]
    ensures s.headPage != 0
  {
    hide Partition, Available, TreePages, Versions, SinceStart;
    assert SlotHolds(s, s.headSeq);
    BlockOf(s, s.headSeq);
    if Wraps(s.headSeq) {
      var b := s.headSeq / CAP;
      assert (s.headSeq + 1) / CAP == b + 1;
      assert LinkAt(Current(s, s.chain[b]), s.chain[b + 1]);
    }
  }

  /** No item up to `maxSeq` may be handed out. */
  ghost predicate NothingFree(s: State)
    requires Numbers(s)
  {
    forall i :: s.headSeq <= i < s.maxSeq ==> s.maxVer < s.qver[i]
  }

  /** If pushing a page has let the file grow, there is nothing to take afterwards either. */
  lemma StillBlocked(s: State, s': State, ptr: nat)
    requires Core(s) && Core(s') && Pushed(s, s', ptr) && s'.nappend != s.nappend
    ensures NothingFree(s')
  {
    AllBlocked(s);
    hide Domain, Slots, Links, Partition, Available, TreePages, Versions;
    forall i | s'.headSeq <= i < s'.maxSeq ensures s'.maxVer < s'.qver[i] {
      assert s'.qver[..s'.maxSeq][i] == s.qver[..s.maxSeq][i];
    }
  }

  /** What may be taken is decided by the queue and its limits. */
  lemma SameQueue(s: State, s': State)
    requires Numbers(s) && Numbers(s') && s'.qver == s.qver && s'.headSeq == s.headSeq && s'.maxSeq == s.maxSeq && s'.maxVer == s.maxVer
    ensures NothingFree(s) == NothingFree(s')
  {
  }

  lemma BlockedHead(s: State)
    requires Core(s) && NothingFree(s)
    ensures !CanPop(s)
  {
  }

  lemma StateNumbers(s: State)
    requires Core(s)
    ensures Numbers(s)
  {
  }

  lemma HeadFree(s: State)
    requires Core(s) && CanPop(s)
    ensures !NothingFree(s)
  {
    hide Domain, Slots, Links, Partition, Available, TreePages, Versions, SinceStart;
  }

  /** Versions grow along the queue: a blocked head blocks everything behind it. */
  lemma AllBlocked(s: State)
    requires Core(s) && !CanPop(s)
    ensures NothingFree(s)
  {
    hide Domain, Slots, Links, Partition, Available, TreePages, SinceStart;
  }

  /** The checks at the start of every operation on the free list hold. */
  lemma ListCheck(s: State)
    requires Core(s)
    ensures s.headPage != 0 && s.tailPage != 0
    ensures s.headSeq == s.tailSeq ==> s.headPage == s.tailPage
  {
    hide Slots, Links, Partition, TreePages, Available, Versions, SinceStart;
    assert s.start.headSeq / CAP <= s.headSeq / CAP < |s.chain| by {
      LastBlock(s);
    }
  }

  lemma EndPositive(s: State)
    requires Core(s)
    ensures End(s) >= 2
  {
    hide Domain, Slots, Links, Partition, Available, TreePages, Versions, SinceStart;
  }

  /** The tail page can be copied for writing, and no page on its way out is the tail page. */
  lemma TailReadable(s: State)
    requires Core(s)
    ensures s.tailPage in s.updates || s.tailPage in s.file || Unwritten(s, s.tailPage)
    ensures s.tailPage !in s.taken
  {
    TailAlone(s);
    hide Slots, Links, Partition, Available, TreePages, Versions, SinceStart;
  }
}
