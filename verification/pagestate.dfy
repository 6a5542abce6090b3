/**
 * The state of the page store between two commits, and the small steps that allocation,
 * release and the free list are made of. Every step keeps `Core`.
 */
module PageState {
  import opened Nodes

  /** Free-list items per page: (4096 - 8) / 16. */
  const CAP := 255

  datatype Item = Item(ptr: nat, ver: nat)

  /**
   * A page's content as it was last written. A list page keeps the slots and the link that were
   * written (0: no link yet); slots nobody wrote have no value here, so nothing can depend on them.
   */
  datatype Page = TreePage(node: Node) | ListPage(next: nat, items: map<nat, Item>)

  const ZERO := ListPage(0, map[])

  /** The bytes of a recycled tree page carry no list data that may be relied on. */
  function AsList(p: Page): Page {
    if p.ListPage? then p else ZERO
  }

  /** What the last commit left behind; constant until the next one. */
  datatype Start = Start(
    file: map<nat, Page>, flushed: nat, headSeq: nat, maxSeq: nat, maxVer: nat, curVer: nat,
    chain: seq<nat>, qptr: seq<nat>, qver: seq<nat>, base: set<nat>)

  /** Page bookkeeping of the file: its length, the pages to append, the pending writes. */
  datatype PageInfo = PageInfo(flushed: nat, nappend: nat, updates: map<nat, Page>)

  datatype FreeList = FreeList(
    headPage: nat, headSeq: nat, tailPage: nat, tailSeq: nat, maxSeq: nat, maxVer: nat, curVer: nat)

  /** The parts of `State` that exist for the proof only. */
  datatype Ledger = Ledger(
    chain: seq<nat>, qptr: seq<nat>, qver: seq<nat>, pages: map<nat, Node>, retired: set<nat>,
    inUse: multiset<nat>, taken: multiset<nat>, loose: multiset<nat>, start: Start)

  /** A new file: the meta page and page 1, an empty list page that is not written yet. */
  ghost function NewLedger(): Ledger {
    Ledger([1], [], [], map[], {}, multiset{}, multiset{}, multiset{},
           Start(map[1 := ZERO], 2, 0, 0, 0, 0, [1], [], [], {}))
  }

  ghost function Whole(file: map<nat, Page>, page: PageInfo, free: FreeList, g: Ledger): State {
    State(file, page.updates, page.flushed, page.nappend,
          free.headPage, free.headSeq, free.tailPage, free.tailSeq, free.maxSeq, free.maxVer, free.curVer,
          g.chain, g.qptr, g.qver, g.pages, g.retired, g.inUse, g.taken, g.loose, g.start)
  }

  /**
   * `qptr`, `qver`: every item ever pushed, by sequence number. `chain`: every list page, by
   * sequence number / CAP. The free list proper is the part from `headSeq` on.
   * `pages`: the tree pages nobody may overwrite before the commit ends; `retired`: list pages
   * emptied since the last commit; `inUse`: the pages of the working tree; `taken`, `loose`:
   * pages on their way out of or into the free list.
   */
  datatype State = State(
    file: map<nat, Page>, updates: map<nat, Page>, flushed: nat, nappend: nat,
    headPage: nat, headSeq: nat, tailPage: nat, tailSeq: nat, maxSeq: nat, maxVer: nat, curVer: nat,
    chain: seq<nat>, qptr: seq<nat>, qver: seq<nat>,
    pages: map<nat, Node>, retired: set<nat>,
    inUse: multiset<nat>, taken: multiset<nat>, loose: multiset<nat>, start: Start)

  ghost function End(s: State): nat {
    s.flushed + s.nappend
  }

  /** Page 1 of a new file is a list page that has not been written yet. */
  ghost predicate Unwritten(s: State, p: nat) {
    s.flushed == 2 && p == 1
  }

  /** The content of a page as the next writer sees it. */
  ghost function Current(s: State, p: nat): Page {
    if p in s.updates then s.updates[p]
    else if p !in s.file || Unwritten(s, p) then ZERO
    else s.file[p]
  }

  ghost predicate SlotAt(p: Page, idx: nat, ptr: nat, ver: nat) {
    p.ListPage? && idx in p.items && p.items[idx] == Item(ptr, ver)
  }

  ghost predicate LinkAt(p: Page, next: nat) {
    p.ListPage? && p.next == next
  }

  ghost predicate Frozen(s: State, p: nat) {
    p in s.pages || p in s.retired
  }

  ghost predicate Numbers(s: State) {
    && s.flushed >= 2
    && s.start.headSeq <= s.headSeq <= s.maxSeq <= s.tailSeq
    && |s.qptr| == |s.qver| == s.tailSeq
    && (|s.chain| == s.tailSeq / CAP + 1 || (Detached(s) && s.maxSeq < s.tailSeq))
    && s.headPage == s.chain[s.headSeq / CAP]
    && s.tailPage == s.chain[|s.chain| - 1]
    && (s.headSeq < s.maxSeq ==> (s.headSeq + 1) / CAP < |s.chain|)
  }

  /** The last list page is full and its successor is not linked yet. */
  ghost predicate Detached(s: State) {
    |s.chain| == s.tailSeq / CAP && s.tailSeq % CAP == 0 && s.tailSeq > 0
  }

  ghost predicate Domain(s: State) {
    && (forall p :: p in s.updates ==> 1 <= p < End(s))
    && (forall p :: 1 <= p < End(s) ==> p in s.updates || p in s.file)
    && (forall b :: s.start.headSeq / CAP <= b < |s.chain| ==> 1 <= s.chain[b] < End(s))
  }

  ghost predicate Slots(s: State)
    requires Numbers(s)
  {
    forall i :: s.start.headSeq <= i < s.tailSeq ==> SlotHolds(s, i)
  }

  ghost predicate SlotHolds(s: State, i: nat)
    requires Numbers(s) && i < s.tailSeq
  {
    SlotAt(Current(s, s.chain[i / CAP]), i % CAP, s.qptr[i], s.qver[i])
  }

  ghost predicate Links(s: State) {
    forall b :: s.start.headSeq / CAP <= b < |s.chain| - 1 ==> LinkAt(Current(s, s.chain[b]), s.chain[b + 1])
  }

  ghost function AllPages(n: nat): (r: set<nat>)
    ensures forall p: nat :: p in r <==> 1 <= p < n
  {
    if n <= 1 then {} else AllPages(n - 1) + {n - 1}
  }

  ghost function ListPages(s: State): seq<nat>
    requires Numbers(s)
  {
    s.chain[s.headSeq / CAP..]
  }

  ghost function Queue(s: State): seq<nat>
    requires Numbers(s)
  {
    s.qptr[s.headSeq..]
  }

  /** Page conservation: every page but the meta page has exactly one role. */
  ghost predicate Partition(s: State)
    requires Numbers(s)
  {
    s.inUse + s.taken + s.loose + multiset(ListPages(s)) + multiset(Queue(s)) == multiset(AllPages(End(s)))
  }

  ghost predicate TreePages(s: State) {
    && (forall p :: p in s.pages ==> 1 <= p < End(s) && Current(s, p) == TreePage(s.pages[p]))
    && (forall p :: p in s.inUse ==> p in s.pages)
    && (forall p :: p in s.start.base ==> p in s.pages && p !in s.updates)
  }

  /** What may be handed out is not frozen. */
  ghost predicate Available(s: State)
    requires Numbers(s)
  {
    && (forall b :: s.start.headSeq / CAP <= b < s.headSeq / CAP ==> s.chain[b] in s.retired)
    && (forall b :: s.headSeq / CAP <= b < |s.chain| ==> !Frozen(s, s.chain[b]))
    && (forall p :: p in s.taken ==> !Frozen(s, p))
    && (forall p :: p in s.retired ==> p < End(s))
    && (forall i :: s.headSeq <= i < s.maxSeq ==> Waiting(s, i))
  }

  ghost predicate Waiting(s: State, i: nat)
    requires Numbers(s) && i < s.tailSeq
  {
    (Frozen(s, s.qptr[i]) ==> s.maxVer < s.qver[i]) && s.qptr[i] !in s.updates
  }

  ghost predicate Versions(s: State)
    requires Numbers(s)
  {
    && (forall i, j :: s.start.headSeq <= i < j < s.tailSeq ==> s.qver[i] <= s.qver[j])
    && (forall i :: s.start.headSeq <= i < s.tailSeq ==> s.qver[i] <= s.curVer)
    && (forall i :: s.maxSeq <= i < s.tailSeq ==> s.qver[i] == s.curVer)
  }

  ghost predicate SinceStart(s: State)
    requires Numbers(s)
  {
    && s.start.file == s.file && s.start.flushed == s.flushed
    && s.start.maxSeq == s.maxSeq && s.start.maxVer == s.maxVer && s.start.curVer == s.curVer
    && |s.start.chain| == s.maxSeq / CAP + 1 <= |s.chain| && s.chain[..|s.start.chain|] == s.start.chain
    && s.qptr[..s.maxSeq] == s.start.qptr && s.qver[..s.maxSeq] == s.start.qver
  }

  ghost predicate Core(s: State) {
    Numbers(s) && Domain(s) && Slots(s) && Links(s) && Partition(s) && TreePages(s) && Available(s) && Versions(s)
    && SinceStart(s)
  }

  // ---- one role per page ----

  lemma Roles(s: State, p: nat)
    requires Numbers(s) && Partition(s)
    ensures s.inUse[p] + s.taken[p] + s.loose[p] + multiset(ListPages(s))[p] + multiset(Queue(s))[p]
            == if 1 <= p < End(s) then 1 else 0
  {
    assert multiset(AllPages(End(s)))[p] == if 1 <= p < End(s) then 1 else 0;
  }

  lemma ListPageRole(s: State, b: nat)
    requires Numbers(s) && Partition(s) && s.headSeq / CAP <= b < |s.chain|
    ensures 1 <= s.chain[b] < End(s)
    ensures s.chain[b] !in s.inUse && s.chain[b] !in s.taken && s.chain[b] !in s.loose && s.chain[b] !in Queue(s)
    ensures forall c :: s.headSeq / CAP <= c < |s.chain| && c != b ==> s.chain[c] != s.chain[b]
  {
    hide Partition;
    var p := s.chain[b];
    Roles(s, p);
    assert ListPages(s)[b - s.headSeq / CAP] == p;
    forall c | s.headSeq / CAP <= c < |s.chain| && c != b ensures s.chain[c] != p {
      OnceOnly(ListPages(s), b - s.headSeq / CAP, c - s.headSeq / CAP);
    }
  }

  lemma QueueRole(s: State, i: nat)
    requires Numbers(s) && Partition(s) && s.headSeq <= i < s.tailSeq
    ensures 1 <= s.qptr[i] < End(s)
    ensures s.qptr[i] !in s.inUse && s.qptr[i] !in s.taken && s.qptr[i] !in s.loose && s.qptr[i] !in ListPages(s)
    ensures forall j :: s.headSeq <= j < s.tailSeq && j != i ==> s.qptr[j] != s.qptr[i]
  {
    hide Partition;
    var p := s.qptr[i];
    Roles(s, p);
    assert Queue(s)[i - s.headSeq] == p;
    forall j | s.headSeq <= j < s.tailSeq && j != i ensures s.qptr[j] != p {
      OnceOnly(Queue(s), i - s.headSeq, j - s.headSeq);
    }
  }

  lemma OnceOnly(s: seq<nat>, i: nat, j: nat)
    requires i < |s| && j < |s| && i != j
    requires multiset(s)[s[i]] <= 1
    ensures s[j] != s[i]
  {
    var lo, hi := if i < j then i else j, if i < j then j else i;
    assert s == s[..lo] + [s[lo]] + s[lo + 1..hi] + [s[hi]] + s[hi + 1..];
    assert multiset(s) == multiset(s[..lo]) + multiset{s[lo]} + multiset(s[lo + 1..hi]) + multiset{s[hi]} + multiset(s[hi + 1..]);
  }
}
