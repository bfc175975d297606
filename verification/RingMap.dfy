/** ringbuf.c's processSpace_mapper: the double mapping of a ring buffer into a
    process, on top of vm.c. */
module RingMap {
  import opened Common
  import opened PageTable
  import opened Vm
  import Teardown

  const RINGBUF_SIZE: nat := 16
  const BUF_SIZE: nat := RINGBUF_SIZE * PGSIZE
  const BOOKOFFSET: nat := 131072

  /** Ring windows are ten slots of 34 pages each that end at the trapframe. */
  const SPACE_JUMP: nat := 34
  const MAP_START: nat := MAXVPN - 2 - 10 * 34
  const MAXMAPLOC: nat := MAXVPN - 36

  const RING_PERM: nat := PTE_U + PTE_R + PTE_W + PTE_V

  function Slot(k: nat): nat { MAP_START + SPACE_JUMP * k }

  ghost predicate SlotFree(pages: map<nat, Page>, t: Tree, k: nat) {
    forall v: nat :: Slot(k) <= v < Slot(k) + SPACE_JUMP ==> Flat(pages, t, v) == 0
  }

  ghost predicate SlotTaken(pages: map<nat, Page>, t: Tree, k: nat) {
    UserAddr(pages, t, Slot(k) * PGSIZE) != 0
  }

  /** Each slot is free or has a ring mapped at its start. */
  ghost predicate SlotsOk(pages: map<nat, Page>, t: Tree) {
    forall k :: 0 <= k < 10 ==> SlotFree(pages, t, k) || SlotTaken(pages, t, k)
  }

  /** n of the window's pages are mapped from v0 on: twice through the ring, then
      the book page; every other mapping is as before. */
  ghost predicate Window(p0: map<nat, Page>, t0: Tree, p: map<nat, Page>, t: Tree, v0: nat, n: nat, bufPA: seq<nat>,
                         book: nat)
    requires |bufPA| == RINGBUF_SIZE
  {
    forall v: nat :: Flat(p, t, v) ==
      if v0 <= v < v0 + n then LeafEntry(WindowPage(bufPA, book, v - v0), RING_PERM) else Flat(p0, t0, v)
  }

  function WindowPage(bufPA: seq<nat>, book: nat, i: nat): nat
    requires |bufPA| == RINGBUF_SIZE
  {
    if i < 2 * RINGBUF_SIZE then bufPA[i % RINGBUF_SIZE] else book
  }

  /** The physical byte behind a virtual address, through the hardware's walk. */
  function Phys(pages: map<nat, Page>, root: nat, va: nat): nat {
    Ppn(Translate(pages, root, va / PGSIZE)) * PGSIZE + va % PGSIZE
  }

  /** A mapped window is the ring twice over: byte k and byte k + BUF_SIZE are one
      physical byte, and the book lies right behind. */
  lemma WindowWraps(p0: map<nat, Page>, t0: Tree, p: map<nat, Page>, t: Tree, k: nat, bufPA: seq<nat>, book: nat,
                    off: nat)
    requires TableOk(p, t) && k < 10 && |bufPA| == RINGBUF_SIZE && Window(p0, t0, p, t, Slot(k), 33, bufPA, book)
    ensures Slot(k) + 33 <= TRAPFRAME
    ensures off < BUF_SIZE ==>
              && Phys(p, t.root, Slot(k) * PGSIZE + off) == bufPA[off / PGSIZE] * PGSIZE + off % PGSIZE
              && Phys(p, t.root, Slot(k) * PGSIZE + off + BUF_SIZE) == Phys(p, t.root, Slot(k) * PGSIZE + off)
    ensures off < PGSIZE ==> Phys(p, t.root, Slot(k) * PGSIZE + BOOKOFFSET + off) == book * PGSIZE + off
  {
    hide TableOk, Window, Phys;
    var v0 := Slot(k);
    assert v0 + 33 <= TRAPFRAME;
    hide Slot;
    if off < BUF_SIZE {
      InPage(v0, off);
      WindowByte(p0, t0, p, t, v0, off / PGSIZE, off % PGSIZE, bufPA, book);
      WindowByte(p0, t0, p, t, v0, off / PGSIZE + RINGBUF_SIZE, off % PGSIZE, bufPA, book);
    }
    if off < PGSIZE {
      WindowByte(p0, t0, p, t, v0, 2 * RINGBUF_SIZE, off, bufPA, book);
    }
  }

  /** An offset into the ring as a page and a byte of it. */
  lemma InPage(v0: nat, off: nat)
    requires off < BUF_SIZE
    ensures off / PGSIZE < RINGBUF_SIZE && off == off / PGSIZE * PGSIZE + off % PGSIZE
    ensures v0 * PGSIZE + off == (v0 + off / PGSIZE) * PGSIZE + off % PGSIZE
    ensures v0 * PGSIZE + off + BUF_SIZE == (v0 + (off / PGSIZE + RINGBUF_SIZE)) * PGSIZE + off % PGSIZE
  {
  }

  lemma WindowByte(p0: map<nat, Page>, t0: Tree, p: map<nat, Page>, t: Tree, v0: nat, i: nat, o: nat, bufPA: seq<nat>,
                   book: nat)
    requires TableOk(p, t) && |bufPA| == RINGBUF_SIZE && Window(p0, t0, p, t, v0, 33, bufPA, book)
    requires i < 33 && v0 + i < MAXVPN && o < PGSIZE
    ensures Phys(p, t.root, (v0 + i) * PGSIZE + o) == WindowPage(bufPA, book, i) * PGSIZE + o
  {
    WindowEntry(p0, t0, p, t, v0, i, bufPA, book);
    hide TableOk, Window, Translate, WindowPage, Ppn;
    assert ((v0 + i) * PGSIZE + o) / PGSIZE == v0 + i && ((v0 + i) * PGSIZE + o) % PGSIZE == o;
  }

  lemma WindowEntry(p0: map<nat, Page>, t0: Tree, p: map<nat, Page>, t: Tree, v0: nat, i: nat, bufPA: seq<nat>,
                    book: nat)
    requires TableOk(p, t) && |bufPA| == RINGBUF_SIZE && Window(p0, t0, p, t, v0, 33, bufPA, book)
    requires i < 33 && v0 + i < MAXVPN
    ensures Ppn(Translate(p, t.root, v0 + i)) == WindowPage(bufPA, book, i)
  {
    TranslateIsFlat(p, t, v0 + i);
    EntryParts(WindowPage(bufPA, book, i), RING_PERM);
    hide TableOk, Flat, Translate, LeafEntry;
  }

  // ------------------------------------------------------ exit with a ring mapped

  /** Outside the ring slots the table maps what a process of n pages has. */
  ghost predicate ProcessAndRings(p: map<nat, Page>, t: Tree, n: nat) {
    forall v: nat :: !(MAP_START <= v < TRAPFRAME) ==>
      (Flat(p, t, v) != 0 <==> v < n || v == TRAPFRAME || v == TRAMPOLINE)
  }

  /** Teardown by proc_freepagetable, which knows nothing of rings, meets its
      condition exactly when no ring slot has anything mapped. */
  lemma TeardownNeedsNoRing(p: map<nat, Page>, t: Tree, n: nat)
    requires ProcessAndRings(p, t, n) && n <= MAP_START
    ensures Teardown.ProcessLeaves(p, t, n) <==> forall k :: 0 <= k < 10 ==> SlotFree(p, t, k)
  {
    hide Flat;
    if forall k :: 0 <= k < 10 ==> SlotFree(p, t, k) {
      forall v: nat | MAP_START <= v < TRAPFRAME
        ensures Flat(p, t, v) == 0
      {
        assert SlotFree(p, t, (v - MAP_START) / SPACE_JUMP);
      }
    }
  }

  /** A mapped ring is in the way: nothing unmaps it on exit, so the process's page
      table fails proc_freepagetable's condition. */
  lemma MappedRingBlocksTeardown(p0: map<nat, Page>, t0: Tree, p: map<nat, Page>, t: Tree, k: nat, bufPA: seq<nat>,
                                 book: nat, n: nat)
    requires k < 10 && |bufPA| == RINGBUF_SIZE && Window(p0, t0, p, t, Slot(k), 33, bufPA, book) && n <= MAP_START
    ensures !Teardown.ProcessLeaves(p, t, n)
  {
    EntryParts(WindowPage(bufPA, book, 0), RING_PERM);
    hide Flat;
    assert Flat(p, t, Slot(k)) == LeafEntry(WindowPage(bufPA, book, 0), RING_PERM);
  }

  // ------------------------------------------------------- processSpace_mapper

  /** The fields of struct ringbuf that the mapper uses. */
  class RingBuf {
    var bufPA: seq<nat>
    var vabuf: nat
    var book: nat

    constructor ()
      ensures |bufPA| == RINGBUF_SIZE
    {
      bufPA := seq(RINGBUF_SIZE, i => 0);
      vabuf := 0;
      book := 0;
    }
  }

  /** processSpace_mapper: map the ring into the first slot that is not taken.  With
      newmap the ring's pages are allocated on the way (an exhausted allocator
      yields page 0, which the code maps like any other).  false stands for -1 and
      for the panic on the book page. */
  method ProcessSpaceMapper(m: Machine, root: nat, ring: RingBuf, newmap: bool, ghost t: Tree)
    returns (ok: bool, ghost t': Tree, ghost slot: nat)
    requires m.Valid() && TableOk(m.pages, t) && t.root == root && t.owner.Keys !! Listed(m.free)
    requires |ring.bufPA| == RINGBUF_SIZE && SlotsOk(m.pages, t)
    modifies m, ring
    ensures ok ==> m.Valid() && TableOk(m.pages, t') && t'.root == root && |ring.bufPA| == RINGBUF_SIZE
    ensures ok ==> slot < 10 && ring.vabuf == Slot(slot) * PGSIZE && SlotFree(old(m.pages), t, slot)
    ensures ok ==> forall k :: 0 <= k < slot ==> SlotTaken(old(m.pages), t, k)
    ensures ok ==> Window(old(m.pages), t, m.pages, t', Slot(slot), 33, ring.bufPA, ring.book)
    ensures ok && !newmap ==> ring.bufPA == old(ring.bufPA) && ring.book == old(ring.book)
    ensures ok ==> Conserved(old(m.pages), old(m.free), t.owner.Keys, m.pages, m.free,
                             t'.owner.Keys + NewPages(ring.bufPA, ring.book, if newmap then 17 else 0))
    ensures ok && newmap ==> DistinctPages(ring.bufPA, ring.book, 17)
    ensures !ok ==> (forall k :: 0 <= k < 10 ==> SlotTaken(old(m.pages), t, k))
                    || (slot < 10 && !SlotTaken(old(m.pages), t, slot)
                        && |old(m.free)| < RingNeeds(t, Slot(slot), newmap))
    ensures ok && !newmap ==> |old(m.free)| >= RingNeeds(t, Slot(slot), newmap)
    ensures ok && newmap && |old(m.free)| >= RingNeeds(t, Slot(slot), newmap) ==>
              NoNull(ring.bufPA, 16) && ring.book != 0
  {
    hide FreeListOk, TableOk, Flat, Conserved, Window, SlotFree, SlotTaken, SlotsOk, Listed, UserAddr, NewPages,
      DistinctPages, NewTables, Reaches;
    var start := MAP_START;
    slot := 0;
    SlotAt(m.pages, t, 0);
    var pa := m.WalkAddr(root, start * PGSIZE, t);
    while pa != 0
      invariant slot < 10 && start == Slot(slot) && m.pages == old(m.pages) && m.free == old(m.free)
      invariant m.freelist == old(m.freelist)
      invariant pa == UserAddr(m.pages, t, Slot(slot) * PGSIZE)
      invariant forall k :: 0 <= k < slot ==> SlotTaken(old(m.pages), t, k)
      invariant |ring.bufPA| == RINGBUF_SIZE && ring.bufPA == old(ring.bufPA) && ring.book == old(ring.book)
      decreases 10 - slot
    {
      SlotAt(m.pages, t, slot);
      start := start + SPACE_JUMP;
      if start > MAXMAPLOC {
        return false, t, slot;
      }
      slot := slot + 1;
      pa := m.WalkAddr(root, start * PGSIZE, t);
    }
    SlotAt(m.pages, t, slot);
    ring.vabuf := start * PGSIZE;
    ok, t' := MapRing(m, root, ring, newmap, start, t);
    MoreTables(t, start, 32, 33);
    if !ok {
      return;
    }
    ok, t' := MapBook(m, root, ring, newmap, start, t, t', old(m.pages), old(m.free));
    if ok {
      StateParts(old(m.pages), old(m.free), t, m.pages, m.free, t',
                 NewPages(ring.bufPA, ring.book, if newmap then 17 else 0));
    }
  }

  /** The free pages it takes to map a ring into a slot: its own pages, if it is new,
      and the tables that are missing. */
  ghost function RingNeeds(t: Tree, start: nat, newmap: bool): nat {
    (if newmap then 17 else 0) + NewTables(t, start, 33)
  }

  /** The first n ring pages were had. */
  ghost predicate NoNull(bufPA: seq<nat>, n: nat) {
    forall i :: 0 <= i < n && i < |bufPA| ==> bufPA[i] != 0
  }

  /** i pages are mapped and the tables for them are there.  As long as memory lasts
      no page is null, and the free list is shorter by just what was used. */
  ghost predicate Spent(t: Tree, f0: nat, t': Tree, f: nat, start: nat, i: nat, own: nat, newmap: bool, bufPA: seq<nat>)
  {
    && Reaches(t, t', start, i)
    && (!newmap || f0 >= RingNeeds(t, start, newmap) ==>
          f0 == f + own + NewTables(t, start, i) && (newmap ==> NoNull(bufPA, own)))
  }

  lemma SpentNone(t: Tree, f: nat, start: nat, newmap: bool, bufPA: seq<nat>)
    ensures Spent(t, f, t, f, start, 0, 0, newmap, bufPA)
  {
    hide Reaches, NewTables;
    ReachesNone(t, start);
  }

  /** A page taken for the ring, out of a list that is not empty while memory lasts. */
  lemma SpentPage(t: Tree, f0: nat, t1: Tree, f1: nat, f2: nat, start: nat, i: nat, bufPA: seq<nat>, mem: nat)
    requires Spent(t, f0, t1, f1, start, i, i, true, bufPA) && i < RINGBUF_SIZE == |bufPA|
    requires (mem == 0 <==> f1 == 0) && (mem != 0 ==> f2 == f1 - 1)
    ensures Spent(t, f0, t1, f2, start, i, i + 1, true, bufPA[i := mem])
  {
    hide Reaches, NewTables;
    MoreTables(t, start, i, 33);
  }

  /** Mapping page i: it fails only when memory is short, and takes the tables it needs. */
  lemma SpentMapped(t: Tree, f0: nat, t1: Tree, f1: nat, t2: Tree, f2: nat, start: nat, i: nat, own: nat, newmap: bool,
                    bufPA: seq<nat>, ok: bool)
    requires Spent(t, f0, t1, f1, start, i, own, newmap, bufPA) && i < 33 && own <= (if newmap then 17 else 0)
    requires ok ==> f1 == f2 + NewTables(t1, start + i, 1) && Reaches(t1, t2, start + i, 1)
    requires !ok ==> f1 < NewTables(t1, start + i, 1)
    ensures ok ==> Spent(t, f0, t2, f2, start, i + 1, own, newmap, bufPA)
    ensures !ok ==> f0 < RingNeeds(t, start, newmap)
  {
    hide Reaches, NewTables;
    TablesAdd(t, t1, start, i);
    MoreTables(t, start, i + 1, 33);
    if ok {
      ReachesMore(t, t1, t2, start, i);
    }
  }

  lemma SlotAt(pages: map<nat, Page>, t: Tree, k: nat)
    ensures SlotTaken(pages, t, k) <==> UserAddr(pages, t, Slot(k) * PGSIZE) != 0
    ensures SlotsOk(pages, t) && k < 10 && UserAddr(pages, t, Slot(k) * PGSIZE) == 0 ==> SlotFree(pages, t, k)
    ensures SlotFree(pages, t, k) ==> Unmapped(pages, t, Slot(k), SPACE_JUMP)
  {
    hide Flat;
  }

  /** The pages the mapper took from the free list, of the first n it asked for. */
  ghost function NewPages(bufPA: seq<nat>, book: nat, n: nat): set<nat> {
    (set i | 0 <= i < n && i < |bufPA| && bufPA[i] != 0 :: bufPA[i]) + (if n > RINGBUF_SIZE
                                                                        && book != 0 then {book} else {})
  }

  /** Those that are not null are distinct. */
  ghost predicate DistinctPages(bufPA: seq<nat>, book: nat, n: nat) {
    && (forall i, j :: 0 <= i < j < n && j < |bufPA| && bufPA[i] != 0 ==> bufPA[i] != bufPA[j])
    && (n > RINGBUF_SIZE ==> forall i :: 0 <= i < |bufPA| && bufPA[i] != 0 ==> bufPA[i] != book)
  }

  /** Tables intact, and nothing lost: x are the pages taken for the ring so far. */
  ghost predicate Mapping(p0: map<nat, Page>, f0: seq<nat>, t0: Tree, p: map<nat, Page>, f: seq<nat>, t: Tree,
                          x: set<nat>) {
    && TableOk(p, t) && t.root == t0.root
    && Conserved(p0, f0, t0.owner.Keys, p, f, t.owner.Keys + x)
    && x !! t.owner.Keys && x <= p.Keys
  }

  lemma StateParts(p0: map<nat, Page>, f0: seq<nat>, t0: Tree, p: map<nat, Page>, f: seq<nat>, t: Tree, x: set<nat>)
    requires Mapping(p0, f0, t0, p, f, t, x)
    ensures TableOk(p, t) && t.root == t0.root && Conserved(p0, f0, t0.owner.Keys, p, f, t.owner.Keys + x)
    ensures (t.owner.Keys + x) !! Listed(f) && t.owner.Keys !! Listed(f) && x !! t.owner.Keys && x <= p.Keys
  {
    hide TableOk;
  }

  lemma StateTaken(p0: map<nat, Page>, f0: seq<nat>, t0: Tree, p1: map<nat, Page>, f1: seq<nat>, t: Tree, x: set<nat>,
                   p2: map<nat, Page>, f2: seq<nat>, x2: set<nat>)
    requires Mapping(p0, f0, t0, p1, f1, t, x) && TableOk(p2, t) && p2.Keys == p1.Keys
    requires Conserved(p1, f1, t.owner.Keys + x, p2, f2, t.owner.Keys + x2) && x2 !! t.owner.Keys && x2 <= p2.Keys
    ensures Mapping(p0, f0, t0, p2, f2, t, x2)
  {
    hide TableOk;
    ConservedTrans(p0, f0, t0.owner.Keys, p1, f1, t.owner.Keys + x, p2, f2, t.owner.Keys + x2);
  }

  lemma StateMapped(p0: map<nat, Page>, f0: seq<nat>, t0: Tree, p1: map<nat, Page>, f1: seq<nat>, t1: Tree, x: set<nat>,
                    p2: map<nat, Page>, f2: seq<nat>, t2: Tree)
    requires Mapping(p0, f0, t0, p1, f1, t1, x) && TableOk(p2, t2) && t2.root == t1.root
    requires Conserved(p1, f1, t1.owner.Keys, p2, f2, t2.owner.Keys)
    ensures Mapping(p0, f0, t0, p2, f2, t2, x)
  {
    hide TableOk;
    ConservedFrame(p1, f1, t1.owner.Keys, p2, f2, t2.owner.Keys, x);
    ConservedTrans(p0, f0, t0.owner.Keys, p1, f1, t1.owner.Keys + x, p2, f2, t2.owner.Keys + x);
  }

  lemma WindowSame(p0: map<nat, Page>, t0: Tree, p1: map<nat, Page>, p2: map<nat, Page>, t: Tree, v0: nat, n: nat,
                   bufPA: seq<nat>, bufPA': seq<nat>, book: nat, book': nat)
    requires |bufPA| == |bufPA'| == RINGBUF_SIZE && Window(p0, t0, p1, t, v0, n, bufPA, book) && SameFlat(p1, t, p2, t)
    requires bufPA' == bufPA || (n < RINGBUF_SIZE && bufPA' == bufPA[n := bufPA'[n]])
    requires book' == book || n <= 2 * RINGBUF_SIZE
    ensures Window(p0, t0, p2, t, v0, n, bufPA', book')
  {
    hide Flat, LeafEntry;
    forall i: nat | i < n
      ensures WindowPage(bufPA', book', i) == WindowPage(bufPA, book, i)
    {
    }
  }

  lemma WindowNext(p0: map<nat, Page>, t0: Tree, p1: map<nat, Page>, t1: Tree, p2: map<nat, Page>, t2: Tree, v0: nat,
                   n: nat, bufPA: seq<nat>, book: nat)
    requires |bufPA| == RINGBUF_SIZE && Window(p0, t0, p1, t1, v0, n, bufPA, book)
    requires Inserted(p1, t1, p2, t2, v0 + n, 1, WindowPage(bufPA, book, n), RING_PERM)
    ensures Window(p0, t0, p2, t2, v0, n + 1, bufPA, book)
  {
    hide Flat, LeafEntry, WindowPage;
  }

  lemma WindowFree(p0: map<nat, Page>, t0: Tree, p: map<nat, Page>, t: Tree, v0: nat, n: nat, bufPA: seq<nat>,
                   book: nat)
    requires |bufPA| == RINGBUF_SIZE && Window(p0, t0, p, t, v0, n, bufPA, book) && Unmapped(p0, t0, v0, SPACE_JUMP)
    requires n < SPACE_JUMP
    ensures Flat(p, t, v0 + n) == 0
  {
    hide Flat, LeafEntry, WindowPage;
    assert Flat(p, t, v0 + n) == Flat(p0, t0, v0 + n);
  }

  lemma NewPagesNone(bufPA: seq<nat>, book: nat)
    ensures NewPages(bufPA, book, 0) == {} && DistinctPages(bufPA, book, 0)
  {
  }

  lemma NewPagesStep(bufPA: seq<nat>, book: nat, n: nat, mem: nat)
    requires |bufPA| == RINGBUF_SIZE && n < RINGBUF_SIZE && DistinctPages(bufPA, book, n)
    requires mem !in NewPages(bufPA, book, n)
    ensures NewPages(bufPA[n := mem], book, n + 1) == NewPages(bufPA, book, n) + (if mem == 0 then {} else {mem})
    ensures DistinctPages(bufPA[n := mem], book, n + 1)
  {
    var b := bufPA[n := mem];
    assert forall i :: 0 <= i < n ==> b[i] == bufPA[i];
    forall i, j | 0 <= i < j < n + 1 && b[i] != 0
      ensures b[i] != b[j]
    {
      assert b[i] in NewPages(bufPA, book, n);
    }
    forall p | p in NewPages(bufPA, book, n)
      ensures p in NewPages(b, book, n + 1)
    {
      var i :| 0 <= i < n && bufPA[i] != 0 && bufPA[i] == p;
      assert b[i] == p;
    }
    if mem != 0 {
      assert b[n] == mem;
    }
  }

  lemma NewPagesBook(bufPA: seq<nat>, book: nat, mem: nat)
    requires |bufPA| == RINGBUF_SIZE && DistinctPages(bufPA, book, 16) && mem !in NewPages(bufPA, book, 16)
    ensures NewPages(bufPA, mem, 17) == NewPages(bufPA, book, 16) + (if mem == 0 then {} else {mem})
    ensures DistinctPages(bufPA, mem, 17)
  {
    assert forall i :: 0 <= i < 16 && bufPA[i] != 0 ==> bufPA[i] in NewPages(bufPA, book, 16);
  }

  /** How many pages of its own the mapper has asked for after i iterations. */
  function Asked(newmap: bool, i: nat): nat {
    if !newmap then 0 else if i < RINGBUF_SIZE then i else RINGBUF_SIZE
  }

  /** All 32 ring pages are mapped. */
  ghost predicate RingMapped(p0: map<nat, Page>, f0: seq<nat>, t: Tree, p: map<nat, Page>, f: seq<nat>, t1: Tree,
                             start: nat, newmap: bool, bufPA: seq<nat>, book: nat) {
    && |bufPA| == RINGBUF_SIZE && Window(p0, t, p, t1, start, 32, bufPA, book)
    && Mapping(p0, f0, t, p, f, t1, NewPages(bufPA, book, Asked(newmap, 32)))
    && DistinctPages(bufPA, book, Asked(newmap, 32))
    && Spent(t, |f0|, t1, |f|, start, 32, Asked(newmap, 32), newmap, bufPA)
  }

  /** The loop over the 32 ring pages. */
  method MapRing(m: Machine, root: nat, ring: RingBuf, newmap: bool, start: nat, ghost t: Tree)
    returns (ok: bool, ghost t': Tree)
    requires m.Valid() && TableOk(m.pages, t) && t.root == root && t.owner.Keys !! Listed(m.free)
    requires |ring.bufPA| == RINGBUF_SIZE && start + SPACE_JUMP <= TRAPFRAME && Unmapped(m.pages, t, start, SPACE_JUMP)
    modifies m, ring`bufPA
    ensures !ok ==> |old(m.free)| < RingNeeds(t, start, newmap)
    ensures ok ==> m.Valid() && |ring.bufPA| == RINGBUF_SIZE && (!newmap ==> ring.bufPA == old(ring.bufPA))
    ensures ok ==> RingMapped(old(m.pages), old(m.free), t, m.pages, m.free, t', start, newmap, ring.bufPA, ring.book)
  {
    hide FreeListOk, TableOk, Flat, Conserved, Window, Listed, NewPages, DistinctPages, Mapping, SameFlat, Inserted,
      Unmapped, LeafEntry, Span, IsPerm, NewTables, Reaches, Spent;
    t' := t;
    SpentNone(t, |m.free|, start, newmap, ring.bufPA);
    RingStart(m.pages, m.free, t, start, ring.bufPA, ring.book);
    var i := 0;
    while i < RINGBUF_SIZE * 2
      invariant 0 <= i <= 32 && m.Valid() && |ring.bufPA| == RINGBUF_SIZE && (!newmap ==> ring.bufPA == old(ring.bufPA))
      invariant Window(old(m.pages), t, m.pages, t', start, i, ring.bufPA, ring.book)
      invariant Mapping(old(m.pages), old(m.free), t, m.pages, m.free, t',
                        NewPages(ring.bufPA, ring.book, Asked(newmap, i)))
      invariant DistinctPages(ring.bufPA, ring.book, Asked(newmap, i))
      invariant Spent(t, |old(m.free)|, t', |m.free|, start, i, Asked(newmap, i), newmap, ring.bufPA)
    {
      if i < RINGBUF_SIZE && newmap {
        ghost var p1, f1, b1 := m.pages, m.free, ring.bufPA;
        ghost var x := NewPages(ring.bufPA, ring.book, i);
        StateParts(old(m.pages), old(m.free), t, p1, f1, t', x);
        var mem := m.TakePage(Junk(5), t', x);
        ring.bufPA := ring.bufPA[i := mem];
        Took(old(m.pages), old(m.free), t, p1, f1, m.pages, m.free, t', b1, ring.book, i, mem);
        SpentPage(t, |old(m.free)|, t', |f1|, |m.free|, start, i, b1, mem);
        WindowSame(old(m.pages), t, p1, m.pages, t', start, i, b1, ring.bufPA, ring.book, ring.book);
      }
      ghost var p2, f2, t2 := m.pages, m.free, t';
      ghost var x := NewPages(ring.bufPA, ring.book, Asked(newmap, i + 1));
      StateParts(old(m.pages), old(m.free), t, p2, f2, t2, x);
      OnePage(start + i, ring.bufPA[i % RINGBUF_SIZE]);
      RingPerm();
      var r; ghost var n;
      r, t', n := m.MapPages(root, (start + i) * PGSIZE, PGSIZE, ring.bufPA[i % RINGBUF_SIZE] * PGSIZE, RING_PERM, t');
      WindowFree(old(m.pages), t, p2, t2, start, i, ring.bufPA, ring.book);
      SpentMapped(t, |old(m.free)|, t2, |f2|, t', |m.free|, start, i, Asked(newmap, i + 1), newmap, ring.bufPA,
                  r.Mapped?);
      if !r.Mapped? {
        return false, t';
      }
      StateMapped(old(m.pages), old(m.free), t, p2, f2, t2, x, m.pages, m.free, t');
      WindowNext(old(m.pages), t, p2, t2, m.pages, t', start, i, ring.bufPA, ring.book);
      i := i + 1;
    }
    return true, t';
  }

  /** The book page behind the ring. */
  method MapBook(m: Machine, root: nat, ring: RingBuf, newmap: bool, start: nat, ghost t: Tree, ghost t1: Tree,
                 ghost p0: map<nat, Page>, ghost f0: seq<nat>) returns (ok: bool, ghost t': Tree)
    requires m.Valid() && t.root == root && |ring.bufPA| == RINGBUF_SIZE && start + SPACE_JUMP <= TRAPFRAME
    requires Unmapped(p0, t, start, SPACE_JUMP)
    requires RingMapped(p0, f0, t, m.pages, m.free, t1, start, newmap, ring.bufPA, ring.book)
    modifies m, ring`book
    ensures !ok ==> |f0| < RingNeeds(t, start, newmap)
    ensures ok && !newmap ==> |f0| >= RingNeeds(t, start, newmap)
    ensures ok && newmap && |f0| >= RingNeeds(t, start, newmap) ==> NoNull(ring.bufPA, 16) && ring.book != 0
    ensures ok ==> m.Valid() && (!newmap ==> ring.book == old(ring.book))
    ensures ok ==> Window(p0, t, m.pages, t', start, 33, ring.bufPA, ring.book)
    ensures ok ==> Mapping(p0, f0, t, m.pages, m.free, t', NewPages(ring.bufPA, ring.book, if newmap then 17 else 0))
    ensures ok && newmap ==> DistinctPages(ring.bufPA, ring.book, 17)
  {
    hide FreeListOk, TableOk, Flat, Conserved, Window, Listed, NewPages, DistinctPages, Mapping, SameFlat, Inserted,
      Unmapped, LeafEntry, Span, IsPerm, NewTables, Reaches;
    ghost var p1, f1 := m.pages, m.free;
    MoreTables(t, start, 32, 33);
    ghost var x := NewPages(ring.bufPA, ring.book, Asked(newmap, 32));
    StateParts(p0, f0, t, p1, f1, t1, x);
    if newmap {
      ring.book := m.TakePage(Junk(5), t1, x);
      TookBook(p0, f0, t, p1, f1, m.pages, m.free, t1, ring.bufPA, old(ring.book), ring.book);
      WindowSame(p0, t, p1, m.pages, t1, start, 32, ring.bufPA, ring.bufPA, old(ring.book), ring.book);
    }
    ghost var p2, f2 := m.pages, m.free;
    x := NewPages(ring.bufPA, ring.book, if newmap then 17 else 0);
    StateParts(p0, f0, t, p2, f2, t1, x);
    OnePage(start + 32, ring.book);
    RingPerm();
    var r; ghost var n;
    r, t', n := m.MapPages(root, (start + 32) * PGSIZE, PGSIZE, ring.book * PGSIZE, RING_PERM, t1);
    WindowFree(p0, t, p2, t1, start, 32, ring.bufPA, ring.book);
    TablesAdd(t, t1, start, 32);
    if !r.Mapped? {
      return false, t';
    }
    StateMapped(p0, f0, t, p2, f2, t1, x, m.pages, m.free, t');
    WindowNext(p0, t, p2, t1, m.pages, t', start, 32, ring.bufPA, ring.book);
    return true, t';
  }

  lemma RingPerm()
    ensures IsPerm(RING_PERM)
  {
  }

  lemma RingStart(p: map<nat, Page>, f: seq<nat>, t: Tree, v0: nat, bufPA: seq<nat>, book: nat)
    requires TableOk(p, t) && t.owner.Keys !! Listed(f) && |bufPA| == RINGBUF_SIZE
    ensures Window(p, t, p, t, v0, 0, bufPA, book) && Mapping(p, f, t, p, f, t, NewPages(bufPA, book, 0))
    ensures DistinctPages(bufPA, book, 0)
  {
    hide TableOk, Flat, LeafEntry;
    NewPagesNone(bufPA, book);
    assert t.owner.Keys + {} == t.owner.Keys;
  }

  lemma Took(p0: map<nat, Page>, f0: seq<nat>, t0: Tree, p1: map<nat, Page>, f1: seq<nat>, p2: map<nat, Page>,
             f2: seq<nat>, t: Tree,
             bufPA: seq<nat>, book: nat, i: nat, mem: nat)
    requires |bufPA| == RINGBUF_SIZE && i < RINGBUF_SIZE && DistinctPages(bufPA, book, i)
    requires Mapping(p0, f0, t0, p1, f1, t, NewPages(bufPA, book, i)) && TableOk(p2, t) && p2.Keys == p1.Keys
    requires var x := NewPages(bufPA, book, i);
             if mem == 0 then Conserved(p1, f1, t.owner.Keys + x, p2, f2, t.owner.Keys + x)
             else
               && mem in p2 && mem !in t.owner && mem !in x
               && Conserved(p1, f1, t.owner.Keys + x, p2, f2, t.owner.Keys + x + {mem})
    ensures Mapping(p0, f0, t0, p2, f2, t, NewPages(bufPA[i := mem], book, i + 1))
    ensures DistinctPages(bufPA[i := mem], book, i + 1)
  {
    hide TableOk, Conserved, DistinctPages;
    NullIsNotNew(bufPA, book, i);
    NewPagesStep(bufPA, book, i, mem);
    var x := NewPages(bufPA, book, i);
    assert t.owner.Keys + (x + {mem}) == t.owner.Keys + x + {mem};
    assert x + {} == x;
    hide NewPages;
    StateTaken(p0, f0, t0, p1, f1, t, x, p2, f2, NewPages(bufPA[i := mem], book, i + 1));
  }

  lemma TookBook(p0: map<nat, Page>, f0: seq<nat>, t0: Tree, p1: map<nat, Page>, f1: seq<nat>, p2: map<nat, Page>,
                 f2: seq<nat>, t: Tree,
                 bufPA: seq<nat>, book: nat, mem: nat)
    requires |bufPA| == RINGBUF_SIZE && DistinctPages(bufPA, book, 16)
    requires Mapping(p0, f0, t0, p1, f1, t, NewPages(bufPA, book, 16)) && TableOk(p2, t) && p2.Keys == p1.Keys
    requires var x := NewPages(bufPA, book, 16);
             if mem == 0 then Conserved(p1, f1, t.owner.Keys + x, p2, f2, t.owner.Keys + x)
             else
               && mem in p2 && mem !in t.owner && mem !in x
               && Conserved(p1, f1, t.owner.Keys + x, p2, f2, t.owner.Keys + x + {mem})
    ensures Mapping(p0, f0, t0, p2, f2, t, NewPages(bufPA, mem, 17)) && DistinctPages(bufPA, mem, 17)
  {
    hide TableOk, Conserved, DistinctPages;
    NullIsNotNew(bufPA, book, 16);
    NewPagesBook(bufPA, book, mem);
    var x := NewPages(bufPA, book, 16);
    assert t.owner.Keys + (x + {mem}) == t.owner.Keys + x + {mem};
    assert x + {} == x;
    hide NewPages;
    StateTaken(p0, f0, t0, p1, f1, t, x, p2, f2, NewPages(bufPA, mem, 17));
  }

  lemma NullIsNotNew(bufPA: seq<nat>, book: nat, n: nat)
    requires n <= RINGBUF_SIZE
    ensures 0 !in NewPages(bufPA, book, n)
  {
  }
}
