/** kalloc.c and vm.c on one physical memory. */
module Vm {
  import opened Common
  import opened PageTable

  const PTE_V: nat := 1
  const PTE_R: nat := 2
  const PTE_W: nat := 4
  const PTE_X: nat := 8
  const PTE_U: nat := 16

  function PgRoundUp(sz: nat): nat { (sz + PGSIZE - 1) / PGSIZE }

  /** The pages that hold the bytes below sz, and no more. */
  lemma PagesCover(sz: nat, va: nat)
    ensures va / PGSIZE < PgRoundUp(sz) <==> exists b: nat :: b < sz && InSamePage(b, va)
  {
    if va / PGSIZE < PgRoundUp(sz) {
      assert InSamePage(va / PGSIZE * PGSIZE, va);
    }
  }

  predicate InSamePage(a: nat, b: nat) { a / PGSIZE == b / PGSIZE }

  // -------------------------------------------------------------- free pages

  /** The page filled with one byte value. */
  function Junk(byte: nat): Page { seq(512, i => 0x101_0101_0101_0101 * byte) }

  /** The free pages are chained through their first word; 0 ends the chain. */
  ghost predicate FreeListOk(pages: map<nat, Page>, head: nat, free: seq<nat>) {
    && 0 !in pages
    && head == (if free == [] then 0 else free[0])
    && (forall i, j :: 0 <= i < j < |free| ==> free[i] != free[j])
    && (forall k :: 0 <= k < |free| ==> free[k] in pages && pages[free[k]][0] == PGSIZE * After(free, k))
  }

  function After(free: seq<nat>, k: nat): nat {
    if k + 1 < |free| then free[k + 1] else 0
  }

  lemma EmptyFreeList(end: nat, ram: map<nat, Page>)
    requires end > 0 && forall p :: p in ram ==> PgRoundUp(end) <= p
    ensures FreeListOk(ram, 0, [])
  {
  }

  lemma PushOk(pages: map<nat, Page>, head: nat, free: seq<nat>, p: nat, pages': map<nat, Page>)
    requires FreeListOk(pages, head, free) && p in pages && p !in free && pages'.Keys == pages.Keys
    requires pages'[p][0] == PGSIZE * head && forall q :: q in free ==> pages'[q] == pages[q]
    ensures FreeListOk(pages', p, [p] + free)
  {
    var free' := [p] + free;
    forall k | 0 <= k < |free'|
      ensures free'[k] in pages' && pages'[free'[k]][0] == PGSIZE * After(free', k)
    {
      if k > 0 {
        assert free'[k] == free[k - 1] && After(free', k) == After(free, k - 1);
      }
    }
  }

  lemma PopOk(pages: map<nat, Page>, head: nat, free: seq<nat>, pages': map<nat, Page>)
    requires FreeListOk(pages, head, free) && free != [] && pages'.Keys == pages.Keys
    requires forall q :: q in free[1..] ==> pages'[q] == pages[q]
    ensures head == free[0] && head in pages && head !in free[1..]
    ensures FreeListOk(pages', pages[head][0] / PGSIZE, free[1..])
  {
    var rest := free[1..];
    forall k | 0 <= k < |rest|
      ensures rest[k] in pages' && pages'[rest[k]][0] == PGSIZE * After(rest, k)
    {
      assert rest[k] == free[k + 1] && After(rest, k) == After(free, k + 1);
    }
    assert pages[head][0] == PGSIZE * After(free, 0);
  }

  /** Conservation.  Free pages and owned pages together stay the same set and
      stay apart, and no other page of memory is written. */
  ghost predicate Conserved(pages: map<nat, Page>, free: seq<nat>, own: set<nat>,
                            pages': map<nat, Page>, free': seq<nat>, own': set<nat>) {
    && pages'.Keys == pages.Keys
    && own' + Listed(free') == own + Listed(free)
    && own' !! Listed(free')
    && (forall p :: p in pages && p !in own && p !in free ==> pages'[p] == pages[p])
  }

  lemma ConservedTrans(p0: map<nat, Page>, f0: seq<nat>, o0: set<nat>, p1: map<nat, Page>, f1: seq<nat>, o1: set<nat>,
                       p2: map<nat, Page>, f2: seq<nat>, o2: set<nat>)
    requires Conserved(p0, f0, o0, p1, f1, o1) && Conserved(p1, f1, o1, p2, f2, o2)
    ensures Conserved(p0, f0, o0, p2, f2, o2)
  {
    forall p | p in p0 && p !in o0 && p !in f0
      ensures p2[p] == p0[p]
    {
      assert p !in o0 + Listed(f0);
      assert p !in o1 && p !in f1;
    }
  }

  class Machine {
    var pages: map<nat, Page>
    var freelist: nat
    ghost var free: seq<nat>

    ghost predicate Valid()
      reads this
    {
      FreeListOk(pages, freelist, free)
    }

    /** kinit: every whole page between the end of the kernel and PHYSTOP is free. */
    constructor (end: nat, phystop: nat, ram: map<nat, Page>)
      requires end > 0 && PgRoundUp(end) <= phystop / PGSIZE
      requires forall p :: p in ram <==> PgRoundUp(end) <= p < phystop / PGSIZE
      ensures Valid() && pages.Keys == ram.Keys
      ensures Listed(free) == ram.Keys
    {
      pages := ram;
      freelist := 0;
      free := [];
      new;
      hide FreeListOk;
      EmptyFreeList(end, ram);
      FreeRange(end, phystop);
    }

    /** freerange: free the whole pages between two addresses, lowest first. */
    method FreeRange(start: nat, end: nat)
      requires Valid() && PgRoundUp(start) <= end / PGSIZE
      requires forall p :: PgRoundUp(start) <= p < end / PGSIZE ==> p in pages && p !in free
      modifies this
      ensures Valid() && pages.Keys == old(pages.Keys)
      ensures forall q :: q in free <==> q in old(free) || PgRoundUp(start) <= q < end / PGSIZE
    {
      hide FreeListOk, PgRoundUp;
      var p := PgRoundUp(start);
      while p * PGSIZE + PGSIZE <= end
        invariant PgRoundUp(start) <= p <= end / PGSIZE
        invariant Valid() && pages.Keys == old(pages.Keys)
        invariant forall q :: q in free <==> q in old(free) || PgRoundUp(start) <= q < p
      {
        assert p < end / PGSIZE;
        Kfree(p);
        p := p + 1;
      }
    }

    /** kfree: fill with junk and push on the free list.  The page must be a page
        of RAM (kfree's own check) that is not free already. */
    method Kfree(p: nat)
      requires Valid() && p in pages && p !in free
      modifies this
      ensures Valid() && free == [p] + old(free) && pages.Keys == old(pages.Keys)
      ensures forall q :: q in pages && q != p ==> pages[q] == old(pages)[q]
    {
      pages := pages[p := Junk(1)];
      pages := SetEntry(pages, p, 0, PGSIZE * freelist);
      PushOk(old(pages), freelist, free, p, pages);
      freelist := p;
      free := [p] + free;
    }

    /** kalloc: pop a page and fill it with junk; 0 when none is left. */
    method Kalloc() returns (r: nat)
      requires Valid()
      modifies this
      ensures Valid() && (r == 0 <==> old(free) == [])
      ensures r == 0 ==> pages == old(pages) && free == old(free)
      ensures r != 0 ==> r == old(free)[0] && free == old(free)[1..] && r in old(pages) && r !in free
                         && pages == old(pages)[r := Junk(5)]
    {
      r := freelist;
      if r != 0 {
        assert r == free[0];
        freelist := pages[r][0] / PGSIZE;
        pages := pages[r := Junk(5)];
        PopOk(old(pages), r, free, pages);
        free := free[1..];
      }
    }
  
    /** walk: the level-0 table that holds the entry of virtual page v, creating the
        tables on the way when asked to.  Nothing is mapped or unmapped. */
    method Walk(root: nat, v: nat, alloc: bool, ghost t: Tree) returns (ok: bool, table: nat, ghost t': Tree)
      requires Valid() && TableOk(pages, t) && t.root == root && v < MAXVPN && t.owner.Keys !! Listed(free)
      modifies this
      ensures Valid() && TableOk(pages, t') && t'.root == root
      ensures SameFlat(old(pages), t, pages, t')
      ensures Conserved(old(pages), old(free), t.owner.Keys, pages, free, t'.owner.Keys)
      ensures t.owner.Keys <= t'.owner.Keys
      ensures ok <==> v / 512 in t'.low
      ensures ok ==> table == t'.low[v / 512]
      ensures !alloc ==> t' == t && pages == old(pages) && free == old(free) && freelist == old(freelist)
      ensures alloc && !ok ==> free == []
      ensures alloc ==> (ok <==> |old(free)| >= Missing(t, v))
      ensures alloc && ok ==> Descended(t, |old(free)|, t', |free|, v, 0)
    {
      hide FreeListOk, Conserved, TableOk, SameFlat, NodeAt, Descended, Missing;
      StartWalk(pages, free, t, v);
      table, t' := root, t;
      var level := 2;
      while level > 0
        invariant 0 <= level <= 2 && NodeAt(t', level, v, table)
        invariant Valid() && TableOk(pages, t') && t'.root == root && SameFlat(old(pages), t, pages, t')
        invariant Conserved(old(pages), old(free), t.owner.Keys, pages, free, t'.owner.Keys)
        invariant t.owner.Keys <= t'.owner.Keys
        invariant !alloc ==> t' == t && pages == old(pages) && free == old(free) && freelist == old(freelist)
        invariant Descended(t, |old(free)|, t', |free|, v, level)
      {
        StepDown(pages, t', level, v, table);
        ghost var t1, n1 := t', |free|;
        var pte := pages[table][Px(level, v)];
        if V(pte) {
          table := Ppn(pte);
        } else {
          if !alloc {
            return false, 0, t';
          }
          table, t' := AddTable(level, v, table, t', old(pages), old(free), t);
          if table == 0 {
            TooFew(t, |old(free)|, t', v, level);
            return false, 0, t';
          }
        }
        Lower(t, |old(free)|, t1, n1, t', |free|, v, level, table);
        level := level - 1;
      }
      Enough(t, |old(free)|, t', |free|, v);
      EndWalk(t', v, table);
      ok := true;
    }

    /** The allocating branch of walk: a zeroed page becomes the next table down. */
    method AddTable(level: nat, v: nat, table: nat, ghost t: Tree,
                    ghost pages0: map<nat, Page>, ghost free0: seq<nat>, ghost t0: Tree)
      returns (p: nat, ghost t': Tree)
      requires 1 <= level <= 2 && v < MAXVPN && NodeAt(t, level, v, table) && Absent(t, level, v)
      requires Valid() && TableOk(pages, t) && SameFlat(pages0, t0, pages, t)
      requires Conserved(pages0, free0, t0.owner.Keys, pages, free, t.owner.Keys)
      modifies this
      ensures Valid() && TableOk(pages, t') && t'.root == t.root && SameFlat(pages0, t0, pages, t')
      ensures Conserved(pages0, free0, t0.owner.Keys, pages, free, t'.owner.Keys) && t.owner.Keys <= t'.owner.Keys
      ensures p == 0 ==> free == [] && free == old(free) && t' == t
      ensures p != 0 ==> NodeAt(t', level - 1, v, p) && t' == Grown(t, level, v, p) && |free| == |old(free)| - 1
    {
      hide FreeListOk, Conserved, TableOk, SameFlat;
      p := Kalloc();
      t' := t;
      if p != 0 {
        OwnersAreNotFree(pages0, free0, t0.owner.Keys, old(pages), old(free), t);
        GrowOk(old(pages), t, level, v, table, p);
        GrowConserves(old(pages), old(free), t, level, v, table);
        FreeFrame(pages, GrownPages(old(pages), table, level, v, p), freelist, free);
        t' := Grown(t, level, v, p);
        pages := pages[p := ZeroPage()];
        pages := SetEntry(pages, table, Px(level, v), Pointer(p));
        assert pages == GrownPages(old(pages), table, level, v, p);
        ConservedTrans(pages0, free0, t0.owner.Keys, old(pages), old(free), t.owner.Keys, pages, free, t'.owner.Keys);
        SameFlatTrans(pages0, t0, old(pages), t, pages, t');
      }
    }

    /** walkaddr: the physical address of a user page, or 0. */
    method WalkAddr(root: nat, va: nat, ghost t: Tree) returns (pa: nat)
      requires Valid() && TableOk(pages, t) && t.root == root && t.owner.Keys !! Listed(free)
      modifies this
      ensures pages == old(pages) && free == old(free) && freelist == old(freelist)
      ensures pa == UserAddr(pages, t, va)
    {
      if va >= MAXVA {
        return 0;
      }
      hide FreeListOk, Conserved, TableOk, SameFlat;
      var ok, table, _ := Walk(root, va / PGSIZE, false, t);
      if !ok {
        return 0;
      }
      InTree(pages, t, 0, va / PGSIZE, table);
      FlatAt(pages, t, va / PGSIZE);
      var pte := pages[table][va / PGSIZE % 512];
      if !V(pte) {
        return 0;
      }
      if !U(pte) {
        return 0;
      }
      return Ppn(pte) * PGSIZE;
    }

    /** *pte = e, for the level-0 entry of virtual page v. */
    method SetPte(table: nat, v: nat, e: nat, ghost t: Tree)
      requires Valid() && TableOk(pages, t) && t.owner.Keys !! Listed(free)
      requires v / 512 in t.low && table == t.low[v / 512] && LowEntryOk(e)
      modifies this`pages
      ensures Valid() && TableOk(pages, t) && FlatSet(old(pages), t, pages, t, v, e)
      ensures Conserved(old(pages), free, t.owner.Keys, pages, free, t.owner.Keys)
      ensures forall p :: p in old(pages) && p !in t.owner ==> p in pages && pages[p] == old(pages)[p]
    {
      InTree(pages, t, 0, v, table);
      hide FreeListOk, TableOk, Flat;
      SetLeafOk(pages, t, v, e);
      FreeFrame(pages, SetEntry(pages, table, v % 512, e), freelist, free);
      pages := SetEntry(pages, table, v % 512, e);
    }

    /** mappages: map the pages that va .. va+size-1 touches to consecutive physical
        pages.  n counts the pages mapped before it stopped; Remap stands for the
        panic of that name. */
    method MapPages(root: nat, va: nat, size: nat, pa: nat, perm: nat, ghost t: Tree)
      returns (r: MapResult, ghost t': Tree, ghost n: nat)
      requires Valid() && TableOk(pages, t) && t.root == root && t.owner.Keys !! Listed(free)
      requires size >= 1 && va + size <= MAXVA && IsPerm(perm)
      modifies this
      ensures Valid() && TableOk(pages, t') && t'.root == root
      ensures Conserved(old(pages), old(free), t.owner.Keys, pages, free, t'.owner.Keys)
      ensures t.owner.Keys <= t'.owner.Keys
      ensures Inserted(old(pages), t, pages, t', va / PGSIZE, n, pa / PGSIZE, perm)
      ensures Unmapped(old(pages), t, va / PGSIZE, n)
      ensures n <= Span(va, size) && (r.Mapped? <==> n == Span(va, size))
      ensures r.NoMemory? ==> free == [] && |old(free)| < NewTables(t, va / PGSIZE, n + 1)
      ensures r.Remap? ==> Flat(old(pages), t, va / PGSIZE + n) != 0
      ensures |old(free)| >= NewTables(t, va / PGSIZE, n)
      ensures r.Mapped? ==> |old(free)| == |free| + NewTables(t, va / PGSIZE, n) && Reaches(t, t', va / PGSIZE, n)
    {
      hide FreeListOk, TableOk, Flat, Conserved, Inserted, Unmapped, SameFlat, FlatSet, Reaches, NewTables, Missing,
        Descended;
      var a, last, p := va / PGSIZE, (va + size - 1) / PGSIZE, pa / PGSIZE;
      t', n := t, 0;
      NothingInserted(pages, free, t, a, p, perm);
      ReachesNone(t, a);
      while true
        invariant a == va / PGSIZE + n && p == pa / PGSIZE + n && n < Span(va, size)
        invariant last == va / PGSIZE + Span(va, size) - 1
        invariant Valid() && TableOk(pages, t') && t'.root == root && t.owner.Keys <= t'.owner.Keys
        invariant Conserved(old(pages), old(free), t.owner.Keys, pages, free, t'.owner.Keys)
        invariant Inserted(old(pages), t, pages, t', va / PGSIZE, n, pa / PGSIZE, perm)
        invariant Unmapped(old(pages), t, va / PGSIZE, n) && Reaches(t, t', va / PGSIZE, n)
        invariant |old(free)| == |free| + NewTables(t, va / PGSIZE, n)
        decreases Span(va, size) - n
      {
        ghost var p0, f0, t0 := pages, free, t';
        ConservedApart(old(pages), old(free), t.owner.Keys, pages, free, t'.owner.Keys);
        var ok, table;
        OneMoreTable(t, t', va / PGSIZE, n);
        ok, table, t' := Walk(root, a, true, t');
        ConservedTrans(old(pages), old(free), t.owner.Keys, p0, f0, t0.owner.Keys, pages, free, t'.owner.Keys);
        InsertedSame(old(pages), t, p0, t0, pages, t', va / PGSIZE, n, pa / PGSIZE, perm);
        if !ok {
          return NoMemory, t', n;
        }
        Enough(t0, |f0|, t', |free|, a);
        ReachesNext(t, t0, |f0|, t', |free|, va / PGSIZE, n);
        InTree(pages, t', 0, a, table);
        FlatAt(pages, t', a);
        InsertedAt(old(pages), t, pages, t', va / PGSIZE, n, pa / PGSIZE, perm);
        if V(pages[table][a % 512]) {
          return Remap, t', n;
        }
        ConservedApart(old(pages), old(free), t.owner.Keys, pages, free, t'.owner.Keys);
        EntryParts(p, perm);
        p0 := pages;
        SetPte(table, a, LeafEntry(p, perm), t');
        ConservedTrans(old(pages), old(free), t.owner.Keys, p0, free, t'.owner.Keys, pages, free, t'.owner.Keys);
        InsertedNext(old(pages), t, p0, t', pages, t', va / PGSIZE, n, pa / PGSIZE, perm);
        n := n + 1;
        if a == last {
          return Mapped, t', n;
        }
        a := a + 1;
        p := p + 1;
      }
    }

    /** uvmunmap: remove npages mappings from va on, and free their pages if asked
        to.  False stands for one of its panics. */
    method UvmUnmap(root: nat, va: nat, npages: nat, doFree: bool, ghost t: Tree) returns (ok: bool)
      requires Valid() && TableOk(pages, t) && t.root == root && t.owner.Keys !! Listed(free)
      requires va / PGSIZE + npages <= MAXVPN
      requires doFree ==> OwnsRange(pages, t, va / PGSIZE, npages)
                          && UserPages(pages, t, va / PGSIZE, npages) !! Listed(free)
      modifies this
      ensures ok <==> va % PGSIZE == 0 && AllMapped(old(pages), t, va / PGSIZE, npages)
      ensures ok ==> Valid() && TableOk(pages, t) && Cleared(old(pages), t, pages, va / PGSIZE, npages)
      ensures ok ==> Conserved(old(pages), old(free), t.owner.Keys + Range(old(pages), t, va / PGSIZE, npages, doFree),
                               pages, free, t.owner.Keys)
    {
      hide FreeListOk, TableOk, Flat, Conserved, Cleared, AllMapped, OwnsRange, UserPages;
      if va % PGSIZE != 0 {
        return false;
      }
      ghost var first := va / PGSIZE;
      var a := va / PGSIZE;
      NothingCleared(pages, free, t, first, npages, doFree);
      while a < va / PGSIZE + npages
        invariant first <= a <= first + npages && Valid() && TableOk(pages, t)
        invariant Cleared(old(pages), t, pages, first, a - first) && AllMapped(old(pages), t, first, a - first)
        invariant Conserved(old(pages), old(free), t.owner.Keys + Range(old(pages), t, first, npages, doFree),
                            pages, free, t.owner.Keys + Range(old(pages), t, a, first + npages - a, doFree))
      {
        ghost var p0, f0 := pages, free;
        ghost var own0, own1 := t.owner.Keys + Range(old(pages), t, a, first + npages - a, doFree),
                                t.owner.Keys + Range(old(pages), t, a + 1, first + npages - a - 1, doFree);
        ConservedApart(old(pages), old(free), t.owner.Keys + Range(old(pages), t, first, npages, doFree), pages, free,
                       own0);
        ClearedAt(old(pages), t, pages, first, a - first, a);
        var found, table, _ := Walk(root, a, false, t);
        if !found {
          NotAllMapped(pages, old(pages), t, first, npages, a);
          return false;
        }
        InTree(pages, t, 0, a, table);
        FlatAt(pages, t, a);
        var pte := pages[table][a % 512];
        if !V(pte) {
          NotAllMapped(pages, old(pages), t, first, npages, a);
          return false;
        }
        LeafFlags(pte);
        if Flags(pte) == PTE_V {
          return false;
        }
        RangeSplit(old(pages), t, first, npages, a, doFree);
        if doFree {
          Kfree(Ppn(pte));
          TableFrame(p0, pages, t);
        }
        ReleaseConserves(p0, f0, pages, free, t, own0, own1, pte, doFree);
        ghost var p1 := pages;
        ConservedApart(p0, f0, own0, pages, free, own1);
        SetPte(table, a, 0, t);
        UnmapConserves(old(pages), old(free), t.owner.Keys + Range(old(pages), t, first, npages, doFree), p0, f0,
                       own0, p1, pages, free, t.owner.Keys, own1);
        ClearedNext(old(pages), p0, p1, pages, t, first, a - first);
        a := a + 1;
      }
      assert Range(old(pages), t, a, 0, doFree) == {} by {
        NothingCleared(old(pages), [], t, a, 0, doFree);
      }
      assert t.owner.Keys + {} == t.owner.Keys;
      return true;
    }

    /** The common part of uvmalloc and uvmcopy: take a page, fill it, map it at
        virtual page v, and give it back if no table could be had.  x is what the
        caller owns besides the tables. */
    method MapNewPage(root: nat, v: nat, content: Page, perm: nat, ghost t: Tree, ghost x: set<nat>)
      returns (ok: bool, ghost t': Tree, ghost p: nat)
      requires Valid() && TableOk(pages, t) && t.root == root && (t.owner.Keys + x) !! Listed(free) && x !! t.owner.Keys
      requires v < MAXVPN && IsPerm(perm) && Flat(pages, t, v) == 0 && x <= pages.Keys
      modifies this
      ensures Valid() && TableOk(pages, t') && t'.root == root && x !! t'.owner.Keys && t.owner.Keys <= t'.owner.Keys
      ensures pages.Keys == old(pages.Keys) && forall q :: q in x ==> pages[q] == old(pages)[q]
      ensures ok ==> FlatSet(old(pages), t, pages, t', v, LeafEntry(p, perm))
      ensures ok ==> p in pages && p !in t'.owner && p !in x && pages[p] == content
      ensures ok ==> Conserved(old(pages), old(free), t.owner.Keys + x, pages, free, t'.owner.Keys + x + {p})
      ensures !ok ==> SameFlat(old(pages), t, pages, t')
      ensures !ok ==> Conserved(old(pages), old(free), t.owner.Keys + x, pages, free, t'.owner.Keys + x)
      ensures ok <==> |old(free)| >= 1 + NewTables(t, v, 1)
      ensures ok ==> |old(free)| == |free| + 1 + NewTables(t, v, 1) && Reaches(t, t', v, 1)
    {
      hide FreeListOk, TableOk, Flat, Conserved, Inserted, Unmapped, SameFlat, FlatSet, Span, LeafEntry, IsPerm, Listed,
        Reaches, NewTables;
      var mem := TakePage(content, t, x);
      if mem == 0 {
        return false, t, 0;
      }
      ghost var p1, f1 := pages, free;
      var r; ghost var n;
      OnePage(v, mem);
      r, t', n := MapPages(root, v * PGSIZE, PGSIZE, mem * PGSIZE, perm, t);
      MappedConserves(old(pages), old(free), p1, f1, pages, free, t, t', x, mem);
      if r.Mapped? {
        InsertedOne(old(pages), p1, t, pages, t', v, mem, perm);
        return true, t', mem;
      }
      InsertedNone(old(pages), p1, t, pages, t', v, n, mem, perm, r);
      ghost var p2, f2 := pages, free;
      GiveBack(mem, t', x);
      ConservedTrans(old(pages), old(free), t.owner.Keys + x, p2, f2, t'.owner.Keys + x + {mem},
                     pages, free, t'.owner.Keys + x);
      SameFlatTrans(old(pages), t, p2, t', pages, t');
      return false, t', 0;
    }

    method TakePage(content: Page, ghost t: Tree, ghost x: set<nat>) returns (mem: nat)
      requires Valid() && TableOk(pages, t) && (t.owner.Keys + x) !! Listed(free)
      modifies this
      ensures Valid() && TableOk(pages, t) && SameFlat(old(pages), t, pages, t) && pages.Keys == old(pages.Keys)
      ensures t.owner.Keys !! Listed(free)
      ensures mem == 0 <==> old(free) == []
      ensures mem != 0 ==> |free| == |old(free)| - 1
      ensures mem == 0 ==> pages == old(pages) && free == old(free)
                           && Conserved(old(pages), old(free), t.owner.Keys + x, pages, free, t.owner.Keys + x)
      ensures mem != 0 ==> mem in pages && mem !in t.owner && mem !in x && pages[mem] == content
      ensures mem != 0 ==> (x + {mem}) !! Listed(free)
                           && Conserved(old(pages), old(free), t.owner.Keys + x, pages, free, t.owner.Keys + x + {mem})
      ensures forall q :: q in x && q in pages ==> pages[q] == old(pages)[q]
    {
      hide FreeListOk, TableOk, Conserved, SameFlat;
      mem := Kalloc();
      if mem == 0 {
        Untouched(pages, free, t, t.owner.Keys + x);
      } else {
        pages := pages[mem := content];
        TakenConserves(old(pages), old(free), mem, pages, free, t, x);
        FreeFrame(old(pages)[mem := Junk(5)], pages, freelist, free);
      }
    }

    method GiveBack(mem: nat, ghost t: Tree, ghost x: set<nat>)
      requires Valid() && TableOk(pages, t) && (t.owner.Keys + x + {mem}) !! Listed(free)
      requires mem in pages && mem !in t.owner && mem !in x
      modifies this
      ensures Valid() && TableOk(pages, t) && SameFlat(old(pages), t, pages, t) && pages.Keys == old(pages.Keys)
      ensures Conserved(old(pages), old(free), t.owner.Keys + x + {mem}, pages, free, t.owner.Keys + x)
      ensures forall q :: q in x && q in pages ==> pages[q] == old(pages)[q]
    {
      TablesInMemory(pages, t);
      hide FreeListOk, TableOk, Conserved, Flat;
      Kfree(mem);
      TableFrame(old(pages), pages, t);
      FreedConserves(old(pages), old(free), pages, t.owner.Keys + x, mem);
    }
  }

  lemma TablesInMemory(pages: map<nat, Page>, t: Tree)
    requires TableOk(pages, t)
    ensures t.owner.Keys <= pages.Keys && t.root in t.owner
  {
  }

  lemma MappedConserves(p0: map<nat, Page>, f0: seq<nat>, p1: map<nat, Page>, f1: seq<nat>, p2: map<nat, Page>,
                        f2: seq<nat>,
                        t: Tree, t': Tree, x: set<nat>, mem: nat)
    requires Conserved(p0, f0, t.owner.Keys + x, p1, f1, t.owner.Keys + x + {mem})
    requires Conserved(p1, f1, t.owner.Keys, p2, f2, t'.owner.Keys)
    requires x !! t.owner.Keys && mem !in t.owner && (x + {mem}) !! Listed(f1) && x + {mem} <= p1.Keys
    ensures Conserved(p0, f0, t.owner.Keys + x, p2, f2, t'.owner.Keys + x + {mem})
    ensures x !! t'.owner.Keys && mem !in t'.owner && (t'.owner.Keys + x + {mem}) !! Listed(f2)
    ensures mem in p2 && p2[mem] == p1[mem] && forall q :: q in x ==> q in p2 && p2[q] == p1[q]
  {
    ConservedFrame(p1, f1, t.owner.Keys, p2, f2, t'.owner.Keys, x + {mem});
    assert t.owner.Keys + (x + {mem}) == t.owner.Keys + x + {mem};
    assert t'.owner.Keys + (x + {mem}) == t'.owner.Keys + x + {mem};
    ConservedTrans(p0, f0, t.owner.Keys + x, p1, f1, t.owner.Keys + x + {mem}, p2, f2, t'.owner.Keys + x + {mem});
  }

  lemma OnePage(v: nat, p: nat)
    ensures v * PGSIZE / PGSIZE == v && p * PGSIZE / PGSIZE == p && Span(v * PGSIZE, PGSIZE) == 1
  {
  }

  lemma Untouched(pages: map<nat, Page>, free: seq<nat>, t: Tree, own: set<nat>)
    requires own !! Listed(free)
    ensures Conserved(pages, free, own, pages, free, own) && SameFlat(pages, t, pages, t)
  {
    hide Flat;
  }

  lemma TakenConserves(p0: map<nat, Page>, f0: seq<nat>, mem: nat, p1: map<nat, Page>, f1: seq<nat>, t: Tree,
                       x: set<nat>)
    requires f0 != [] && mem == f0[0] && f1 == f0[1..] && mem !in f1 && mem in p0
    requires TableOk(p0, t) && (t.owner.Keys + x) !! Listed(f0) && p1.Keys == p0.Keys
    requires forall q :: q in p0 && q != mem ==> p1[q] == p0[q]
    ensures Conserved(p0, f0, t.owner.Keys + x, p1, f1, t.owner.Keys + x + {mem})
    ensures TableOk(p1, t) && SameFlat(p0, t, p1, t) && mem !in t.owner && mem !in x
    ensures t.owner.Keys !! Listed(f1) && (x + {mem}) !! Listed(f1)
  {
    assert f0 == [f0[0]] + f0[1..];
    assert Listed(f0) == Listed(f1) + {mem};
    assert mem in Listed(f0);
    TableFrame(p0, p1, t);
    hide TableOk, Flat;
  }

  /** What is owned besides the tables stays owned and unwritten. */
  lemma ConservedFrame(p0: map<nat, Page>, f0: seq<nat>, o0: set<nat>, p1: map<nat, Page>, f1: seq<nat>, o1: set<nat>,
                       x: set<nat>)
    requires Conserved(p0, f0, o0, p1, f1, o1) && x !! o0 && x !! Listed(f0) && x <= p0.Keys
    ensures Conserved(p0, f0, o0 + x, p1, f1, o1 + x) && x !! o1
    ensures forall q :: q in x ==> p1[q] == p0[q]
  {
    assert Listed(f1) <= o0 + Listed(f0);
    assert o1 <= o0 + Listed(f0);
    assert forall q :: q in x ==> q !in Listed(f0) && q !in o0;
  }

  lemma FreedConserves(p0: map<nat, Page>, f0: seq<nat>, p1: map<nat, Page>, own: set<nat>, mem: nat)
    requires p1.Keys == p0.Keys && (own + {mem}) !! Listed(f0) && mem !in own
    requires forall q :: q in p1 && q != mem ==> p1[q] == p0[q]
    ensures Conserved(p0, f0, own + {mem}, p1, [mem] + f0, own)
  {
    assert Listed([mem] + f0) == Listed(f0) + {mem};
  }

  lemma InsertedOne(p0: map<nat, Page>, p1: map<nat, Page>, t: Tree, p2: map<nat, Page>, t': Tree, v: nat, mem: nat,
                    perm: nat)
    requires SameFlat(p0, t, p1, t) && Inserted(p1, t, p2, t', v, 1, mem, perm)
    ensures FlatSet(p0, t, p2, t', v, LeafEntry(mem, perm))
  {
    hide Flat, LeafEntry;
  }

  lemma InsertedNone(p0: map<nat, Page>, p1: map<nat, Page>, t: Tree, p2: map<nat, Page>, t': Tree, v: nat, n: nat,
                     mem: nat, perm: nat, r: MapResult)
    requires SameFlat(p0, t, p1, t) && Inserted(p1, t, p2, t', v, n, mem, perm) && n < 1
    requires Flat(p0, t, v) == 0 && (r.Remap? ==> Flat(p1, t, v + n) != 0)
    ensures SameFlat(p0, t, p2, t') && !r.Remap?
  {
    hide Flat, LeafEntry;
  }

  ghost predicate AllMapped(pages: map<nat, Page>, t: Tree, first: nat, n: nat) {
    forall v: nat :: first <= v < first + n ==> Flat(pages, t, v) != 0
  }

  /** The flat map with n consecutive pages removed. */
  ghost predicate Cleared(pages: map<nat, Page>, t: Tree, pages': map<nat, Page>, first: nat, n: nat) {
    forall v: nat :: Flat(pages', t, v) == if first <= v < first + n then 0 else Flat(pages, t, v)
  }

  /** The physical pages mapped in a range. */
  ghost function UserPages(pages: map<nat, Page>, t: Tree, first: nat, n: nat): set<nat> {
    set v: nat | first <= v < first + n && Flat(pages, t, v) != 0 :: Ppn(Flat(pages, t, v))
  }

  ghost function Range(pages: map<nat, Page>, t: Tree, first: nat, n: nat, doFree: bool): set<nat> {
    if doFree then UserPages(pages, t, first, n) else {}
  }

  /** Each page of the range is mapped once, in memory, and is not a table. */
  ghost predicate OwnsRange(pages: map<nat, Page>, t: Tree, first: nat, n: nat) {
    && (forall v: nat :: first <= v < first + n && Flat(pages, t, v) != 0 ==>
          Ppn(Flat(pages, t, v)) in pages && Ppn(Flat(pages, t, v)) !in t.owner)
    && (forall v: nat, w: nat :: first <= v < w < first + n && Flat(pages, t, v) != 0 && Flat(pages, t, w) != 0 ==>
          Ppn(Flat(pages, t, v)) != Ppn(Flat(pages, t, w)))
  }

  lemma NothingCleared(pages: map<nat, Page>, free: seq<nat>, t: Tree, first: nat, n: nat, doFree: bool)
    requires t.owner.Keys !! Listed(free)
    ensures Cleared(pages, t, pages, first, 0) && AllMapped(pages, t, first, 0)
    ensures n == 0 ==> Range(pages, t, first, n, doFree) == {}
    ensures (doFree ==> UserPages(pages, t, first, n) !! Listed(free)) ==>
              var own := t.owner.Keys + Range(pages, t, first, n, doFree); Conserved(pages, free, own, pages, free, own)
  {
    hide Flat;
  }

  lemma ClearedAt(p0: map<nat, Page>, t: Tree, p1: map<nat, Page>, first: nat, n: nat, v: nat)
    requires Cleared(p0, t, p1, first, n) && v >= first + n
    ensures Flat(p1, t, v) == Flat(p0, t, v)
  {
    hide Flat;
  }

  lemma NotAllMapped(pages: map<nat, Page>, p0: map<nat, Page>, t: Tree, first: nat, n: nat, a: nat)
    requires TableOk(pages, t) && first <= a < first + n && Flat(pages, t, a) == Flat(p0, t, a)
    requires a / 512 !in t.low || !V(Flat(pages, t, a))
    ensures !AllMapped(p0, t, first, n)
  {
    if a / 512 in t.low {
      FlatAt(pages, t, a);
    }
  }

  lemma LeafFlags(e: nat)
    ensures Flags(e) == 1 ==> !Leaf(e)
  {
  }

  lemma RangeSplit(pages: map<nat, Page>, t: Tree, first: nat, n: nat, a: nat, doFree: bool)
    requires first <= a < first + n && Flat(pages, t, a) != 0 && (doFree ==> OwnsRange(pages, t, first, n))
    ensures doFree ==>
              var p := Ppn(Flat(pages, t, a));
              && p in pages && p !in t.owner && p in Range(pages, t, a, first + n - a, true)
              && Range(pages, t, a + 1, first + n - a - 1, true) == Range(pages, t, a, first + n - a, true) - {p}
  {
    hide Flat;
  }

  lemma ReleaseConserves(p0: map<nat, Page>, f0: seq<nat>, p1: map<nat, Page>, f1: seq<nat>, t: Tree,
                         own0: set<nat>, own1: set<nat>, pte: nat, doFree: bool)
    requires own0 !! Listed(f0)
    requires !doFree ==> p1 == p0 && f1 == f0 && own0 == own1
    requires doFree ==> Ppn(pte) in own0 && own1 == own0 - {Ppn(pte)} && f1 == [Ppn(pte)] + f0 && p1.Keys == p0.Keys
    requires doFree ==> forall q :: q in p1 && q != Ppn(pte) ==> p1[q] == p0[q]
    ensures Conserved(p0, f0, own0, p1, f1, own1)
  {
    if doFree {
      assert Listed(f1) == {Ppn(pte)} + Listed(f0);
    }
  }

  lemma SetConserves(p0: map<nat, Page>, p1: map<nat, Page>, free: seq<nat>, o: set<nat>, own: set<nat>)
    requires Conserved(p0, free, o, p1, free, o) && o <= own && own !! Listed(free)
    ensures Conserved(p0, free, own, p1, free, own)
  {
  }

  lemma UnmapConserves(pp: map<nat, Page>, ff: seq<nat>, oo: set<nat>, p0: map<nat, Page>, f0: seq<nat>, o0: set<nat>,
                       p1: map<nat, Page>, p2: map<nat, Page>, free: seq<nat>, o: set<nat>, own: set<nat>)
    requires Conserved(pp, ff, oo, p0, f0, o0) && Conserved(p0, f0, o0, p1, free, own)
    requires Conserved(p1, free, o, p2, free, o) && o <= own && own !! Listed(free)
    ensures Conserved(pp, ff, oo, p2, free, own)
  {
    hide Conserved;
    SetConserves(p1, p2, free, o, own);
    ConservedTrans(p0, f0, o0, p1, free, own, p2, free, own);
    ConservedTrans(pp, ff, oo, p0, f0, o0, p2, free, own);
  }

  lemma ClearedNext(p0: map<nat, Page>, p1: map<nat, Page>, p2: map<nat, Page>, p3: map<nat, Page>, t: Tree,
                    first: nat, n: nat)
    requires Cleared(p0, t, p1, first, n) && AllMapped(p0, t, first, n) && Flat(p0, t, first + n) != 0
    requires SameFlat(p1, t, p2, t) && FlatSet(p2, t, p3, t, first + n, 0)
    ensures Cleared(p0, t, p3, first, n + 1) && AllMapped(p0, t, first, n + 1)
  {
    hide Flat;
  }

  datatype MapResult = Mapped | NoMemory | Remap

  /** How many pages the bytes va .. va+size-1 touch. */
  function Span(va: nat, size: nat): (n: nat)
    requires size >= 1
    ensures n >= 1 && (va + size - 1) / PGSIZE == va / PGSIZE + n - 1
  {
    (va + size - 1) / PGSIZE - va / PGSIZE + 1
  }

  /** The flat map with one entry replaced. */
  ghost predicate FlatSet(pages: map<nat, Page>, t: Tree, pages': map<nat, Page>, t': Tree, v: nat, e: nat) {
    forall w: nat :: Flat(pages', t', w) == if w == v then e else Flat(pages, t, w)
  }

  /** The flat map with n consecutive pages inserted. */
  ghost predicate Inserted(pages: map<nat, Page>, t: Tree, pages': map<nat, Page>, t': Tree,
                           first: nat, n: nat, p: nat, perm: nat) {
    forall v: nat :: Flat(pages', t', v) == if first <= v < first + n then LeafEntry(p + v - first, perm)
    else Flat(pages, t, v)
  }

  ghost predicate Unmapped(pages: map<nat, Page>, t: Tree, first: nat, n: nat) {
    forall v: nat :: first <= v < first + n ==> Flat(pages, t, v) == 0
  }

  lemma NothingInserted(pages: map<nat, Page>, free: seq<nat>, t: Tree, first: nat, p: nat, perm: nat)
    requires t.owner.Keys !! Listed(free)
    ensures Conserved(pages, free, t.owner.Keys, pages, free, t.owner.Keys)
    ensures Inserted(pages, t, pages, t, first, 0, p, perm) && Unmapped(pages, t, first, 0)
  {
    hide Flat;
  }

  lemma ConservedApart(p0: map<nat, Page>, f0: seq<nat>, o0: set<nat>, p1: map<nat, Page>, f1: seq<nat>, o1: set<nat>)
    requires Conserved(p0, f0, o0, p1, f1, o1)
    ensures o1 !! Listed(f1) && p1.Keys == p0.Keys
  {
  }

  lemma FlatAt(pages: map<nat, Page>, t: Tree, v: nat)
    requires TableOk(pages, t) && v / 512 in t.low && t.low[v / 512] in pages
    ensures Flat(pages, t, v) == pages[t.low[v / 512]][v % 512] && LowEntryOk(Flat(pages, t, v))
  {
  }

  lemma InsertedSame(p0: map<nat, Page>, t0: Tree, p1: map<nat, Page>, t1: Tree, p2: map<nat, Page>, t2: Tree,
                     first: nat, n: nat, p: nat, perm: nat)
    requires Inserted(p0, t0, p1, t1, first, n, p, perm) && SameFlat(p1, t1, p2, t2)
    ensures Inserted(p0, t0, p2, t2, first, n, p, perm)
  {
    hide Flat, LeafEntry;
  }

  lemma InsertedAt(p0: map<nat, Page>, t0: Tree, p1: map<nat, Page>, t1: Tree, first: nat, n: nat, p: nat, perm: nat)
    requires Inserted(p0, t0, p1, t1, first, n, p, perm)
    ensures Flat(p1, t1, first + n) == Flat(p0, t0, first + n)
  {
    hide Flat, LeafEntry;
  }

  lemma InsertedNext(p0: map<nat, Page>, t0: Tree, p1: map<nat, Page>, t1: Tree, p2: map<nat, Page>, t2: Tree,
                     first: nat, n: nat, p: nat, perm: nat)
    requires Inserted(p0, t0, p1, t1, first, n, p, perm) && FlatSet(p1, t1, p2, t2, first + n, LeafEntry(p + n, perm))
    requires Unmapped(p0, t0, first, n) && Flat(p0, t0, first + n) == 0
    ensures Inserted(p0, t0, p2, t2, first, n + 1, p, perm) && Unmapped(p0, t0, first, n + 1)
  {
    hide Flat, LeafEntry;
  }

  /** What walkaddr answers, by the flat map: nothing unless a user page is there. */
  function UserAddr(pages: map<nat, Page>, t: Tree, va: nat): nat {
    if va < MAXVA && Flat(pages, t, va / PGSIZE) != 0 && U(Flat(pages, t, va / PGSIZE))
    then Ppn(Flat(pages, t, va / PGSIZE)) * PGSIZE else 0
  }

  ghost predicate SameFlat(pages: map<nat, Page>, t: Tree, pages': map<nat, Page>, t': Tree) {
    forall v: nat :: Flat(pages', t', v) == Flat(pages, t, v)
  }

  /** Where walk stands when it is about to index a table at a level. */
  ghost predicate NodeAt(t: Tree, level: nat, v: nat, table: nat) {
    if level == 2 then table == t.root
    else if level == 1 then v / 0x4_0000 in t.mid && table == t.mid[v / 0x4_0000]
    else v / 512 in t.low && table == t.low[v / 512]
  }

  /** The next table down does not exist. */
  ghost predicate Absent(t: Tree, level: nat, v: nat) {
    if level == 2 then v / 0x4_0000 !in t.mid else v / 512 !in t.low
  }

  lemma StartWalk(pages: map<nat, Page>, free: seq<nat>, t: Tree, v: nat)
    requires TableOk(pages, t) && t.owner.Keys !! Listed(free)
    ensures NodeAt(t, 2, v, t.root) && SameFlat(pages, t, pages, t) && Descended(t, |free|, t, |free|, v, 2)
    ensures Conserved(pages, free, t.owner.Keys, pages, free, t.owner.Keys)
  {
  }

  // ------------------------------------------------------- counting new tables

  function MidOf(v: nat): nat { v / 0x4_0000 }

  function LowOf(v: nat): nat { v / 512 }

  /** How many tables are missing on the way to virtual page v. */
  function Missing(t: Tree, v: nat): nat {
    (if MidOf(v) in t.mid then 0 else 1) + (if LowOf(v) in t.low then 0 else 1)
  }

  /** walk with alloc has come down to a level: the tables above it are there, each
      new one taken from the n free pages, and n' are left. */
  ghost predicate Descended(t: Tree, n: nat, t': Tree, n': nat, v: nat, level: nat) {
    && t'.mid.Keys == t.mid.Keys + (if level < 2 then {MidOf(v)} else {})
    && t'.low.Keys == t.low.Keys + (if level < 1 then {LowOf(v)} else {})
    && n == n' + (if level < 2 && MidOf(v) !in t.mid then 1 else 0) + (if level < 1 && LowOf(v) !in t.low then 1 else 0)
  }

  lemma Lower(t: Tree, n: nat, t1: Tree, n1: nat, t2: Tree, n2: nat, v: nat, level: nat, table: nat)
    requires 1 <= level <= 2 && Descended(t, n, t1, n1, v, level) && NodeAt(t2, level - 1, v, table)
    requires (t2 == t1 && n2 == n1) || (Absent(t1, level, v) && t2 == Grown(t1, level, v, table) && n2 + 1 == n1)
    ensures Descended(t, n, t2, n2, v, level - 1)
  {
  }

  lemma TooFew(t: Tree, n: nat, t1: Tree, v: nat, level: nat)
    requires 1 <= level <= 2 && Descended(t, n, t1, 0, v, level) && Absent(t1, level, v)
    ensures n < Missing(t, v)
  {
  }

  lemma Enough(t: Tree, n: nat, t': Tree, n': nat, v: nat)
    requires Descended(t, n, t', n', v, 0)
    ensures n == n' + Missing(t, v)
  {
  }

  /** The tables that mapping n pages from first on adds. */
  ghost function NewMids(t: Tree, first: nat, n: nat): set<nat> {
    set v: nat | first <= v < first + n && MidOf(v) !in t.mid :: MidOf(v)
  }

  ghost function NewLows(t: Tree, first: nat, n: nat): set<nat> {
    set v: nat | first <= v < first + n && LowOf(v) !in t.low :: LowOf(v)
  }

  ghost function NewTables(t: Tree, first: nat, n: nat): nat {
    |NewMids(t, first, n)| + |NewLows(t, first, n)|
  }

  /** The tables for n pages from first on are there, and nothing more was added. */
  ghost predicate Reaches(t: Tree, t': Tree, first: nat, n: nat) {
    t'.mid.Keys == t.mid.Keys + NewMids(t, first, n) && t'.low.Keys == t.low.Keys + NewLows(t, first, n)
  }

  lemma ReachesNone(t: Tree, first: nat)
    ensures Reaches(t, t, first, 0) && NewTables(t, first, 0) == 0
  {
    assert NewMids(t, first, 0) == {} && NewLows(t, first, 0) == {};
  }

  lemma NewMidsNext(t: Tree, first: nat, n: nat)
    ensures NewMids(t, first, n + 1)
            == NewMids(t, first, n) + (if MidOf(first + n) in t.mid then {} else {MidOf(first + n)})
  {
    hide MidOf;
  }

  lemma NewLowsNext(t: Tree, first: nat, n: nat)
    ensures NewLows(t, first, n + 1)
            == NewLows(t, first, n) + (if LowOf(first + n) in t.low then {} else {LowOf(first + n)})
  {
    hide LowOf;
  }

  /** One more page needs the tables that are missing for it. */
  lemma OneMoreTable(t: Tree, t1: Tree, first: nat, n: nat)
    requires Reaches(t, t1, first, n)
    ensures NewTables(t, first, n + 1) == NewTables(t, first, n) + Missing(t1, first + n)
  {
    hide NewMids, NewLows, MidOf, LowOf;
    NewMidsNext(t, first, n);
    NewLowsNext(t, first, n);
    Added(NewMids(t, first, n), t.mid.Keys, MidOf(first + n));
    Added(NewLows(t, first, n), t.low.Keys, LowOf(first + n));
  }

  lemma Added(s: set<nat>, had: set<nat>, x: nat)
    ensures |s + (if x in had then {} else {x})| == |s| + (if x in had || x in s then 0 else 1)
  {
    if x in had {
      assert s + {} == s;
    } else if x in s {
      assert s + {x} == s;
    }
  }

  lemma ReachesNext(t: Tree, t1: Tree, n1: nat, t2: Tree, n2: nat, first: nat, n: nat)
    requires Reaches(t, t1, first, n) && Descended(t1, n1, t2, n2, first + n, 0)
    ensures Reaches(t, t2, first, n + 1)
  {
    NewMidsNext(t, first, n);
    NewLowsNext(t, first, n);
    hide NewMids, NewLows, MidOf, LowOf;
  }

  /** Mapping page by page takes the tables of the whole range. */
  lemma TablesAdd(t: Tree, t1: Tree, first: nat, n: nat)
    requires Reaches(t, t1, first, n)
    ensures NewTables(t, first, n + 1) == NewTables(t, first, n) + NewTables(t1, first + n, 1)
  {
    hide Reaches, NewTables, Missing;
    ReachesNone(t1, first + n);
    OneMoreTable(t, t1, first, n);
    OneMoreTable(t1, t1, first + n, 0);
  }

  lemma ReachesMore(t: Tree, t1: Tree, t2: Tree, first: nat, n: nat)
    requires Reaches(t, t1, first, n) && Reaches(t1, t2, first + n, 1)
    ensures Reaches(t, t2, first, n + 1)
  {
    hide NewMids, NewLows, MidOf, LowOf;
    NewMidsNext(t, first, n);
    NewLowsNext(t, first, n);
    OneNew(t1, first + n);
    Joined(t.mid.Keys, NewMids(t, first, n), t1.mid.Keys, t2.mid.Keys, MidOf(first + n));
    Joined(t.low.Keys, NewLows(t, first, n), t1.low.Keys, t2.low.Keys, LowOf(first + n));
  }

  lemma OneNew(t: Tree, v: nat)
    ensures NewMids(t, v, 1) == if MidOf(v) in t.mid then {} else {MidOf(v)}
    ensures NewLows(t, v, 1) == if LowOf(v) in t.low then {} else {LowOf(v)}
  {
    hide MidOf, LowOf;
  }

  lemma Joined(k0: set<nat>, a: set<nat>, k1: set<nat>, k2: set<nat>, x: nat)
    requires k1 == k0 + a && k2 == k1 + (if x in k1 then {} else {x})
    ensures k2 == k0 + (a + (if x in k0 then {} else {x}))
  {
  }

  lemma {:induction false} MoreTables(t: Tree, first: nat, k: nat, n: nat)
    requires k <= n
    ensures NewTables(t, first, k) <= NewTables(t, first, n)
    decreases n
  {
    if k < n {
      hide NewMids, NewLows, MidOf, LowOf;
      MoreTables(t, first, k, n - 1);
      NewMidsNext(t, first, n - 1);
      NewLowsNext(t, first, n - 1);
      Added(NewMids(t, first, n - 1), t.mid.Keys, MidOf(first + n - 1));
      Added(NewLows(t, first, n - 1), t.low.Keys, LowOf(first + n - 1));
    }
  }

  lemma EndWalk(t: Tree, v: nat, table: nat)
    requires NodeAt(t, 0, v, table)
    ensures v / 512 in t.low && table == t.low[v / 512]
  {
  }

  lemma StepDown(pages: map<nat, Page>, t: Tree, level: nat, v: nat, table: nat)
    requires TableOk(pages, t) && 1 <= level <= 2 && v < MAXVPN && NodeAt(t, level, v, table)
    ensures table in pages
    ensures var e := pages[table][Px(level, v)];
            if V(e) then NodeAt(t, level - 1, v, Ppn(e)) else Absent(t, level, v) && v / 512 !in t.low
  {
    Indices(v);
    if level == 2 {
      assert pages[t.root][Px(2, v)] == RootEntry(t, Px(2, v));
      if v / 0x4_0000 in t.mid {
        PointerParts(t.mid[v / 0x4_0000]);
      }
    } else {
      var i := v / 0x4_0000;
      assert pages[t.mid[i]][Px(1, v)] == MidEntry(t, i, Px(1, v));
      if v / 512 in t.low {
        PointerParts(t.low[v / 512]);
      }
    }
  }

  function Grown(t: Tree, level: nat, v: nat, p: nat): Tree {
    if level == 2 then AddMid(t, v / 0x4_0000, p) else AddLow(t, v / 512, p)
  }

  function GrownPages(pages: map<nat, Page>, table: nat, level: nat, v: nat, p: nat): map<nat, Page>
    requires table in pages && level <= 2
  {
    SetEntry(pages[p := ZeroPage()], table, Px(level, v), Pointer(p))
  }

  lemma FreeFrame(pages: map<nat, Page>, pages': map<nat, Page>, head: nat, free: seq<nat>)
    requires FreeListOk(pages, head, free) && pages'.Keys == pages.Keys
    requires forall p :: p in free ==> pages'[p] == pages[p]
    ensures FreeListOk(pages', head, free)
  {
  }

  lemma SameFlatTrans(p0: map<nat, Page>, t0: Tree, p1: map<nat, Page>, t1: Tree, p2: map<nat, Page>, t2: Tree)
    requires SameFlat(p0, t0, p1, t1) && SameFlat(p1, t1, p2, t2)
    ensures SameFlat(p0, t0, p2, t2)
  {
    hide Flat;
  }

  lemma OwnersAreNotFree(p0: map<nat, Page>, f0: seq<nat>, o0: set<nat>, pages: map<nat, Page>, free: seq<nat>, t: Tree)
    requires Conserved(p0, f0, o0, pages, free, t.owner.Keys)
    ensures forall p :: p in free ==> p !in t.owner
  {
    assert forall p :: p in free ==> p in Listed(free);
  }

  lemma GrowOk(pages: map<nat, Page>, t: Tree, level: nat, v: nat, table: nat, p: nat)
    requires TableOk(pages, t) && 1 <= level <= 2 && v < MAXVPN && NodeAt(t, level, v, table) && Absent(t, level, v)
    requires p in pages && p !in t.owner
    ensures table in pages && table in t.owner && table != p && Grown(t, level, v, p).root == t.root
    ensures Grown(t, level, v, p).owner.Keys == t.owner.Keys + {p}
    ensures GrownPages(pages, table, level, v, p).Keys == pages.Keys
    ensures TableOk(GrownPages(pages, table, level, v, p), Grown(t, level, v, p))
    ensures SameFlat(pages, t, GrownPages(pages, table, level, v, p), Grown(t, level, v, p))
    ensures NodeAt(Grown(t, level, v, p), level - 1, v, p)
  {
    hide TableOk, Flat;
    Indices(v);
    InTree(pages, t, level, v, table);
    var zeroed := pages[p := ZeroPage()];
    TableFrame(pages, zeroed, t);
    if level == 2 {
      AddMidOk(zeroed, t, v / 0x4_0000, p);
    } else {
      AddLowOk(zeroed, t, v / 0x4_0000, Px(1, v), p);
    }
  }

  lemma InTree(pages: map<nat, Page>, t: Tree, level: nat, v: nat, table: nat)
    requires TableOk(pages, t) && level <= 2 && NodeAt(t, level, v, table)
    ensures table in pages && table in t.owner && t.owner.Keys <= pages.Keys
  {
  }

  lemma GrowConserves(pages: map<nat, Page>, free: seq<nat>, t: Tree, level: nat, v: nat, table: nat)
    requires free != [] && table in t.owner && table in pages && free[0] in pages && level <= 2
    requires forall p :: p in free ==> p !in t.owner
    requires free[0] !in free[1..]
    requires Grown(t, level, v, free[0]).owner.Keys == t.owner.Keys + {free[0]}
    ensures Conserved(pages, free, t.owner.Keys, GrownPages(pages, table, level, v, free[0]), free[1..],
                      Grown(t, level, v, free[0]).owner.Keys)
  {
    assert free == [free[0]] + free[1..];
    assert Listed(free) == Listed(free[1..]) + {free[0]};
  }
}
