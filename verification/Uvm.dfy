/** The user half of vm.c, and the page tables of proc.c: growing, shrinking,
    copying and tearing down an address space without losing a page. */
module Uvm {
  import opened Common
  import opened PageTable
  import opened Vm

  /** The pages that shrinking from oldsz to newsz removes. */
  function Shrink(oldsz: nat, newsz: nat): nat {
    if newsz < oldsz && PgRoundUp(newsz) < PgRoundUp(oldsz) then PgRoundUp(oldsz) - PgRoundUp(newsz) else 0
  }

  /** uvmdealloc: bring the size down to newsz; ok is false where uvmunmap panics. */
  method UvmDealloc(m: Machine, root: nat, oldsz: nat, newsz: nat, ghost t: Tree) returns (sz: nat, ok: bool)
    requires m.Valid() && TableOk(m.pages, t) && t.root == root && t.owner.Keys !! Listed(m.free)
    requires PgRoundUp(oldsz) <= MAXVPN
    requires OwnsRange(m.pages, t, PgRoundUp(newsz), Shrink(oldsz, newsz))
    requires UserPages(m.pages, t, PgRoundUp(newsz), Shrink(oldsz, newsz)) !! Listed(m.free)
    modifies m
    ensures sz == if newsz < oldsz then newsz else oldsz
    ensures ok <==> AllMapped(old(m.pages), t, PgRoundUp(newsz), Shrink(oldsz, newsz))
    ensures ok ==> m.Valid() && TableOk(m.pages, t)
    ensures ok ==> Cleared(old(m.pages), t, m.pages, PgRoundUp(newsz), Shrink(oldsz, newsz))
    ensures ok ==> Conserved(old(m.pages), old(m.free), t.owner.Keys
                             + UserPages(old(m.pages), t, PgRoundUp(newsz), Shrink(oldsz, newsz)),
                             m.pages, m.free, t.owner.Keys)
  {
    hide FreeListOk, TableOk, Flat, Conserved, Cleared, AllMapped, OwnsRange, UserPages, PgRoundUp;
    if newsz >= oldsz {
      NothingToFree(m.pages, m.free, t, PgRoundUp(newsz));
      return oldsz, true;
    }
    ok := true;
    if PgRoundUp(newsz) < PgRoundUp(oldsz) {
      var npages := PgRoundUp(oldsz) - PgRoundUp(newsz);
      ok := m.UvmUnmap(root, PgRoundUp(newsz) * PGSIZE, npages, true, t);
    } else {
      NothingToFree(m.pages, m.free, t, PgRoundUp(newsz));
    }
    sz := newsz;
  }

  lemma NothingToFree(pages: map<nat, Page>, free: seq<nat>, t: Tree, first: nat)
    requires t.owner.Keys !! Listed(free)
    ensures UserPages(pages, t, first, 0) == {} && OwnsRange(pages, t, first, 0)
    ensures AllMapped(pages, t, first, 0) && Cleared(pages, t, pages, first, 0)
    ensures Conserved(pages, free, t.owner.Keys + UserPages(pages, t, first, 0), pages, free, t.owner.Keys)
    ensures Conserved(pages, free, t.owner.Keys, pages, free, t.owner.Keys + UserPages(pages, t, first, 0))
  {
    hide Flat;
  }

  // --------------------------------------------------------- growing in steps

  /** n pages from first on were mapped to pages taken from the free list, each
      owned once; every other mapping is as before and no page is lost. */
  ghost predicate Grown(p0: map<nat, Page>, f0: seq<nat>, t0: Tree, p1: map<nat, Page>, f1: seq<nat>, t1: Tree,
                        first: nat, n: nat) {
    && TableOk(p1, t1) && t1.root == t0.root && t0.owner.Keys <= t1.owner.Keys
    && (forall v: nat :: (v < first || first + n <= v) ==> Flat(p1, t1, v) == Flat(p0, t0, v))
    && AllMapped(p1, t1, first, n)
    && OwnsRange(p1, t1, first, n)
    && Conserved(p0, f0, t0.owner.Keys, p1, f1, t1.owner.Keys + UserPages(p1, t1, first, n))
  }

  lemma GrownNone(p: map<nat, Page>, f: seq<nat>, t: Tree, first: nat)
    requires TableOk(p, t) && t.owner.Keys !! Listed(f)
    ensures Grown(p, f, t, p, f, t, first, 0)
  {
    hide TableOk, Flat;
    NothingToFree(p, f, t, first);
  }

  lemma GrownReady(p0: map<nat, Page>, f0: seq<nat>, t0: Tree, p1: map<nat, Page>, f1: seq<nat>, t1: Tree, first: nat,
                   n: nat)
    requires Grown(p0, f0, t0, p1, f1, t1, first, n)
    ensures TableOk(p1, t1) && t1.root == t0.root && p1.Keys == p0.Keys
    ensures var x := UserPages(p1, t1, first, n);
            (t1.owner.Keys + x) !! Listed(f1) && x !! t1.owner.Keys && x <= p1.Keys
    ensures t1.owner.Keys !! Listed(f1) && AllMapped(p1, t1, first, n)
    ensures Flat(p1, t1, first + n) == Flat(p0, t0, first + n)
  {
    hide TableOk, Flat;
  }

  lemma GrownStep(p0: map<nat, Page>, f0: seq<nat>, t0: Tree, p1: map<nat, Page>, f1: seq<nat>, t1: Tree,
                  p2: map<nat, Page>, f2: seq<nat>, t2: Tree, first: nat, n: nat, p: nat, e: nat)
    requires Grown(p0, f0, t0, p1, f1, t1, first, n) && TableOk(p2, t2) && t2.root == t1.root
    requires t1.owner.Keys <= t2.owner.Keys
    requires FlatSet(p1, t1, p2, t2, first + n, e) && e != 0 && Ppn(e) == p && p in p2 && p2.Keys == p1.Keys
    requires var x := UserPages(p1, t1, first, n);
             && p !in t2.owner && p !in x && x !! t2.owner.Keys
             && Conserved(p1, f1, t1.owner.Keys + x, p2, f2, t2.owner.Keys + x + {p})
    ensures Grown(p0, f0, t0, p2, f2, t2, first, n + 1)
  {
    hide TableOk, Flat;
    var x := UserPages(p1, t1, first, n);
    UserPagesStep(p1, t1, p2, t2, first, n, e);
    assert t2.owner.Keys + (x + {p}) == t2.owner.Keys + x + {p};
    ConservedTrans(p0, f0, t0.owner.Keys, p1, f1, t1.owner.Keys + x, p2, f2, t2.owner.Keys + x + {p});
    hide Conserved;
    OwnsStep(p1, t1, p2, t2, first, n, e);
  }

  lemma UserPagesStep(p1: map<nat, Page>, t1: Tree, p2: map<nat, Page>, t2: Tree, first: nat, n: nat, e: nat)
    requires FlatSet(p1, t1, p2, t2, first + n, e) && e != 0
    ensures UserPages(p2, t2, first, n + 1) == UserPages(p1, t1, first, n) + {Ppn(e)}
  {
    hide Flat, Ppn;
    var u := UserPages(p2, t2, first, n + 1);
    assert Flat(p2, t2, first + n) == e;
    assert Ppn(e) in u;
    forall q | q in UserPages(p1, t1, first, n)
      ensures q in u
    {
      var v: nat :| first <= v < first + n && Flat(p1, t1, v) != 0 && q == Ppn(Flat(p1, t1, v));
      assert Flat(p2, t2, v) == Flat(p1, t1, v);
    }
  }

  lemma OwnsStep(p1: map<nat, Page>, t1: Tree, p2: map<nat, Page>, t2: Tree, first: nat, n: nat, e: nat)
    requires FlatSet(p1, t1, p2, t2, first + n, e) && OwnsRange(p1, t1, first, n) && p2.Keys == p1.Keys
    requires Ppn(e) in p2 && Ppn(e) !in t2.owner && Ppn(e) !in UserPages(p1, t1, first, n)
    requires UserPages(p1, t1, first, n) !! t2.owner.Keys
    ensures OwnsRange(p2, t2, first, n + 1)
  {
    hide Flat, Ppn;
    forall v: nat | first <= v < first + n && Flat(p1, t1, v) != 0
      ensures Ppn(Flat(p1, t1, v)) in UserPages(p1, t1, first, n)
    {
    }
  }

  lemma GrownFail(p0: map<nat, Page>, f0: seq<nat>, t0: Tree, p1: map<nat, Page>, f1: seq<nat>, t1: Tree,
                  p2: map<nat, Page>, f2: seq<nat>, t2: Tree, first: nat, n: nat)
    requires Grown(p0, f0, t0, p1, f1, t1, first, n) && TableOk(p2, t2) && t2.root == t1.root
    requires t1.owner.Keys <= t2.owner.Keys
    requires SameFlat(p1, t1, p2, t2) && p2.Keys == p1.Keys
    requires var x := UserPages(p1, t1, first, n);
             x !! t2.owner.Keys && Conserved(p1, f1, t1.owner.Keys + x, p2, f2, t2.owner.Keys + x)
    ensures Grown(p0, f0, t0, p2, f2, t2, first, n)
  {
    hide TableOk, Flat, Ppn;
    var x := UserPages(p1, t1, first, n);
    assert UserPages(p2, t2, first, n) == x;
    ConservedTrans(p0, f0, t0.owner.Keys, p1, f1, t1.owner.Keys + x, p2, f2, t2.owner.Keys + x);
    hide Conserved;
    forall v: nat | first <= v < first + n && Flat(p1, t1, v) != 0
      ensures Ppn(Flat(p1, t1, v)) in x
    {
    }
  }

  lemma GrownUndo(p0: map<nat, Page>, f0: seq<nat>, t0: Tree, p1: map<nat, Page>, f1: seq<nat>, t1: Tree,
                  p2: map<nat, Page>, f2: seq<nat>, first: nat, n: nat)
    requires Grown(p0, f0, t0, p1, f1, t1, first, n) && Unmapped(p0, t0, first, n)
    requires Cleared(p1, t1, p2, first, n)
    requires Conserved(p1, f1, t1.owner.Keys + UserPages(p1, t1, first, n), p2, f2, t1.owner.Keys)
    ensures SameFlat(p0, t0, p2, t1)
    ensures Conserved(p0, f0, t0.owner.Keys, p2, f2, t1.owner.Keys)
  {
    hide TableOk, Flat, OwnsRange;
    ConservedTrans(p0, f0, t0.owner.Keys, p1, f1, t1.owner.Keys + UserPages(p1, t1, first, n), p2, f2, t1.owner.Keys);
  }

  // ------------------------------------------------------------------ uvmalloc

  /** Freshly allocated pages: zeroed, with all user permissions. */
  ghost predicate Zeroed(p: map<nat, Page>, t: Tree, first: nat, n: nat) {
    forall v: nat :: first <= v < first + n ==>
      && Flags(Flat(p, t, v)) == PTE_V + PTE_R + PTE_W + PTE_X + PTE_U
      && Ppn(Flat(p, t, v)) in p && p[Ppn(Flat(p, t, v))] == ZeroPage()
  }

  /** The free pages it takes to map n new pages from first on: the pages and the
      tables that are missing for them. */
  ghost function PagesNeeded(t: Tree, first: nat, n: nat): nat {
    n + NewTables(t, first, n)
  }

  lemma NoPagesNeeded(t: Tree, first: nat)
    ensures PagesNeeded(t, first, 0) == 0 && Reaches(t, t, first, 0)
  {
    ReachesNone(t, first);
  }

  lemma OneMorePage(t: Tree, t1: Tree, first: nat, k: nat, n: nat)
    requires Reaches(t, t1, first, k) && k < n
    ensures PagesNeeded(t, first, k + 1) == PagesNeeded(t, first, k) + 1 + NewTables(t1, first + k, 1)
    ensures PagesNeeded(t, first, k + 1) <= PagesNeeded(t, first, n)
  {
    hide Reaches, NewTables;
    TablesAdd(t, t1, first, k);
    MoreTables(t, first, k + 1, n);
  }

  /** uvmalloc: grow from oldsz to newsz.  On failure nothing stays mapped and no
      page is lost. */
  method UvmAlloc(m: Machine, root: nat, oldsz: nat, newsz: nat, ghost t: Tree) returns (r: nat, failed: bool,
                                                                                         ghost t': Tree)
    requires m.Valid() && TableOk(m.pages, t) && t.root == root && t.owner.Keys !! Listed(m.free)
    requires newsz <= MAXVA && Unmapped(m.pages, t, PgRoundUp(oldsz), Shrink(newsz, oldsz))
    modifies m
    ensures m.Valid() && TableOk(m.pages, t') && t'.root == root
    ensures failed ==> r == 0 && SameFlat(old(m.pages), t, m.pages, t')
                       && Conserved(old(m.pages), old(m.free), t.owner.Keys, m.pages, m.free, t'.owner.Keys)
    ensures !failed ==> r == if newsz < oldsz then oldsz else newsz
    ensures !failed ==> Grown(old(m.pages), old(m.free), t, m.pages, m.free, t', PgRoundUp(oldsz), Shrink(newsz, oldsz))
                        && Zeroed(m.pages, t', PgRoundUp(oldsz), Shrink(newsz, oldsz))
    ensures failed <==> |old(m.free)| < PagesNeeded(t, PgRoundUp(oldsz), Shrink(newsz, oldsz))
  {
    hide FreeListOk, TableOk, Flat, Conserved, UserPages, Grown, Zeroed, Unmapped, SameFlat, PgRoundUp, Listed,
      FlatSet, AllMapped, Reaches, PagesNeeded;
    t' := t;
    NoPagesNeeded(t, PgRoundUp(oldsz));
    GrownNone(m.pages, m.free, t, PgRoundUp(oldsz));
    ZeroedNone(m.pages, t, PgRoundUp(oldsz));
    if newsz < oldsz {
      return oldsz, false, t;
    }
    var first := PgRoundUp(oldsz);
    var a := first;
    RoundUp(oldsz, newsz, a);
    while a * PGSIZE < newsz
      invariant first <= a <= first + Shrink(newsz, oldsz) && m.Valid()
      invariant Grown(old(m.pages), old(m.free), t, m.pages, m.free, t', first, a - first)
      invariant Zeroed(m.pages, t', first, a - first) && Reaches(t, t', first, a - first)
      invariant |old(m.free)| == |m.free| + PagesNeeded(t, first, a - first)
      decreases newsz - a * PGSIZE
    {
      RoundUp(oldsz, newsz, a);
      ghost var p0, f0, t0 := m.pages, m.free, t';
      ghost var x := UserPages(p0, t0, first, a - first);
      GrownReady(old(m.pages), old(m.free), t, p0, f0, t0, first, a - first);
      UnmappedAt(old(m.pages), t, first, Shrink(newsz, oldsz), a);
      UserPerm();
      OneMorePage(t, t0, first, a - first, Shrink(newsz, oldsz));
      var ok; ghost var p;
      ok, t', p := m.MapNewPage(root, a, ZeroPage(), PTE_W + PTE_X + PTE_R + PTE_U, t', x);
      if !ok {
        GrownFail(old(m.pages), old(m.free), t, p0, f0, t0, m.pages, m.free, t', first, a - first);
        UnmappedPrefix(old(m.pages), t, first, Shrink(newsz, oldsz), a - first);
        Rollback(m, root, first, a - first, old(m.pages), old(m.free), t, t');
        return 0, true, t';
      }
      EntryParts(p, PTE_W + PTE_X + PTE_R + PTE_U);
      GrownStep(old(m.pages), old(m.free), t, p0, f0, t0, m.pages, m.free, t', first, a - first, p,
                LeafEntry(p, PTE_W + PTE_X + PTE_R + PTE_U));
      ZeroedStep(p0, t0, m.pages, t', first, a - first, p);
      ReachesMore(t, t0, t', first, a - first);
      a := a + 1;
    }
    RoundUp(oldsz, newsz, a);
    GrownReady(old(m.pages), old(m.free), t, m.pages, m.free, t', first, a - first);
    return newsz, false, t';
  }

  /** uvmdealloc(pagetable, a, oldsz) on uvmalloc's way out: unmap and free the n
      pages mapped so far. */
  method Rollback(m: Machine, root: nat, first: nat, n: nat, ghost p0: map<nat, Page>, ghost f0: seq<nat>,
                  ghost t0: Tree, ghost t: Tree)
    requires m.Valid() && t.root == root && first + n <= MAXVPN
    requires Grown(p0, f0, t0, m.pages, m.free, t, first, n) && Unmapped(p0, t0, first, n)
    modifies m
    ensures m.Valid() && TableOk(m.pages, t)
    ensures SameFlat(p0, t0, m.pages, t) && Conserved(p0, f0, t0.owner.Keys, m.pages, m.free, t.owner.Keys)
  {
    GrownOwns(p0, f0, t0, m.pages, m.free, t, first, n);
    hide FreeListOk, TableOk, Flat, Conserved, UserPages, Grown, Unmapped, SameFlat, PgRoundUp, Listed, OwnsRange,
      AllMapped, Cleared;
    RoundUpPages(first, n);
    ghost var p1, f1 := m.pages, m.free;
    var _, ok := UvmDealloc(m, root, (first + n) * PGSIZE, first * PGSIZE, t);
    GrownUndo(p0, f0, t0, p1, f1, t, m.pages, m.free, first, n);
  }

  lemma GrownOwns(p0: map<nat, Page>, f0: seq<nat>, t0: Tree, p1: map<nat, Page>, f1: seq<nat>, t1: Tree, first: nat,
                  n: nat)
    requires Grown(p0, f0, t0, p1, f1, t1, first, n)
    ensures TableOk(p1, t1) && OwnsRange(p1, t1, first, n) && AllMapped(p1, t1, first, n)
    ensures t1.owner.Keys !! Listed(f1) && UserPages(p1, t1, first, n) !! Listed(f1)
  {
    hide TableOk, Flat;
  }

  lemma RoundUpPages(first: nat, n: nat)
    ensures PgRoundUp(first * PGSIZE) == first && PgRoundUp((first + n) * PGSIZE) == first + n
    ensures Shrink((first + n) * PGSIZE, first * PGSIZE) == n
  {
  }

  lemma RoundUp(oldsz: nat, newsz: nat, a: nat)
    requires oldsz <= newsz <= MAXVA && PgRoundUp(oldsz) <= a
    ensures a * PGSIZE < newsz <==> a < PgRoundUp(oldsz) + Shrink(newsz, oldsz)
    ensures PgRoundUp(oldsz) + Shrink(newsz, oldsz) <= MAXVPN + 1 && (a * PGSIZE < newsz ==> a < MAXVPN)
  {
  }

  lemma UserPerm()
    ensures IsPerm(PTE_W + PTE_X + PTE_R + PTE_U)
  {
  }

  lemma UnmappedAt(p: map<nat, Page>, t: Tree, first: nat, n: nat, v: nat)
    requires Unmapped(p, t, first, n) && first <= v < first + n
    ensures Flat(p, t, v) == 0
  {
  }

  lemma UnmappedPrefix(p: map<nat, Page>, t: Tree, first: nat, n: nat, k: nat)
    requires Unmapped(p, t, first, n) && k <= n
    ensures Unmapped(p, t, first, k)
  {
    hide Flat;
  }

  lemma ZeroedNone(p: map<nat, Page>, t: Tree, first: nat)
    ensures Zeroed(p, t, first, 0)
  {
  }

  lemma ZeroedStep(p1: map<nat, Page>, t1: Tree, p2: map<nat, Page>, t2: Tree, first: nat, n: nat, p: nat)
    requires Zeroed(p1, t1, first, n) && AllMapped(p1, t1, first, n) && p1.Keys == p2.Keys
    requires FlatSet(p1, t1, p2, t2, first + n, LeafEntry(p, PTE_W + PTE_X + PTE_R + PTE_U))
    requires p in p2 && p2[p] == ZeroPage()
    requires forall q :: q in UserPages(p1, t1, first, n) ==> p2[q] == p1[q]
    ensures Zeroed(p2, t2, first, n + 1)
  {
    EntryParts(p, PTE_W + PTE_X + PTE_R + PTE_U);
    hide Flat, LeafEntry, Flags, Ppn;
    forall v: nat | first <= v < first + n
      ensures Flat(p2, t2, v) == Flat(p1, t1, v) && Ppn(Flat(p1, t1, v)) in UserPages(p1, t1, first, n)
    {
    }
  }

  // ------------------------------------------------------------------- uvmcopy

  /** The first n pages of the child hold what the parent's pages hold, with the
      same permissions. */
  ghost predicate Copied(p0: map<nat, Page>, t1: Tree, p: map<nat, Page>, t2: Tree, n: nat) {
    forall v: nat :: v < n ==>
      && Flags(Flat(p, t2, v)) == Flags(Flat(p0, t1, v))
      && Ppn(Flat(p, t2, v)) in p && Ppn(Flat(p0, t1, v)) in p0
      && p[Ppn(Flat(p, t2, v))] == p0[Ppn(Flat(p0, t1, v))]
  }

  /** The parent's tables and pages lie outside what the child may touch. */
  ghost predicate Separate(p: map<nat, Page>, f: seq<nat>, t1: Tree, t2: Tree, n: nat) {
    && t1.owner.Keys !! t2.owner.Keys && t1.owner.Keys !! Listed(f)
    && UserPages(p, t1, 0, n) !! t2.owner.Keys && UserPages(p, t1, 0, n) !! Listed(f)
       && UserPages(p, t1, 0, n) <= p.Keys
  }

  /** uvmcopy's results; Missing stands for its panics at a page that is not there. */
  datatype CopyResult = Done | OutOfMemory | Missing

  /** uvmcopy: give the child a copy of the parent's first sz bytes, page by page.
      On failure the child maps nothing and no page is lost; either way the parent
      is as it was. */
  method UvmCopy(m: Machine, oldRoot: nat, newRoot: nat, sz: nat, ghost t1: Tree, ghost t2: Tree)
    returns (r: CopyResult, ghost t': Tree, ghost n: nat)
    requires m.Valid() && TableOk(m.pages, t1) && t1.root == oldRoot && TableOk(m.pages, t2) && t2.root == newRoot
    requires t2.owner.Keys !! Listed(m.free) && Separate(m.pages, m.free, t1, t2, PgRoundUp(sz)) && sz <= MAXVA
    requires Unmapped(m.pages, t2, 0, PgRoundUp(sz))
    modifies m
    ensures m.Valid() && TableOk(m.pages, t') && t'.root == newRoot
    ensures TableOk(m.pages, t1) && SameFlat(old(m.pages), t1, m.pages, t1)
    ensures forall q :: q in UserPages(old(m.pages), t1, 0, PgRoundUp(sz)) ==>
              q in m.pages && m.pages[q] == old(m.pages)[q]
    ensures n <= PgRoundUp(sz) && AllMapped(old(m.pages), t1, 0, n) && (r.Done? <==> n == PgRoundUp(sz))
    ensures r.Done? ==> Grown(old(m.pages), old(m.free), t2, m.pages, m.free, t', 0, PgRoundUp(sz))
                        && Copied(old(m.pages), t1, m.pages, t', PgRoundUp(sz))
    ensures r.OutOfMemory? ==> SameFlat(old(m.pages), t2, m.pages, t')
    ensures r.OutOfMemory? ==> Conserved(old(m.pages), old(m.free), t2.owner.Keys, m.pages, m.free, t'.owner.Keys)
    ensures r.Missing? ==> Flat(old(m.pages), t1, n) == 0
    ensures r.OutOfMemory? ==> Flat(old(m.pages), t1, n) != 0 && |old(m.free)| < PagesNeeded(t2, 0, n + 1)
    ensures |old(m.free)| >= PagesNeeded(t2, 0, n)
    ensures AllMapped(old(m.pages), t1, 0, PgRoundUp(sz)) ==>
              (r.OutOfMemory? <==> |old(m.free)| < PagesNeeded(t2, 0, PgRoundUp(sz)))
  {
    hide FreeListOk, TableOk, Flat, Conserved, UserPages, Grown, Copied, Unmapped, SameFlat, PgRoundUp, Listed,
      FlatSet, AllMapped, Separate, Cleared, OwnsRange, V, Ppn, Flags, LeafEntry, IsPerm, Reaches, PagesNeeded;
    t' := t2;
    NoPagesNeeded(t2, 0);
    GrownNone(m.pages, m.free, t2, 0);
    CopiedNone(m.pages, t1, t2);
    NoneMapped(m.pages, t1);
    var i := 0;
    while i * PGSIZE < sz
      invariant 0 <= i <= PgRoundUp(sz) && m.Valid()
      invariant Grown(old(m.pages), old(m.free), t2, m.pages, m.free, t', 0, i)
      invariant Copied(old(m.pages), t1, m.pages, t', i)
      invariant AllMapped(old(m.pages), t1, 0, i) && Reaches(t2, t', 0, i)
      invariant |old(m.free)| == |m.free| + PagesNeeded(t2, 0, i)
      decreases sz - i * PGSIZE
    {
      n := i;
      RoundUpSize(sz, i);
      ghost var p0, f0, t0 := m.pages, m.free, t';
      ghost var x := UserPages(p0, t0, 0, i);
      GrownReady(old(m.pages), old(m.free), t2, p0, f0, t0, 0, i);
      ParentKept(old(m.pages), old(m.free), t1, t2, p0, f0, t0, i, PgRoundUp(sz));
      ParentEntry(old(m.pages), t1, p0, i);
      UnmappedAt(old(m.pages), t2, 0, PgRoundUp(sz), i);
      OneMorePage(t2, t0, 0, i, PgRoundUp(sz));
      MappedThere(old(m.pages), t1, PgRoundUp(sz), i);
      var found, table, _ := m.Walk(oldRoot, i, false, t1);
      assert m.pages == p0 && m.free == f0;
      if !found {
        return CopyResult.Missing, t', n;
      }
      var pte := m.pages[table][i % 512];
      if !V(pte) {
        return CopyResult.Missing, t', n;
      }
      ParentPage(old(m.pages), t1, p0, i, PgRoundUp(sz));
      OneMoreMapped(old(m.pages), t1, i);
      var done; ghost var p;
      done, t', p := m.MapNewPage(newRoot, i, m.pages[Ppn(pte)], Flags(pte), t', x);
      if !done {
        GrownFail(old(m.pages), old(m.free), t2, p0, f0, t0, m.pages, m.free, t', 0, i);
        UnmappedPrefix(old(m.pages), t2, 0, PgRoundUp(sz), i);
        GrownOwns(old(m.pages), old(m.free), t2, m.pages, m.free, t', 0, i);
        ghost var p1, f1 := m.pages, m.free;
        var gone := m.UvmUnmap(newRoot, 0, i, true, t');
        GrownUndo(old(m.pages), old(m.free), t2, p1, f1, t', m.pages, m.free, 0, i);
        ParentKeptConserved(old(m.pages), old(m.free), t1, t2, m.pages, m.free, t'.owner.Keys, PgRoundUp(sz));
        return OutOfMemory, t', n;
      }
      EntryParts(p, Flags(pte));
      GrownStep(old(m.pages), old(m.free), t2, p0, f0, t0, m.pages, m.free, t', 0, i, p, LeafEntry(p, Flags(pte)));
      CopiedStep(old(m.pages), t1, p0, t0, m.pages, t', i, p, pte);
      ReachesMore(t2, t0, t', 0, i);
      i := i + 1;
    }
    RoundUpSize(sz, i);
    GrownReady(old(m.pages), old(m.free), t2, m.pages, m.free, t', 0, i);
    ParentKept(old(m.pages), old(m.free), t1, t2, m.pages, m.free, t', i, PgRoundUp(sz));
    return Done, t', i;
  }

  lemma MappedThere(p: map<nat, Page>, t: Tree, n: nat, v: nat)
    requires v < n
    ensures AllMapped(p, t, 0, n) ==> Flat(p, t, v) != 0
  {
  }

  lemma RoundUpSize(sz: nat, i: nat)
    requires sz <= MAXVA
    ensures (i * PGSIZE < sz <==> i < PgRoundUp(sz)) && PgRoundUp(sz) <= MAXVPN
  {
  }

  lemma CopiedNone(p: map<nat, Page>, t1: Tree, t2: Tree)
    ensures Copied(p, t1, p, t2, 0)
  {
  }

  lemma ParentKeptConserved(p0: map<nat, Page>, f0: seq<nat>, t1: Tree, t2: Tree, p: map<nat, Page>, f: seq<nat>,
                            own: set<nat>, n: nat)
    requires TableOk(p0, t1) && Separate(p0, f0, t1, t2, n) && Conserved(p0, f0, t2.owner.Keys, p, f, own)
    ensures TableOk(p, t1) && SameFlat(p0, t1, p, t1)
    ensures forall q :: q in UserPages(p0, t1, 0, n) ==> q in p && p[q] == p0[q]
  {
    TablesInMemory(p0, t1);
    hide UserPages;
    forall q | q in t1.owner.Keys + UserPages(p0, t1, 0, n)
      ensures q in p && p[q] == p0[q]
    {
      assert q !in Listed(f0);
    }
    TableFrame(p0, p, t1);
    hide TableOk, Flat;
  }

  lemma ParentKept(p0: map<nat, Page>, f0: seq<nat>, t1: Tree, t2: Tree, p: map<nat, Page>, f: seq<nat>, t': Tree,
                   i: nat, n: nat)
    requires TableOk(p0, t1) && Separate(p0, f0, t1, t2, n) && Grown(p0, f0, t2, p, f, t', 0, i)
    ensures TableOk(p, t1) && SameFlat(p0, t1, p, t1)
    ensures forall q :: q in UserPages(p0, t1, 0, n) ==> q in p && p[q] == p0[q]
    ensures t1.owner.Keys !! Listed(f)
  {
    hide TableOk, OwnsRange, AllMapped, Flat;
    ParentKeptConserved(p0, f0, t1, t2, p, f, t'.owner.Keys + UserPages(p, t', 0, i), n);
    assert Listed(f) <= t2.owner.Keys + Listed(f0);
  }

  /** A parent page is there exactly when the walk finds a valid entry. */
  lemma ParentEntry(p0: map<nat, Page>, t1: Tree, p: map<nat, Page>, i: nat)
    requires TableOk(p, t1) && SameFlat(p0, t1, p, t1)
    ensures i / 512 in t1.low ==> t1.low[i / 512] in p && (V(p[t1.low[i / 512]][i % 512]) <==> Flat(p0, t1, i) != 0)
    ensures i / 512 !in t1.low ==> Flat(p0, t1, i) == 0
  {
    assert Flat(p, t1, i) == Flat(p0, t1, i);
    if i / 512 in t1.low {
      InTree(p, t1, 0, i, t1.low[i / 512]);
      FlatAt(p, t1, i);
    }
  }

  lemma OneMoreMapped(p0: map<nat, Page>, t1: Tree, i: nat)
    requires AllMapped(p0, t1, 0, i) && Flat(p0, t1, i) != 0
    ensures AllMapped(p0, t1, 0, i + 1)
  {
    hide Flat;
  }

  lemma NoneMapped(p0: map<nat, Page>, t1: Tree)
    ensures AllMapped(p0, t1, 0, 0)
  {
  }

  lemma ParentPage(p0: map<nat, Page>, t1: Tree, p: map<nat, Page>, i: nat, n: nat)
    requires TableOk(p, t1) && SameFlat(p0, t1, p, t1) && Flat(p0, t1, i) != 0 && i < n
    requires forall q :: q in UserPages(p0, t1, 0, n) ==> q in p && q in p0 && p[q] == p0[q]
    ensures i / 512 in t1.low && t1.low[i / 512] in p
    ensures var e := p[t1.low[i / 512]][i % 512];
            && e == Flat(p0, t1, i) && Ppn(e) in p && Ppn(e) in p0 && p[Ppn(e)] == p0[Ppn(e)]
            && IsPerm(Flags(e)) && Flags(e) % 2 == 1
  {
    assert Flat(p, t1, i) == Flat(p0, t1, i) != 0;
    InTree(p, t1, 0, i, t1.low[i / 512]);
    FlatAt(p, t1, i);
    assert Ppn(Flat(p0, t1, i)) in UserPages(p0, t1, 0, n);
    FlagsArePerm(Flat(p0, t1, i));
  }

  lemma FlagsArePerm(e: nat)
    requires V(e) && Leaf(e)
    ensures IsPerm(Flags(e)) && Flags(e) % 2 == 1
  {
    assert e == 1024 * Ppn(e) + Flags(e) && Flags(e) < 1024 && (V(Flags(e)) ==> Flags(e) % 2 == 1);
    hide V, Leaf, Ppn, Flags;
    FieldsOf(Ppn(e), Flags(e));
  }

  lemma CopiedStep(p0: map<nat, Page>, t1: Tree, p1: map<nat, Page>, u1: Tree, p2: map<nat, Page>, u2: Tree, i: nat,
                   p: nat, e: nat)
    requires Copied(p0, t1, p1, u1, i) && AllMapped(p1, u1, 0, i) && p1.Keys == p2.Keys
    requires IsPerm(Flags(e)) && Flags(e) % 2 == 1 && FlatSet(p1, u1, p2, u2, i, LeafEntry(p, Flags(e)))
    requires e == Flat(p0, t1, i) && Ppn(e) in p0 && p in p2 && p2[p] == p0[Ppn(e)]
    requires forall q :: q in UserPages(p1, u1, 0, i) ==> p2[q] == p1[q]
    ensures Copied(p0, t1, p2, u2, i + 1)
  {
    hide Flat, LeafEntry, Flags, Ppn, IsPerm;
    CopiedEntry(p, e);
    forall v: nat | v < i
      ensures Flat(p2, u2, v) == Flat(p1, u1, v) && Ppn(Flat(p1, u1, v)) in UserPages(p1, u1, 0, i)
    {
    }
  }

  lemma CopiedEntry(p: nat, e: nat)
    requires IsPerm(Flags(e)) && Flags(e) % 2 == 1
    ensures Flags(LeafEntry(p, Flags(e))) == Flags(e) && Ppn(LeafEntry(p, Flags(e))) == p
  {
    EntryParts(p, Flags(e));
  }
}
