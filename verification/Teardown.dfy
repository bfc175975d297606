/** freewalk and the life of a process page table: built by proc_pagetable, taken
    apart by proc_freepagetable. */
module Teardown {
  import opened Common
  import opened PageTable
  import opened Vm
  import opened Uvm

  // ------------------------------------------------------------ parts of a tree

  function Level(n: Node): nat {
    match n case Root => 2 case Mid(_) => 1 case Low(_) => 0
  }

  predicate InTreeNode(t: Tree, n: Node) {
    match n case Root => true case Mid(i) => i in t.mid case Low(j) => j in t.low
  }

  function PageOf(t: Tree, n: Node): nat
    requires InTreeNode(t, n)
  {
    match n case Root => t.root case Mid(i) => t.mid[i] case Low(j) => t.low[j]
  }

  /** The table that entry k of node n points to. */
  function ChildNode(n: Node, k: nat): Node {
    match n case Root => Mid(k) case Mid(i) => Low(512 * i + k) case Low(j) => Root
  }

  predicate HasChild(t: Tree, n: Node, k: nat) {
    match n case Root => k in t.mid case Mid(i) => 512 * i + k in t.low case Low(j) => false
  }

  /** Node a hangs below one of the first k entries of node n. */
  predicate Under(a: Node, n: Node, k: nat) {
    match n
    case Root => (a.Mid? && a.i < k) || (a.Low? && a.j / 512 < k)
    case Mid(i) => a.Low? && a.j / 512 == i && a.j % 512 < k
    case Low(_) => false
  }

  function UpTo(t: Tree, n: Node, k: nat): set<nat> {
    set p | p in t.owner && Under(t.owner[p], n, k)
  }

  /** The pages of the subtree at n. */
  function Below(t: Tree, n: Node): set<nat>
    requires InTreeNode(t, n)
  {
    {PageOf(t, n)} + UpTo(t, n, 512)
  }

  /** No table below the first k entries of node n maps a page. */
  ghost predicate NoLeaf(pages: map<nat, Page>, t: Tree, n: Node, k: nat)
    decreases Level(n)
  {
    if n.Low? then n.j in t.low && t.low[n.j] in pages && forall l :: 0 <= l < k && l < 512 ==>
      pages[t.low[n.j]][l] == 0
    else forall l :: 0 <= l < k && HasChild(t, n, l) ==> NoLeaf(pages, t, ChildNode(n, l), 512)
  }

  lemma SubtreeStep(t: Tree, n: Node, k: nat)
    requires Shape(t) && InTreeNode(t, n) && k < 512
    ensures UpTo(t, n, 0) == {} && UpTo(t, n, k) <= UpTo(t, n, 512)
    ensures PageOf(t, n) in t.owner && PageOf(t, n) !in UpTo(t, n, 512)
    ensures HasChild(t, n, k) ==>
              && InTreeNode(t, ChildNode(n, k))
              && UpTo(t, n, k + 1) == UpTo(t, n, k) + Below(t, ChildNode(n, k))
              && UpTo(t, n, k) !! Below(t, ChildNode(n, k))
              && PageOf(t, n) !in Below(t, ChildNode(n, k))
              && Below(t, ChildNode(n, k)) <= UpTo(t, n, 512)
              && Level(ChildNode(n, k)) < Level(n)
    ensures !HasChild(t, n, k) ==> UpTo(t, n, k + 1) == UpTo(t, n, k)
  {
    SubtreeBounds(t, n, k);
    if HasChild(t, n, k) {
      SubtreeChild(t, n, k);
    }
  }

  lemma SubtreeBounds(t: Tree, n: Node, k: nat)
    requires Shape(t) && InTreeNode(t, n) && k < 512
    ensures UpTo(t, n, 0) == {} && UpTo(t, n, k) <= UpTo(t, n, 512)
    ensures PageOf(t, n) in t.owner && PageOf(t, n) !in UpTo(t, n, 512)
    ensures !HasChild(t, n, k) ==> UpTo(t, n, k + 1) == UpTo(t, n, k)
  {
  }

  lemma SubtreeChild(t: Tree, n: Node, k: nat)
    requires Shape(t) && InTreeNode(t, n) && k < 512 && HasChild(t, n, k)
    ensures InTreeNode(t, ChildNode(n, k)) && Level(ChildNode(n, k)) < Level(n)
    ensures UpTo(t, n, k + 1) == UpTo(t, n, k) + Below(t, ChildNode(n, k))
    ensures UpTo(t, n, k) !! Below(t, ChildNode(n, k)) && PageOf(t, n) !in Below(t, ChildNode(n, k))
    ensures Below(t, ChildNode(n, k)) <= UpTo(t, n, 512)
  {
  }

  /** What entry k of node n's table is, for an intact tree. */
  lemma EntryKinds(pages: map<nat, Page>, t: Tree, n: Node, k: nat)
    requires TableOk(pages, t) && InTreeNode(t, n) && k < 512
    ensures PageOf(t, n) in pages
    ensures var e := pages[PageOf(t, n)][k];
            && (V(e) && !Leaf(e) <==> HasChild(t, n, k))
            && (HasChild(t, n, k) ==> InTreeNode(t, ChildNode(n, k)) && Ppn(e) == PageOf(t, ChildNode(n, k)))
            && (!V(e) ==> e == 0)
            && (V(e) && Leaf(e) ==> n.Low? && e != 0)
  {
    match n
    case Root =>
      assert pages[t.root][k] == RootEntry(t, k);
      if k in t.mid { PointerParts(t.mid[k]); }
    case Mid(i) =>
      assert pages[t.mid[i]][k] == MidEntry(t, i, k);
      if 512 * i + k in t.low { PointerParts(t.low[512 * i + k]); }
    case Low(j) =>
      assert LowEntryOk(pages[t.low[j]][k]);
  }

  // ------------------------------------------------------------------ freewalk

  /** The subtree at n is still as it was in snap, apart from the first k entries
      of its top page, whose subtrees are already free. */
  ghost predicate Partial(snap: map<nat, Page>, pages: map<nat, Page>, t: Tree, n: Node, k: nat)
    requires InTreeNode(t, n)
  {
    && Below(t, n) <= pages.Keys && Below(t, n) <= snap.Keys
    && (forall l :: k <= l < 512 ==> pages[PageOf(t, n)][l] == snap[PageOf(t, n)][l])
    && (forall p :: p in UpTo(t, n, 512) && p !in UpTo(t, n, k) ==> pages[p] == snap[p])
  }

  /** freewalk: free every table of a subtree, bottom up.  ok is false exactly when
      a leaf is met, where the code panics. */
  method FreeWalk(m: Machine, page: nat, ghost n: Node, ghost t: Tree, ghost snap: map<nat, Page>) returns (ok: bool)
    requires m.Valid() && TableOk(snap, t) && InTreeNode(t, n) && page == PageOf(t, n)
    requires Partial(snap, m.pages, t, n, 0) && Below(t, n) !! Listed(m.free)
    modifies m
    ensures ok <==> NoLeaf(snap, t, n, 512)
    ensures ok ==> m.Valid() && m.pages.Keys == old(m.pages.Keys)
    ensures ok ==> Listed(m.free) == old(Listed(m.free)) + Below(t, n)
    ensures ok ==> forall p :: p in m.pages && p !in Below(t, n) ==> m.pages[p] == old(m.pages)[p]
    decreases Level(n)
  {
    hide FreeListOk, TableOk, Partial, NoLeaf, UpTo, Below, HasChild, PageOf, InTreeNode, Level, Freed, Listed;
    ShapeOf(snap, t);
    ghost var pages0, free0 := m.pages, Listed(m.free);
    FreedNone(snap, m.pages, m.free, t, n);
    var i := 0;
    while i < 512
      invariant 0 <= i <= 512 && m.Valid() && NoLeaf(snap, t, n, i)
      invariant Freed(snap, pages0, free0, m.pages, m.free, t, n, i)
    {
      EntryKinds(snap, t, n, i);
      NoLeafStep(snap, t, n, i);
      FreedReady(snap, pages0, free0, m.pages, m.free, t, n, i);
      var pte := m.pages[page][i];
      if V(pte) && !Leaf(pte) {
        ghost var before, freeBefore := m.pages, m.free;
        var done := FreeWalk(m, Ppn(pte), ChildNode(n, i), t, snap);
        if !done {
          return false;
        }
        FreedChild(snap, pages0, free0, before, freeBefore, m.pages, m.free, t, n, i);
        FreeFrame(m.pages, SetEntry(m.pages, page, i, 0), m.freelist, m.free);
        m.pages := SetEntry(m.pages, page, i, 0);
      } else if V(pte) {
        return false;
      } else {
        FreedSame(snap, pages0, free0, m.pages, m.free, t, n, i);
      }
      i := i + 1;
    }
    ghost var last, lastFree := m.pages, m.free;
    FreedReady(snap, pages0, free0, m.pages, m.free, t, n, 512);
    m.Kfree(page);
    FreedAll(snap, pages0, free0, last, lastFree, m.pages, t, n);
    return true;
  }

  /** Progress of freewalk at node n after k entries. */
  ghost predicate Freed(snap: map<nat, Page>, pages0: map<nat, Page>, free0: set<nat>,
                        pages: map<nat, Page>, free: seq<nat>, t: Tree, n: Node, k: nat)
    requires InTreeNode(t, n)
  {
    && pages.Keys == pages0.Keys
    && Below(t, n) !! free0
    && Partial(snap, pages, t, n, k)
    && Listed(free) == free0 + UpTo(t, n, k)
    && (forall p :: p in pages && p !in Below(t, n) ==> pages[p] == pages0[p])
  }

  lemma FreedNone(snap: map<nat, Page>, pages: map<nat, Page>, free: seq<nat>, t: Tree, n: Node)
    requires TableOk(snap, t) && InTreeNode(t, n) && Partial(snap, pages, t, n, 0) && Below(t, n) !! Listed(free)
    ensures Freed(snap, pages, Listed(free), pages, free, t, n, 0) && NoLeaf(snap, t, n, 0)
  {
    SubtreeStep(t, n, 0);
    NoLeafNone(snap, t, n);
    hide TableOk, UpTo, Partial, NoLeaf;
  }

  lemma FreedReady(snap: map<nat, Page>, pages0: map<nat, Page>, free0: set<nat>,
                   pages: map<nat, Page>, free: seq<nat>, t: Tree, n: Node, k: nat)
    requires Shape(t) && InTreeNode(t, n) && k <= 512 && Freed(snap, pages0, free0, pages, free, t, n, k)
    ensures PageOf(t, n) in pages && PageOf(t, n) !in free
    ensures k < 512 ==> PageOf(t, n) in snap && pages[PageOf(t, n)][k] == snap[PageOf(t, n)][k]
    ensures k < 512 && HasChild(t, n, k) ==>
              && InTreeNode(t, ChildNode(n, k)) && Partial(snap, pages, t, ChildNode(n, k), 0)
              && Below(t, ChildNode(n, k)) !! Listed(free) && Level(ChildNode(n, k)) < Level(n)
  {
    SubtreeStep(t, n, if k < 512 then k else 0);
    if k < 512 && HasChild(t, n, k) {
      ChildReady(snap, pages, t, n, k);
    }
    hide Shape, UpTo;
    assert PageOf(t, n) in Below(t, n);
    assert PageOf(t, n) !in Listed(free);
  }

  lemma FreedChild(snap: map<nat, Page>, pages0: map<nat, Page>, free0: set<nat>, before: map<nat, Page>,
                   freeBefore: seq<nat>,
                   after: map<nat, Page>, free: seq<nat>, t: Tree, n: Node, k: nat)
    requires Shape(t) && InTreeNode(t, n) && k < 512 && HasChild(t, n, k) && InTreeNode(t, ChildNode(n, k))
    requires Freed(snap, pages0, free0, before, freeBefore, t, n, k)
    requires after.Keys == before.Keys && Listed(free) == Listed(freeBefore) + Below(t, ChildNode(n, k))
    requires forall p :: p in after && p !in Below(t, ChildNode(n, k)) ==> after[p] == before[p]
    ensures PageOf(t, n) in after && PageOf(t, n) !in free
    ensures Freed(snap, pages0, free0, SetEntry(after, PageOf(t, n), k, 0), free, t, n, k + 1)
  {
    hide Shape, UpTo, Partial, HasChild, InTreeNode, ChildNode, PageOf;
    SubtreeStep(t, n, k);
    AfterChild(snap, before, after, t, n, k);
    assert PageOf(t, n) in Below(t, n);
    assert PageOf(t, n) !in Listed(free);
  }

  lemma FreedSame(snap: map<nat, Page>, pages0: map<nat, Page>, free0: set<nat>, pages: map<nat, Page>,
                  free: seq<nat>, t: Tree, n: Node, k: nat)
    requires Shape(t) && InTreeNode(t, n) && k < 512 && !HasChild(t, n, k)
    requires Freed(snap, pages0, free0, pages, free, t, n, k)
    ensures Freed(snap, pages0, free0, pages, free, t, n, k + 1)
  {
    SubtreeStep(t, n, k);
    PartialSame(snap, pages, t, n, k);
    hide Shape, UpTo, Partial;
  }

  lemma FreedAll(snap: map<nat, Page>, pages0: map<nat, Page>, free0: set<nat>, last: map<nat, Page>,
                 lastFree: seq<nat>,
                 pages: map<nat, Page>, t: Tree, n: Node)
    requires InTreeNode(t, n) && Freed(snap, pages0, free0, last, lastFree, t, n, 512) && pages.Keys == last.Keys
    requires forall q :: q in pages && q != PageOf(t, n) ==> pages[q] == last[q]
    ensures pages.Keys == pages0.Keys
    ensures Listed([PageOf(t, n)] + lastFree) == free0 + Below(t, n)
    ensures forall p :: p in pages && p !in Below(t, n) ==> pages[p] == pages0[p]
  {
    hide UpTo, Partial;
    assert Listed([PageOf(t, n)] + lastFree) == {PageOf(t, n)} + Listed(lastFree);
  }

  lemma ShapeOf(pages: map<nat, Page>, t: Tree)
    requires TableOk(pages, t)
    ensures Shape(t)
  {
  }

  lemma NoLeafNone(pages: map<nat, Page>, t: Tree, n: Node)
    requires TableOk(pages, t) && InTreeNode(t, n)
    ensures NoLeaf(pages, t, n, 0)
  {
  }

  lemma NoLeafStep(pages: map<nat, Page>, t: Tree, n: Node, k: nat)
    requires TableOk(pages, t) && InTreeNode(t, n) && k < 512 && NoLeaf(pages, t, n, k)
    ensures HasChild(t, n, k) ==> (NoLeaf(pages, t, n, k + 1) <==> NoLeaf(pages, t, ChildNode(n, k), 512))
    ensures !HasChild(t, n, k) && !(PageOf(t, n) in pages && V(pages[PageOf(t, n)][k])) ==> NoLeaf(pages, t, n, k + 1)
    ensures PageOf(t, n) in pages && pages[PageOf(t, n)][k] != 0 && n.Low? ==> !NoLeaf(pages, t, n, 512)
    ensures NoLeaf(pages, t, n, 512) ==> NoLeaf(pages, t, n, k + 1)
  {
    EntryKinds(pages, t, n, k);
    hide TableOk;
  }

  lemma ChildReady(snap: map<nat, Page>, pages: map<nat, Page>, t: Tree, n: Node, k: nat)
    requires Shape(t) && InTreeNode(t, n) && Partial(snap, pages, t, n, k) && k < 512 && HasChild(t, n, k)
    ensures InTreeNode(t, ChildNode(n, k)) && Partial(snap, pages, t, ChildNode(n, k), 0)
  {
    SubtreeStep(t, n, k);
    hide Shape, UpTo;
  }

  lemma AfterChild(snap: map<nat, Page>, before: map<nat, Page>, after: map<nat, Page>, t: Tree, n: Node, k: nat)
    requires Shape(t) && InTreeNode(t, n) && Partial(snap, before, t, n, k) && k < 512 && HasChild(t, n, k)
    requires InTreeNode(t, ChildNode(n, k)) && after.Keys == before.Keys
    requires forall p :: p in after && p !in Below(t, ChildNode(n, k)) ==> after[p] == before[p]
    ensures PageOf(t, n) in after
    ensures Partial(snap, SetEntry(after, PageOf(t, n), k, 0), t, n, k + 1)
  {
    SubtreeStep(t, n, k);
    hide Shape, UpTo;
  }

  lemma PartialSame(snap: map<nat, Page>, pages: map<nat, Page>, t: Tree, n: Node, k: nat)
    requires Shape(t) && InTreeNode(t, n) && Partial(snap, pages, t, n, k) && k < 512 && !HasChild(t, n, k)
    ensures Partial(snap, pages, t, n, k + 1)
  {
    SubtreeStep(t, n, k);
    hide Shape, UpTo;
  }

  /** A tree without leaves is one whose flat map is empty. */
  lemma NoLeafIsUnmapped(pages: map<nat, Page>, t: Tree)
    requires TableOk(pages, t)
    ensures NoLeaf(pages, t, Root, 512) <==> forall v: nat :: Flat(pages, t, v) == 0
  {
    if NoLeaf(pages, t, Root, 512) {
      forall v: nat
        ensures Flat(pages, t, v) == 0
      {
        if v / 512 in t.low {
          LeafPath(pages, t, v);
        }
      }
    }
    if forall v: nat :: Flat(pages, t, v) == 0 {
      forall i | 0 <= i < 512 && HasChild(t, Root, i)
        ensures NoLeaf(pages, t, ChildNode(Root, i), 512)
      {
        forall k | 0 <= k < 512 && HasChild(t, Mid(i), k)
          ensures NoLeaf(pages, t, ChildNode(Mid(i), k), 512)
        {
          EmptyLow(pages, t, 512 * i + k);
        }
      }
    }
  }

  lemma LeafPath(pages: map<nat, Page>, t: Tree, v: nat)
    requires TableOk(pages, t) && v / 512 in t.low && NoLeaf(pages, t, Root, 512)
    ensures Flat(pages, t, v) == 0
  {
    var j := v / 512;
    var i, k := j / 512, j % 512;
    assert i in t.mid && j == 512 * i + k;
    assert HasChild(t, Root, i) && ChildNode(Root, i) == Mid(i);
    assert NoLeaf(pages, t, Mid(i), 512);
    assert HasChild(t, Mid(i), k) && ChildNode(Mid(i), k) == Low(j);
    assert NoLeaf(pages, t, Low(j), 512);
  }

  lemma EmptyLow(pages: map<nat, Page>, t: Tree, j: nat)
    requires TableOk(pages, t) && j in t.low && forall v: nat :: Flat(pages, t, v) == 0
    ensures NoLeaf(pages, t, Low(j), 512)
  {
    forall l | 0 <= l < 512
      ensures pages[t.low[j]][l] == 0
    {
      assert (512 * j + l) / 512 == j && (512 * j + l) % 512 == l;
      assert Flat(pages, t, 512 * j + l) == 0;
    }
  }

  // ------------------------------------------------------------------- uvmfree

  /** The table maps nothing outside the first n pages. */
  ghost predicate OnlyBelow(pages: map<nat, Page>, t: Tree, n: nat) {
    forall v: nat :: n <= v ==> Flat(pages, t, v) == 0
  }

  /** uvmfree: free the user pages, then the tables.  It meets a panic exactly when
      a page below sz is missing or a page elsewhere is still mapped; otherwise
      every page of the table goes back to the free list. */
  method UvmFree(m: Machine, root: nat, sz: nat, ghost t: Tree) returns (ok: bool)
    requires m.Valid() && TableOk(m.pages, t) && t.root == root && t.owner.Keys !! Listed(m.free) && sz <= MAXVA
    requires OwnsRange(m.pages, t, 0, PgRoundUp(sz)) && UserPages(m.pages, t, 0, PgRoundUp(sz)) !! Listed(m.free)
    modifies m
    ensures ok <==> AllMapped(old(m.pages), t, 0, PgRoundUp(sz)) && OnlyBelow(old(m.pages), t, PgRoundUp(sz))
    ensures ok ==> m.Valid()
    ensures ok ==> Conserved(old(m.pages), old(m.free), t.owner.Keys
                             + UserPages(old(m.pages), t, 0, PgRoundUp(sz)), m.pages, m.free, {})
  {
    hide FreeListOk, TableOk, Flat, Conserved, Cleared, AllMapped, OwnsRange, UserPages, PgRoundUp, NoLeaf, OnlyBelow,
      Below, Partial, Listed;
    ghost var n := PgRoundUp(sz);
    RoundUpSize(sz, 0);
    NothingToFree(m.pages, m.free, t, 0);
    if sz > 0 {
      ok := m.UvmUnmap(root, 0, PgRoundUp(sz), true, t);
      if !ok {
        return false;
      }
    }
    ghost var p1, f1 := m.pages, m.free;
    assert AllMapped(old(m.pages), t, 0, n) && Cleared(old(m.pages), t, p1, 0, n);
    ConservedApart(old(m.pages), old(m.free), t.owner.Keys + UserPages(old(m.pages), t, 0, n), p1, f1, t.owner.Keys);
    NoLeafIsUnmapped(p1, t);
    ClearedOnly(old(m.pages), t, p1, n);
    WholeTree(p1, t);
    ok := FreeWalk(m, root, Root, t, p1);
    if ok {
      AllFreed(p1, f1, m.pages, m.free, t.owner.Keys);
      ConservedTrans(old(m.pages), old(m.free), t.owner.Keys + UserPages(old(m.pages), t, 0, n), p1, f1, t.owner.Keys,
                     m.pages, m.free, {});
    }
  }

  lemma ClearedOnly(p0: map<nat, Page>, t: Tree, p1: map<nat, Page>, n: nat)
    requires Cleared(p0, t, p1, 0, n)
    ensures (forall v: nat :: Flat(p1, t, v) == 0) <==> OnlyBelow(p0, t, n)
  {
    hide Flat;
    if forall v: nat :: Flat(p1, t, v) == 0 {
      forall v: nat | n <= v
        ensures Flat(p0, t, v) == 0
      {
        assert Flat(p1, t, v) == 0;
      }
    }
  }

  lemma WholeTree(pages: map<nat, Page>, t: Tree)
    requires TableOk(pages, t)
    ensures InTreeNode(t, Root) && PageOf(t, Root) == t.root && Below(t, Root) == t.owner.Keys
    ensures Partial(pages, pages, t, Root, 0)
  {
    forall p | p in t.owner
      ensures p in Below(t, Root)
    {
      match t.owner[p]
      case Root =>
      case Mid(i) => assert Under(t.owner[p], Root, 512);
      case Low(j) => assert Under(t.owner[p], Root, 512);
    }
  }

  lemma AllFreed(p0: map<nat, Page>, f0: seq<nat>, p1: map<nat, Page>, f1: seq<nat>, own: set<nat>)
    requires p1.Keys == p0.Keys && Listed(f1) == Listed(f0) + own
    requires forall p :: p in p1 && p !in own ==> p1[p] == p0[p]
    ensures Conserved(p0, f0, own, p1, f1, {})
  {
  }

  // --------------------------------------------------------- process page tables

  /** The leaves of a process page table: its first n pages, the trampoline and the
      trapframe, and nothing else. */
  ghost predicate ProcessLeaves(pages: map<nat, Page>, t: Tree, n: nat) {
    forall v: nat :: Flat(pages, t, v) != 0 <==> v < n || v == TRAPFRAME || v == TRAMPOLINE
  }

  /** proc_freepagetable: everything the table owns, tables and user pages alike, is
      freed exactly once; trampoline and trapframe pages are left alone.  It panics
      exactly when the leaves are not those of a process of size sz. */
  method ProcFreePagetable(m: Machine, root: nat, sz: nat, ghost t: Tree) returns (ok: bool)
    requires m.Valid() && TableOk(m.pages, t) && t.root == root && t.owner.Keys !! Listed(m.free)
    requires PgRoundUp(sz) <= TRAPFRAME
    requires OwnsRange(m.pages, t, 0, PgRoundUp(sz)) && UserPages(m.pages, t, 0, PgRoundUp(sz)) !! Listed(m.free)
    modifies m
    ensures ok <==> ProcessLeaves(old(m.pages), t, PgRoundUp(sz))
    ensures ok ==> m.Valid()
    ensures ok ==> Conserved(old(m.pages), old(m.free), t.owner.Keys
                             + UserPages(old(m.pages), t, 0, PgRoundUp(sz)), m.pages, m.free, {})
  {
    hide FreeListOk, TableOk, Flat, Conserved, Cleared, AllMapped, OwnsRange, UserPages, PgRoundUp, OnlyBelow, Listed,
      ProcessLeaves;
    ghost var n := PgRoundUp(sz);
    ghost var x := UserPages(m.pages, t, 0, n);
    SizeFits(sz);
    ok := m.UvmUnmap(root, TRAMPOLINE * PGSIZE, 1, false, t);
    if !ok {
      MissingLeaf(old(m.pages), t, n, TRAMPOLINE);
      return false;
    }
    ghost var p1, f1 := m.pages, m.free;
    DropLeaf(old(m.pages), old(m.free), p1, f1, t, TRAMPOLINE, n, x);
    ok := m.UvmUnmap(root, TRAPFRAME * PGSIZE, 1, false, t);
    if !ok {
      MissingSecond(old(m.pages), p1, t, n);
      return false;
    }
    ghost var p2, f2 := m.pages, m.free;
    DropLeaf(p1, f1, p2, f2, t, TRAPFRAME, n, x);
    ConservedTrans(old(m.pages), old(m.free), t.owner.Keys + x, p1, f1, t.owner.Keys + x, p2, f2, t.owner.Keys + x);
    LeavesLeft(old(m.pages), p1, p2, t, n);
    ok := UvmFree(m, root, sz, t);
    if ok {
      ConservedTrans(old(m.pages), old(m.free), t.owner.Keys + x, p2, f2, t.owner.Keys + x, m.pages, m.free, {});
    }
  }

  lemma SizeFits(sz: nat)
    requires PgRoundUp(sz) <= TRAPFRAME
    ensures sz <= MAXVA
  {
  }

  lemma MissingLeaf(p: map<nat, Page>, t: Tree, n: nat, v: nat)
    requires !AllMapped(p, t, v, 1) && (v == TRAMPOLINE || v == TRAPFRAME)
    ensures !ProcessLeaves(p, t, n)
  {
    hide Flat;
    assert Flat(p, t, v) == 0;
  }

  lemma MissingSecond(p0: map<nat, Page>, p1: map<nat, Page>, t: Tree, n: nat)
    requires Cleared(p0, t, p1, TRAMPOLINE, 1) && !AllMapped(p1, t, TRAPFRAME, 1)
    ensures !ProcessLeaves(p0, t, n)
  {
    hide Flat;
    assert Flat(p1, t, TRAPFRAME) == 0;
    assert Flat(p0, t, TRAPFRAME) == 0;
  }

  /** Unmapping a leaf above the user pages without freeing it. */
  lemma DropLeaf(p0: map<nat, Page>, f0: seq<nat>, p1: map<nat, Page>, f1: seq<nat>, t: Tree, v: nat, n: nat,
                 x: set<nat>)
    requires Cleared(p0, t, p1, v, 1) && n <= v && Conserved(p0, f0, t.owner.Keys + {}, p1, f1, t.owner.Keys)
    requires x == UserPages(p0, t, 0, n) && OwnsRange(p0, t, 0, n) && x !! Listed(f0)
    ensures x == UserPages(p1, t, 0, n) && OwnsRange(p1, t, 0, n) && x !! Listed(f1) && t.owner.Keys !! Listed(f1)
    ensures Conserved(p0, f0, t.owner.Keys + x, p1, f1, t.owner.Keys + x)
  {
    hide Flat, Ppn;
    assert t.owner.Keys + {} == t.owner.Keys;
    assert UserPages(p1, t, 0, n) == UserPages(p0, t, 0, n);
    OwnedApart(p0, t, n);
    ConservedFrame(p0, f0, t.owner.Keys, p1, f1, t.owner.Keys, x);
  }

  lemma OwnedApart(p: map<nat, Page>, t: Tree, n: nat)
    requires OwnsRange(p, t, 0, n)
    ensures UserPages(p, t, 0, n) !! t.owner.Keys && UserPages(p, t, 0, n) <= p.Keys
  {
    hide Flat, Ppn;
  }

  lemma LeavesLeft(p0: map<nat, Page>, p1: map<nat, Page>, p2: map<nat, Page>, t: Tree, n: nat)
    requires Cleared(p0, t, p1, TRAMPOLINE, 1) && Cleared(p1, t, p2, TRAPFRAME, 1) && n <= TRAPFRAME
    requires AllMapped(p0, t, TRAMPOLINE, 1) && AllMapped(p1, t, TRAPFRAME, 1)
    ensures ProcessLeaves(p0, t, n) <==> AllMapped(p2, t, 0, n) && OnlyBelow(p2, t, n)
  {
    hide Flat;
    assert forall v: nat :: Flat(p2, t, v) == if v == TRAMPOLINE || v == TRAPFRAME then 0 else Flat(p0, t, v);
    assert Flat(p0, t, TRAMPOLINE) != 0 && Flat(p1, t, TRAPFRAME) != 0
           && Flat(p0, t, TRAPFRAME) == Flat(p1, t, TRAPFRAME);
    if AllMapped(p2, t, 0, n) && OnlyBelow(p2, t, n) {
      forall v: nat
        ensures Flat(p0, t, v) != 0 <==> v < n || v == TRAPFRAME || v == TRAMPOLINE
      {
        assert v < n ==> Flat(p2, t, v) != 0;
        assert n <= v ==> Flat(p2, t, v) == 0;
      }
    }
    if ProcessLeaves(p0, t, n) {
      forall v: nat
        ensures (v < n ==> Flat(p2, t, v) != 0) && (n <= v ==> Flat(p2, t, v) == 0)
      {
        assert Flat(p0, t, v) != 0 <==> v < n || v == TRAPFRAME || v == TRAMPOLINE;
      }
    }
  }

  /** The flat map of a table that maps nothing but trampoline and trapframe. */
  ghost predicate FreshProcess(pages: map<nat, Page>, t: Tree, trapframe: nat, trampoline: nat) {
    forall v: nat :: Flat(pages, t, v) ==
      if v == TRAMPOLINE then LeafEntry(trampoline, PTE_R + PTE_X)
      else if v == TRAPFRAME then LeafEntry(trapframe, PTE_R + PTE_W)
      else 0
  }

  /** proc_pagetable: a table with no user memory.  It takes three pages, one for each
      level; 0 means that there were fewer, and then no page is lost. */
  method ProcPagetable(m: Machine, trapframe: nat, trampoline: nat) returns (root: nat, ghost t: Tree)
    requires m.Valid()
    modifies m
    ensures m.Valid()
    ensures root != 0 ==> TableOk(m.pages, t) && t.root == root && FreshProcess(m.pages, t, trapframe, trampoline)
    ensures root != 0 ==> Conserved(old(m.pages), old(m.free), {}, m.pages, m.free, t.owner.Keys)
    ensures root == 0 ==> Conserved(old(m.pages), old(m.free), {}, m.pages, m.free, {})
    ensures root == 0 <==> |old(m.free)| < 3
    ensures root != 0 ==> |m.free| == |old(m.free)| - 3
  {
    hide FreeListOk, TableOk, Flat, Conserved, Cleared, AllMapped, OwnsRange, UserPages, PgRoundUp, OnlyBelow, Listed,
      Inserted, Unmapped, FreshProcess, IsPerm, LeafEntry, Span, NewTables, Reaches;
    root, t := UvmCreate(m);
    if root == 0 {
      return;
    }
    TopTables(t);
    Perms();
    OnePage(TRAMPOLINE, trampoline);
    var r; ghost var n, t1;
    ghost var p1, f1 := m.pages, m.free;
    r, t1, n := m.MapPages(root, TRAMPOLINE * PGSIZE, PGSIZE, trampoline * PGSIZE, PTE_R + PTE_X, t);
    ghost var p2, f2 := m.pages, m.free;
    ConservedTrans(old(m.pages), old(m.free), {}, p1, f1, t.owner.Keys, p2, f2, t1.owner.Keys);
    ConservedApart(old(m.pages), old(m.free), {}, p2, f2, t1.owner.Keys);
    NothingThere(p1, t, TRAMPOLINE + n);
    if !r.Mapped? {
      StillEmpty(p1, t, p2, t1, f2, TRAMPOLINE, n, trampoline, PTE_R + PTE_X);
      DestroyEmpty(m, root, t1, old(m.pages), old(m.free));
      return 0, t1;
    }
    SameTables(t, t1);
    BelowTop(p1, t, p2, t1, trampoline);
    root, t := MapTrapframe(m, root, trapframe, trampoline, p1, t, t1, old(m.pages), old(m.free));
  }

  /** The rest of proc_pagetable, once the trampoline is mapped. */
  method MapTrapframe(m: Machine, root0: nat, trapframe: nat, trampoline: nat, ghost p1: map<nat, Page>, ghost t0: Tree,
                      ghost t1: Tree, ghost p0: map<nat, Page>, ghost f0: seq<nat>) returns (root: nat, ghost t: Tree)
    requires m.Valid() && TableOk(m.pages, t1) && t1.root == root0 != 0 && t1.owner.Keys !! Listed(m.free)
    requires (forall w: nat :: Flat(p1, t0, w) == 0) && Flat(m.pages, t1, TRAPFRAME) == 0
    requires Inserted(p1, t0, m.pages, t1, TRAMPOLINE, 1, trampoline, PTE_R + PTE_X)
    requires Conserved(p0, f0, {}, m.pages, m.free, t1.owner.Keys)
    modifies m
    ensures m.Valid() && (root == 0 <==> |old(m.free)| < NewTables(t1, TRAPFRAME, 1))
    ensures root == 0 ==> Conserved(p0, f0, {}, m.pages, m.free, {})
    ensures root != 0 ==> TableOk(m.pages, t) && t.root == root && FreshProcess(m.pages, t, trapframe, trampoline)
    ensures root != 0 ==> Conserved(p0, f0, {}, m.pages, m.free, t.owner.Keys)
    ensures root != 0 ==> |old(m.free)| == |m.free| + NewTables(t1, TRAPFRAME, 1)
  {
    hide FreeListOk, TableOk, Flat, Conserved, Cleared, AllMapped, OwnsRange, UserPages, PgRoundUp, OnlyBelow, Listed,
      Inserted, Unmapped, FreshProcess, IsPerm, LeafEntry, Span, NewTables, Reaches;
    Perms();
    OnePage(TRAPFRAME, trapframe);
    ghost var p2, f2 := m.pages, m.free;
    var r; ghost var n;
    r, t, n := m.MapPages(root0, TRAPFRAME * PGSIZE, PGSIZE, trapframe * PGSIZE, PTE_R + PTE_W, t1);
    ghost var p3, f3 := m.pages, m.free;
    ConservedTrans(p0, f0, {}, p2, f2, t1.owner.Keys, p3, f3, t.owner.Keys);
    ConservedApart(p0, f0, {}, p3, f3, t.owner.Keys);
    if !r.Mapped? {
      OneLeaf(p1, t0, p2, t1, p3, t, n, trapframe, trampoline);
      var gone := m.UvmUnmap(root0, TRAMPOLINE * PGSIZE, 1, false, t);
      ghost var p4, f4 := m.pages, m.free;
      assert t.owner.Keys + {} == t.owner.Keys;
      ConservedTrans(p0, f0, {}, p3, f3, t.owner.Keys, p4, f4, t.owner.Keys);
      ConservedApart(p0, f0, {}, p4, f4, t.owner.Keys);
      EmptyAgain(p1, t0, p2, t1, p3, t, p4, f4, n, trapframe, trampoline);
      DestroyEmpty(m, root0, t, p0, f0);
      return 0, t;
    }
    BothMapped(p1, t0, p2, t1, p3, t, trapframe, trampoline);
    return root0, t;
  }

  /** The two pages at the top take one table on each level. */
  lemma TopTables(t: Tree)
    requires t.mid == map[] && t.low == map[]
    ensures NewTables(t, TRAMPOLINE, 0) == 0 && NewTables(t, TRAMPOLINE, 1) == 2
  {
    hide NewTables, Reaches;
    ReachesNone(t, TRAMPOLINE);
    OneMoreTable(t, t, TRAMPOLINE, 0);
  }

  lemma SameTables(t: Tree, t1: Tree)
    requires Reaches(t, t1, TRAMPOLINE, 1)
    ensures NewTables(t1, TRAPFRAME, 0) == 0 && NewTables(t1, TRAPFRAME, 1) == 0
  {
    OneNew(t, TRAMPOLINE);
    assert MidOf(TRAPFRAME) == MidOf(TRAMPOLINE) && LowOf(TRAPFRAME) == LowOf(TRAMPOLINE);
    hide NewMids, NewLows, MidOf, LowOf;
    assert MidOf(TRAPFRAME) in t1.mid && LowOf(TRAPFRAME) in t1.low;
    hide NewTables, Reaches;
    ReachesNone(t1, TRAPFRAME);
    OneMoreTable(t1, t1, TRAPFRAME, 0);
  }

  lemma NothingThere(p: map<nat, Page>, t: Tree, v: nat)
    requires forall w: nat :: Flat(p, t, w) == 0
    ensures Flat(p, t, v) == 0
  {
  }

  lemma BelowTop(p1: map<nat, Page>, t: Tree, p2: map<nat, Page>, t1: Tree, trampoline: nat)
    requires (forall w: nat :: Flat(p1, t, w) == 0) && Inserted(p1, t, p2, t1, TRAMPOLINE, 1, trampoline, PTE_R + PTE_X)
    ensures Flat(p2, t1, TRAPFRAME) == 0
  {
    hide Flat, LeafEntry;
    assert Flat(p2, t1, TRAPFRAME) == Flat(p1, t, TRAPFRAME);
  }

  /** uvmcreate: an empty table. */
  method UvmCreate(m: Machine) returns (root: nat, ghost t: Tree)
    requires m.Valid()
    modifies m
    ensures m.Valid()
    ensures root == 0 ==> Conserved(old(m.pages), old(m.free), {}, m.pages, m.free, {})
    ensures root != 0 ==> TableOk(m.pages, t) && t.root == root && t.owner.Keys !! Listed(m.free)
                          && Conserved(old(m.pages), old(m.free), {}, m.pages, m.free, t.owner.Keys)
                          && forall v: nat :: Flat(m.pages, t, v) == 0
    ensures root == 0 <==> old(m.free) == []
    ensures root != 0 ==> m.free == old(m.free)[1..] && t.mid == map[] && t.low == map[]
  {
    hide FreeListOk, TableOk, Conserved;
    root := m.Kalloc();
    t := Tree(root, map[], map[], map[root := Root]);
    if root == 0 {
      UntouchedPages(m.pages, m.free);
    } else {
      m.pages := m.pages[root := ZeroPage()];
      FreeFrame(old(m.pages)[root := Junk(5)], m.pages, m.freelist, m.free);
      EmptyTree(old(m.pages), old(m.free), m.pages, m.free, t);
    }
  }

  lemma UntouchedPages(p: map<nat, Page>, f: seq<nat>)
    ensures Conserved(p, f, {}, p, f, {})
  {
  }

  lemma EmptyTree(p0: map<nat, Page>, f0: seq<nat>, p1: map<nat, Page>, f1: seq<nat>, t: Tree)
    requires f0 != [] && f1 == f0[1..] && t == Tree(f0[0], map[], map[], map[f0[0] := Root])
    requires f0[0] in p0 && f0[0] !in f1 && p1.Keys == p0.Keys && p1[f0[0]] == ZeroPage()
    requires forall q :: q in p0 && q != f0[0] ==> p1[q] == p0[q]
    ensures TableOk(p1, t) && t.owner.Keys !! Listed(f1) && Conserved(p0, f0, {}, p1, f1, t.owner.Keys)
  {
    assert f0 == [f0[0]] + f1;
    assert Listed(f0) == {f0[0]} + Listed(f1);
    assert t.owner.Keys == {f0[0]};
  }

  /** uvmfree(pagetable, 0) on a table that maps nothing. */
  method DestroyEmpty(m: Machine, root: nat, ghost t: Tree, ghost p0: map<nat, Page>, ghost f0: seq<nat>)
    requires m.Valid() && TableOk(m.pages, t) && t.root == root && t.owner.Keys !! Listed(m.free)
    requires OnlyBelow(m.pages, t, 0) && Conserved(p0, f0, {}, m.pages, m.free, t.owner.Keys)
    modifies m
    ensures m.Valid() && Conserved(p0, f0, {}, m.pages, m.free, {})
  {
    hide FreeListOk, TableOk, Flat, Conserved, AllMapped, OwnsRange, UserPages, OnlyBelow, Listed;
    NothingToFree(m.pages, m.free, t, 0);
    ghost var p1, f1 := m.pages, m.free;
    var ok := UvmFree(m, root, 0, t);
    assert t.owner.Keys + {} == t.owner.Keys;
    ConservedTrans(p0, f0, {}, p1, f1, t.owner.Keys, m.pages, m.free, {});
  }

  lemma Perms()
    ensures IsPerm(PTE_R + PTE_X) && IsPerm(PTE_R + PTE_W)
  {
  }

  lemma StillEmpty(p1: map<nat, Page>, t: Tree, p2: map<nat, Page>, t1: Tree, f2: seq<nat>, v: nat, n: nat, p: nat,
                   perm: nat)
    requires (forall w: nat :: Flat(p1, t, w) == 0) && Inserted(p1, t, p2, t1, v, n, p, perm) && n < 1
    ensures OnlyBelow(p2, t1, 0)
  {
    hide Flat, LeafEntry;
  }

  lemma OneLeaf(p1: map<nat, Page>, t: Tree, p2: map<nat, Page>, t1: Tree, p3: map<nat, Page>, t2: Tree, n: nat,
                trapframe: nat, trampoline: nat)
    requires (forall w: nat :: Flat(p1, t, w) == 0) && Inserted(p1, t, p2, t1, TRAMPOLINE, 1, trampoline, PTE_R + PTE_X)
    requires Inserted(p2, t1, p3, t2, TRAPFRAME, n, trapframe, PTE_R + PTE_W) && n < 1
    ensures AllMapped(p3, t2, TRAMPOLINE, 1)
  {
    hide Flat;
    assert Flat(p2, t1, TRAMPOLINE) == LeafEntry(trampoline, PTE_R + PTE_X);
    assert Flat(p3, t2, TRAMPOLINE) == Flat(p2, t1, TRAMPOLINE);
  }

  lemma EmptyAgain(p1: map<nat, Page>, t: Tree, p2: map<nat, Page>, t1: Tree, p3: map<nat, Page>, t2: Tree,
                   p4: map<nat, Page>, f4: seq<nat>,
                   n: nat, trapframe: nat, trampoline: nat)
    requires (forall w: nat :: Flat(p1, t, w) == 0) && Inserted(p1, t, p2, t1, TRAMPOLINE, 1, trampoline, PTE_R + PTE_X)
    requires Inserted(p2, t1, p3, t2, TRAPFRAME, n, trapframe, PTE_R + PTE_W) && n < 1
    requires Cleared(p3, t2, p4, TRAMPOLINE, 1)
    ensures OnlyBelow(p4, t2, 0)
  {
    hide Flat, LeafEntry;
    forall v: nat
      ensures Flat(p4, t2, v) == 0
    {
      assert v != TRAMPOLINE ==> Flat(p4, t2, v) == Flat(p3, t2, v) == Flat(p2, t1, v) == Flat(p1, t, v);
    }
  }

  lemma BothMapped(p1: map<nat, Page>, t: Tree, p2: map<nat, Page>, t1: Tree, p3: map<nat, Page>, t2: Tree,
                   trapframe: nat, trampoline: nat)
    requires (forall w: nat :: Flat(p1, t, w) == 0) && Inserted(p1, t, p2, t1, TRAMPOLINE, 1, trampoline, PTE_R + PTE_X)
    requires Inserted(p2, t1, p3, t2, TRAPFRAME, 1, trapframe, PTE_R + PTE_W)
    ensures FreshProcess(p3, t2, trapframe, trampoline)
  {
    hide Flat, LeafEntry;
  }
}
