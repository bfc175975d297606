/** Sv39 page tables as vm.c keeps them in physical memory: page contents, the
    hardware's three-level translation, and the flat map it stands for.  Pages
    are named by physical page number, virtual pages by virtual page number. */
module PageTable {
  const PGSIZE: nat := 4096

  /** One beyond the highest virtual page number that walk accepts (MAXVA / PGSIZE). */
  const MAXVPN: nat := 0x400_0000

  const MAXVA: nat := MAXVPN * PGSIZE

  /** The two pages at the top of every process. */
  const TRAMPOLINE: nat := MAXVPN - 1
  const TRAPFRAME: nat := MAXVPN - 2

  /** A page read as 512 page-table entries. */
  type Page = p: seq<nat> | |p| == 512 witness seq(512, i => 0)

  function ZeroPage(): Page { seq(512, i => 0) }

  // ------------------------------------------------------------------ entries

  predicate V(pte: nat) { pte % 2 == 1 }

  /** The entry has one of the R, W, X bits, so it maps a page. */
  predicate Leaf(pte: nat) { (pte / 2) % 8 != 0 }

  predicate U(pte: nat) { (pte / 16) % 2 == 1 }

  function Ppn(pte: nat): nat { pte / 1024 }

  function Flags(pte: nat): nat { pte % 1024 }

  /** An entry that points to a lower table. */
  function Pointer(p: nat): nat { 1024 * p + 1 }

  /** PA2PTE(pa) | perm | PTE_V for a page number and flag bits. */
  function LeafEntry(p: nat, perm: nat): nat { 1024 * p + perm + (1 - perm % 2) }

  predicate IsPerm(perm: nat) { perm < 1024 && Leaf(perm) }

  lemma EntryParts(p: nat, perm: nat)
    requires IsPerm(perm)
    ensures V(LeafEntry(p, perm)) && Leaf(LeafEntry(p, perm)) && Ppn(LeafEntry(p, perm)) == p
    ensures Flags(LeafEntry(p, perm)) == perm + (1 - perm % 2)
    ensures U(LeafEntry(p, perm)) == U(perm)
    ensures V(Pointer(p)) && !Leaf(Pointer(p)) && Ppn(Pointer(p)) == p
  {
    OneIsPointer();
    hide V, Leaf, U, Ppn, Flags;
    MadeOdd(perm);
    FieldsOf(p, perm + (1 - perm % 2));
    FieldsOf(p, 1);
  }

  lemma OneIsPointer()
    ensures V(1) && !Leaf(1)
  {
  }

  /** The fields of an entry put together from a page number and flag bits. */
  lemma FieldsOf(p: nat, f: nat)
    requires f < 1024
    ensures Ppn(1024 * p + f) == p && Flags(1024 * p + f) == f
    ensures V(1024 * p + f) == V(f) && Leaf(1024 * p + f) == Leaf(f) && U(1024 * p + f) == U(f)
  {
    Half(p, f);
    Sixteenth(p, f);
  }

  lemma Half(p: nat, f: nat)
    ensures (1024 * p + f) / 2 == 8 * (64 * p) + f / 2 && (8 * (64 * p) + f / 2) % 8 == f / 2 % 8
  {
  }

  lemma Sixteenth(p: nat, f: nat)
    ensures (1024 * p + f) / 16 == 2 * (32 * p) + f / 16 && (2 * (32 * p) + f / 16) % 2 == f / 16 % 2
  {
  }

  lemma MadeOdd(perm: nat)
    requires perm < 1024
    ensures var f := perm + (1 - perm % 2);
            f < 1024 && V(f) && Leaf(f) == Leaf(perm) && U(f) == U(perm)
  {
    var f := perm + (1 - perm % 2);
    assert f / 2 == perm / 2 && f / 16 == perm / 16;
  }

  // ----------------------------------------------------------------- indices

  /** The table index at a level: bits 9 * level .. 9 * level + 8 of the page number. */
  function Px(level: nat, v: nat): (r: nat)
    requires level <= 2
    ensures r < 512
  {
    (if level == 2 then v / 0x4_0000 else if level == 1 then v / 512 else v) % 512
  }

  lemma Indices(v: nat)
    requires v < MAXVPN
    ensures Px(2, v) == v / 0x4_0000 < 256
    ensures v / 512 == 512 * Px(2, v) + Px(1, v)
    ensures v / 512 / 512 == Px(2, v)
    ensures v == 512 * (v / 512) + Px(0, v)
  {
  }

  // -------------------------------------------------- the tree behind a root

  datatype Node = Root | Mid(i: nat) | Low(j: nat)

  /** The table pages below a root.
      mid:   level-1 tables by level-2 index
      low:   level-0 tables by the upper 18 bits of the page number
      owner: the inverse, which makes the pages of the tree distinct */
  datatype Tree = Tree(root: nat, mid: map<nat, nat>, low: map<nat, nat>, owner: map<nat, Node>)

  ghost predicate Shape(t: Tree) {
    && t.root in t.owner && t.owner[t.root] == Root
    && (forall i :: i in t.mid ==> i < 512 && t.mid[i] in t.owner && t.owner[t.mid[i]] == Mid(i))
    && (forall j :: j in t.low ==> t.low[j] in t.owner && t.owner[t.low[j]] == Low(j) && j / 512 in t.mid)
    && (forall p :: p in t.owner ==>
          match t.owner[p]
          case Root => p == t.root
          case Mid(i) => i in t.mid && t.mid[i] == p
          case Low(j) => j in t.low && t.low[j] == p)
  }

  function RootEntry(t: Tree, i: nat): nat {
    if i in t.mid then Pointer(t.mid[i]) else 0
  }

  function MidEntry(t: Tree, i: nat, k: nat): nat {
    if 512 * i + k in t.low then Pointer(t.low[512 * i + k]) else 0
  }

  /** A level-0 entry is empty or maps a page. */
  predicate LowEntryOk(e: nat) {
    e == 0 || (V(e) && Leaf(e))
  }

  ghost predicate Entries(pages: map<nat, Page>, t: Tree)
    requires Shape(t)
  {
    && t.owner.Keys <= pages.Keys
    && (forall i :: 0 <= i < 512 ==> pages[t.root][i] == RootEntry(t, i))
    && (forall i, k :: i in t.mid && 0 <= k < 512 ==> pages[t.mid[i]][k] == MidEntry(t, i, k))
    && (forall j, k :: j in t.low && 0 <= k < 512 ==> LowEntryOk(pages[t.low[j]][k]))
  }

  ghost predicate TableOk(pages: map<nat, Page>, t: Tree) {
    Shape(t) && Entries(pages, t)
  }

  /** The flat map: the entry for virtual page v, zero when v is not mapped. */
  function Flat(pages: map<nat, Page>, t: Tree, v: nat): nat {
    if v / 512 in t.low && t.low[v / 512] in pages then pages[t.low[v / 512]][v % 512] else 0
  }

  // ------------------------------------------------------ hardware translation

  /** The entry the MMU finds for virtual page v, level by level (section 4.4 of
      the RISC-V privileged architecture); zero stands for a page fault. */
  function Translate(pages: map<nat, Page>, root: nat, v: nat): nat {
    if root !in pages then 0
    else
      var e2 := pages[root][Px(2, v)];
      if !V(e2) || Leaf(e2) || Ppn(e2) !in pages then 0
      else
        var e1 := pages[Ppn(e2)][Px(1, v)];
        if !V(e1) || Leaf(e1) || Ppn(e1) !in pages then 0
        else
          var e0 := pages[Ppn(e1)][Px(0, v)];
          if V(e0) && Leaf(e0) then e0 else 0
  }

  /** The tree of tables in memory means its flat map. */
  lemma TranslateIsFlat(pages: map<nat, Page>, t: Tree, v: nat)
    requires TableOk(pages, t) && v < MAXVPN
    ensures Translate(pages, t.root, v) == Flat(pages, t, v)
  {
    Indices(v);
    var i, k := Px(2, v), Px(1, v);
    assert pages[t.root][i] == RootEntry(t, i);
    if i in t.mid {
      PointerParts(t.mid[i]);
      assert pages[t.mid[i]][k] == MidEntry(t, i, k);
      if 512 * i + k in t.low {
        PointerParts(t.low[512 * i + k]);
        assert LowEntryOk(pages[t.low[512 * i + k]][v % 512]);
      }
    }
  }

  lemma PointerParts(p: nat)
    ensures V(Pointer(p)) && !Leaf(Pointer(p)) && Ppn(Pointer(p)) == p
  {
    assert (1024 * p + 1) / 2 == 512 * p;
  }

  // --------------------------------------------------- changes to the tables

  /** Outside its own pages, memory does not matter to a tree. */
  lemma TableFrame(pages: map<nat, Page>, pages': map<nat, Page>, t: Tree)
    requires TableOk(pages, t)
    requires forall p :: p in t.owner ==> p in pages' && pages'[p] == pages[p]
    ensures TableOk(pages', t)
    ensures forall v: nat :: Flat(pages', t, v) == Flat(pages, t, v)
  {
  }

  function AddMid(t: Tree, i: nat, p: nat): Tree {
    t.(mid := t.mid[i := p], owner := t.owner[p := Mid(i)])
  }

  function AddLow(t: Tree, j: nat, p: nat): Tree {
    t.(low := t.low[j := p], owner := t.owner[p := Low(j)])
  }

  function SetEntry(pages: map<nat, Page>, p: nat, k: nat, e: nat): map<nat, Page>
    requires p in pages && k < 512
  {
    pages[p := pages[p][k := e]]
  }

  /** walk hangs a zeroed page under the root: nothing is mapped or unmapped. */
  lemma AddMidOk(pages: map<nat, Page>, t: Tree, i: nat, p: nat)
    requires TableOk(pages, t) && i < 512 && i !in t.mid && p !in t.owner && p in pages && pages[p] == ZeroPage()
    ensures TableOk(SetEntry(pages, t.root, i, Pointer(p)), AddMid(t, i, p))
    ensures forall v: nat :: Flat(SetEntry(pages, t.root, i, Pointer(p)), AddMid(t, i, p), v) == Flat(pages, t, v)
  {
    var pages', t' := SetEntry(pages, t.root, i, Pointer(p)), AddMid(t, i, p);
    assert Shape(t');
    forall a, k | a in t'.mid && 0 <= k < 512
      ensures pages'[t'.mid[a]][k] == MidEntry(t', a, k)
    {
      if a == i {
        assert 512 * i + k !in t.low by {
          assert (512 * i + k) / 512 == i;
        }
      } else {
        assert pages[t.mid[a]][k] == MidEntry(t, a, k);
      }
    }
  }

  /** The same one level down. */
  lemma AddLowOk(pages: map<nat, Page>, t: Tree, i: nat, k: nat, p: nat)
    requires TableOk(pages, t) && i in t.mid && k < 512 && 512 * i + k !in t.low
    requires p !in t.owner && p in pages && pages[p] == ZeroPage()
    ensures TableOk(SetEntry(pages, t.mid[i], k, Pointer(p)), AddLow(t, 512 * i + k, p))
    ensures forall v: nat ::
              Flat(SetEntry(pages, t.mid[i], k, Pointer(p)), AddLow(t, 512 * i + k, p), v) == Flat(pages, t, v)
  {
    AddLowShape(t, i, k, p);
    AddLowEntries(pages, t, i, k, p);
    AddLowFlat(pages, t, i, k, p);
  }

  lemma AddLowShape(t: Tree, i: nat, k: nat, p: nat)
    requires Shape(t) && i in t.mid && k < 512 && 512 * i + k !in t.low && p !in t.owner
    ensures Shape(AddLow(t, 512 * i + k, p))
  {
    assert (512 * i + k) / 512 == i;
  }

  lemma AddLowEntries(pages: map<nat, Page>, t: Tree, i: nat, k: nat, p: nat)
    requires TableOk(pages, t) && i in t.mid && k < 512 && 512 * i + k !in t.low
    requires p !in t.owner && p in pages && pages[p] == ZeroPage() && Shape(AddLow(t, 512 * i + k, p))
    ensures Entries(SetEntry(pages, t.mid[i], k, Pointer(p)), AddLow(t, 512 * i + k, p))
  {
    var pages', t' := SetEntry(pages, t.mid[i], k, Pointer(p)), AddLow(t, 512 * i + k, p);
    forall a, l | a in t'.mid && 0 <= l < 512
      ensures pages'[t'.mid[a]][l] == MidEntry(t', a, l)
    {
      AddLowMid(pages, t, i, k, p, a, l);
    }
    hide MidEntry;
    assert forall l :: 0 <= l < 512 ==> pages'[t'.root][l] == pages[t.root][l];
    assert forall m :: m in t.low ==> pages'[t.low[m]] == pages[t.low[m]];
  }

  lemma AddLowMid(pages: map<nat, Page>, t: Tree, i: nat, k: nat, p: nat, a: nat, l: nat)
    requires TableOk(pages, t) && i in t.mid && k < 512 && a in t.mid && l < 512
    ensures SetEntry(pages, t.mid[i], k, Pointer(p))[t.mid[a]][l] == MidEntry(AddLow(t, 512 * i + k, p), a, l)
  {
    assert pages[t.mid[a]][l] == MidEntry(t, a, l);
    if 512 * a + l == 512 * i + k {
      assert a == i && l == k;
    }
  }

  lemma AddLowFlat(pages: map<nat, Page>, t: Tree, i: nat, k: nat, p: nat)
    requires TableOk(pages, t) && i in t.mid && k < 512 && 512 * i + k !in t.low
    requires p !in t.owner && p in pages && pages[p] == ZeroPage()
    ensures forall v: nat ::
              Flat(SetEntry(pages, t.mid[i], k, Pointer(p)), AddLow(t, 512 * i + k, p), v) == Flat(pages, t, v)
  {
    var pages' := SetEntry(pages, t.mid[i], k, Pointer(p));
    hide Entries;
    assert forall m :: m in t.low && t.low[m] in pages ==> pages'[t.low[m]] == pages[t.low[m]];
    assert pages'[p] == ZeroPage();
  }

  /** Writing a level-0 entry changes the mapping of exactly one virtual page. */
  lemma SetLeafOk(pages: map<nat, Page>, t: Tree, v: nat, e: nat)
    requires TableOk(pages, t) && v / 512 in t.low && LowEntryOk(e)
    ensures TableOk(SetEntry(pages, t.low[v / 512], v % 512, e), t)
    ensures forall w: nat :: Flat(SetEntry(pages, t.low[v / 512], v % 512, e), t, w) == if w == v then e
            else Flat(pages, t, w)
  {
    var pages' := SetEntry(pages, t.low[v / 512], v % 512, e);
    forall w: nat
      ensures Flat(pages', t, w) == if w == v then e else Flat(pages, t, w)
    {
      if w / 512 == v / 512 && w % 512 == v % 512 {
        assert w == v;
      }
    }
  }
}
