/** The Kernighan-Ritchie allocator of umalloc.c.  Addresses count header-sized
    units; the free list is circular, threaded through the headers, and starts at
    the static header `base`, which lies below the heap. */
module Umalloc {
  import opened Common

  const HEADER: nat := 16
  const MIN_CORE: nat := 4096

  /** A block: its header's address and its size in units, header included. */
  datatype Blk = Blk(a: nat, n: nat)

  /** Units needed for a request: the bytes rounded up, plus the header. */
  function Units(nbytes: nat): (n: nat)
    ensures n >= 1 && (n - 1) * HEADER >= nbytes && (n > 1 ==> (n - 2) * HEADER < nbytes)
  {
    (nbytes + HEADER - 1) / HEADER + 1
  }

  // --------------------------------------------------------- the list as values

  /** In address order from base on, each block ending before the next begins and
      not right at it. */
  ghost predicate Ordered(fl: seq<Blk>, base: nat) {
    && |fl| >= 1 && fl[0] == Blk(base, 0)
    && (forall k :: 0 < k < |fl| ==> fl[k].n >= 1)
    && (forall k, l :: 0 <= k < l < |fl| ==> fl[k].a + fl[k].n < fl[l].a)
  }

  function NextAddr(fl: seq<Blk>, k: nat): nat
    requires k < |fl|
  {
    if k + 1 < |fl| then fl[k + 1].a else fl[0].a
  }

  /** The headers in memory spell out the list. */
  ghost predicate Linked(ptr: map<nat, nat>, size: map<nat, nat>, fl: seq<Blk>) {
    forall k :: 0 <= k < |fl| ==>
      && fl[k].a in ptr && fl[k].a in size
      && size[fl[k].a] == fl[k].n && ptr[fl[k].a] == NextAddr(fl, k)
  }

  predicate Apart(b: Blk, c: Blk) {
    b.a + b.n <= c.a || c.a + c.n <= b.a
  }

  /** Live blocks lie above base, keep their size in their header, and touch neither
      each other nor a free block. */
  ghost predicate LiveOk(size: map<nat, nat>, fl: seq<Blk>, live: map<nat, nat>, base: nat, brk: nat) {
    && (forall a :: a in live ==> live[a] >= 1 && base < a && a + live[a] <= brk && a in size && size[a] == live[a])
    && (forall a, b :: a in live && b in live && a != b ==> Apart(Blk(a, live[a]), Blk(b, live[b])))
    && (forall a, k :: a in live && 0 <= k < |fl| ==> Apart(fl[k], Blk(a, live[a])))
    && (forall k :: 0 <= k < |fl| ==> fl[k].a + fl[k].n <= brk)
  }

  function SumFree(fl: seq<Blk>): nat {
    if fl == [] then 0 else SumFree(fl[..|fl| - 1]) + fl[|fl| - 1].n
  }

  ghost function SumLive(live: map<nat, nat>): nat {
    if live == map[] then 0 else var a :| a in live; live[a] + SumLive(live - {a})
  }

  lemma {:induction false} SumLiveRemove(live: map<nat, nat>, a: nat)
    requires a in live
    ensures SumLive(live) == live[a] + SumLive(live - {a})
    decreases |live|
  {
    var b :| b in live && SumLive(live) == live[b] + SumLive(live - {b});
    if a != b {
      SumLiveRemove(live - {b}, a);
      SumLiveRemove(live - {a}, b);
      assert live - {b} - {a} == live - {a} - {b};
    }
  }

  lemma SumLiveAdd(live: map<nat, nat>, a: nat, n: nat)
    requires a !in live
    ensures SumLive(live[a := n]) == SumLive(live) + n
  {
    SumLiveRemove(live[a := n], a);
    assert live[a := n] - {a} == live;
  }

  lemma {:induction false} SumFreeConcat(s: seq<Blk>, t: seq<Blk>)
    ensures SumFree(s + t) == SumFree(s) + SumFree(t)
  {
    if t == [] {
      assert s + t == s;
    } else {
      SumFreeConcat(s, t[..|t| - 1]);
      assert (s + t)[..|s + t| - 1] == s + t[..|t| - 1];
    }
  }

  // ---------------------------------------------------------------------- free

  /** Block b belongs between list positions k and k + 1. */
  ghost predicate Between(fl: seq<Blk>, k: nat, b: Blk) {
    && k < |fl|
    && fl[k].a + fl[k].n <= b.a
    && (k + 1 < |fl| ==> b.a + b.n <= fl[k + 1].a)
  }

  predicate JoinsNext(fl: seq<Blk>, k: nat, b: Blk)
    requires k < |fl|
  {
    k + 1 < |fl| && b.a + b.n == fl[k + 1].a
  }

  predicate JoinsPrev(fl: seq<Blk>, k: nat, b: Blk)
    requires k < |fl|
  {
    fl[k].a + fl[k].n == b.a
  }

  /** b together with the next block, if they touch. */
  function Upper(fl: seq<Blk>, k: nat, b: Blk): Blk
    requires k < |fl|
  {
    if JoinsNext(fl, k, b) then Blk(b.a, b.n + fl[k + 1].n) else b
  }

  function Rest(fl: seq<Blk>, k: nat, b: Blk): seq<Blk>
    requires k < |fl|
  {
    if JoinsNext(fl, k, b) then fl[k + 2..] else fl[k + 1..]
  }

  /** The list with b inserted after position k and coalesced on both sides. */
  function Freed(fl: seq<Blk>, k: nat, b: Blk): seq<Blk>
    requires k < |fl|
  {
    if JoinsPrev(fl, k, b) then fl[..k] + [Blk(fl[k].a, fl[k].n + Upper(fl, k, b).n)] + Rest(fl, k, b)
    else fl[..k + 1] + [Upper(fl, k, b)] + Rest(fl, k, b)
  }

  /** Element i of the new list. */
  lemma FreedAt(fl: seq<Blk>, k: nat, b: Blk)
    requires k < |fl|
    ensures var r, j := Freed(fl, k, b), if JoinsPrev(fl, k, b) then k else k + 1;
            var skip := |fl| - |r|;
            && j < |r| && |r| == j + 1 + |Rest(fl, k, b)|
            && (forall i :: 0 <= i < j ==> r[i] == fl[i])
            && (forall i :: j < i < |r| ==> i + skip > k && r[i] == fl[i + skip])
            && (JoinsNext(fl, k, b) ==> j + skip == k + 1)
            && (!JoinsNext(fl, k, b) ==> j + skip == k)
            && r[j] == (if JoinsPrev(fl, k, b) then Blk(fl[k].a, fl[k].n + Upper(fl, k, b).n) else Upper(fl, k, b))
  {
  }

  lemma FreedOrdered(fl: seq<Blk>, base: nat, k: nat, b: Blk)
    requires Ordered(fl, base) && Between(fl, k, b) && b.n >= 1 && base < b.a
    ensures Ordered(Freed(fl, k, b), base)
  {
    hide Rest, Upper;
    FreedSizes(fl, base, k, b);
    hide Freed;
    var r := Freed(fl, k, b);
    forall i, l | 0 <= i < l < |r|
      ensures r[i].a + r[i].n < r[l].a
    {
      FreedPair(fl, base, k, b, i, l);
    }
  }

  lemma FreedSizes(fl: seq<Blk>, base: nat, k: nat, b: Blk)
    requires Ordered(fl, base) && Between(fl, k, b) && b.n >= 1 && base < b.a
    ensures var r := Freed(fl, k, b);
            |r| >= 1 && r[0] == Blk(base, 0) && forall i :: 0 < i < |r| ==> r[i].n >= 1
  {
    FreedAt(fl, k, b);
    hide Freed, Rest;
  }

  lemma FreedPair(fl: seq<Blk>, base: nat, k: nat, b: Blk, i: nat, l: nat)
    requires Ordered(fl, base) && Between(fl, k, b) && b.n >= 1 && base < b.a && i < l < |Freed(fl, k, b)|
    ensures var r := Freed(fl, k, b); r[i].a + r[i].n < r[l].a
  {
    hide Freed, Rest, Upper, Ordered;
    FreedAt(fl, k, b);
    var r, j := Freed(fl, k, b), if JoinsPrev(fl, k, b) then k else k + 1;
    var skip := |fl| - |r|;
    UpperAt(fl, k, b);
    if l == j {
      NewAfter(fl, base, k, b, i);
    } else if i == j {
      NewBefore(fl, base, k, b, l + skip);
    } else {
      OldPair(fl, base, if i < j then i else i + skip, if l < j then l else l + skip);
    }
  }

  lemma UpperAt(fl: seq<Blk>, k: nat, b: Blk)
    requires k < |fl|
    ensures Upper(fl, k, b).a == b.a
  {
  }

  /** The new block lies after the blocks before it, and before those after it. */
  lemma NewAfter(fl: seq<Blk>, base: nat, k: nat, b: Blk, i: nat)
    requires Ordered(fl, base) && Between(fl, k, b) && i <= k && (JoinsPrev(fl, k, b) ==> i < k)
    ensures fl[i].a + fl[i].n < (if JoinsPrev(fl, k, b) then fl[k].a else b.a)
  {
    assert i < k ==> fl[i].a + fl[i].n < fl[k].a;
  }

  lemma NewBefore(fl: seq<Blk>, base: nat, k: nat, b: Blk, l: nat)
    requires Ordered(fl, base) && Between(fl, k, b) && l < |fl| && l > (if JoinsNext(fl, k, b) then k + 1 else k)
    ensures Upper(fl, k, b).a + Upper(fl, k, b).n < fl[l].a
    ensures JoinsPrev(fl, k, b) ==> fl[k].a + (fl[k].n + Upper(fl, k, b).n) < fl[l].a
  {
    assert l > k + 1 ==> fl[k + 1].a + fl[k + 1].n < fl[l].a;
  }

  lemma OldPair(fl: seq<Blk>, base: nat, i: nat, l: nat)
    requires Ordered(fl, base) && i < l < |fl|
    ensures fl[i].a + fl[i].n < fl[l].a
  {
  }

  lemma FreedSum(fl: seq<Blk>, k: nat, b: Blk)
    requires k < |fl|
    ensures SumFree(Freed(fl, k, b)) == SumFree(fl) + b.n
  {
    hide SumFree, Upper, Rest;
    var up, rest := Upper(fl, k, b), Rest(fl, k, b);
    SplitSum(fl, k);
    RestSum(fl, k, b);
    if JoinsPrev(fl, k, b) {
      ThreeParts(fl[..k], Blk(fl[k].a, fl[k].n + up.n), rest);
    } else {
      OneMore(fl, k);
      ThreeParts(fl[..k + 1], up, rest);
    }
  }

  lemma RestSum(fl: seq<Blk>, k: nat, b: Blk)
    requires k < |fl|
    ensures SumFree(Rest(fl, k, b)) + Upper(fl, k, b).n == SumFree(fl[k + 1..]) + b.n
  {
    hide SumFree;
    if JoinsNext(fl, k, b) {
      assert fl[k + 1..] == [fl[k + 1]] + fl[k + 2..];
      SumOne(fl[k + 1]);
      SumFreeConcat([fl[k + 1]], fl[k + 2..]);
    }
  }

  lemma OneMore(fl: seq<Blk>, k: nat)
    requires k < |fl|
    ensures SumFree(fl[..k + 1]) == SumFree(fl[..k]) + fl[k].n
  {
    assert fl[..k + 1][..k] == fl[..k];
  }

  lemma SumOne(b: Blk)
    ensures SumFree([b]) == b.n
  {
    assert [b][..0] == [];
  }

  lemma ThreeParts(s: seq<Blk>, b: Blk, t: seq<Blk>)
    ensures SumFree(s + [b] + t) == SumFree(s) + b.n + SumFree(t)
  {
    SumFreeConcat(s + [b], t);
    SumFreeConcat(s, [b]);
  }

  lemma SplitSum(fl: seq<Blk>, k: nat)
    requires k < |fl|
    ensures SumFree(fl) == SumFree(fl[..k]) + fl[k].n + SumFree(fl[k + 1..])
  {
    assert fl == fl[..k] + [fl[k]] + fl[k + 1..];
    ThreeParts(fl[..k], fl[k], fl[k + 1..]);
  }

  lemma FreedApart(fl: seq<Blk>, base: nat, k: nat, b: Blk, c: Blk)
    requires Ordered(fl, base) && Between(fl, k, b) && c.n >= 1 && Apart(b, c)
    requires forall i :: 0 <= i < |fl| ==> Apart(fl[i], c)
    ensures forall i :: 0 <= i < |Freed(fl, k, b)| ==> Apart(Freed(fl, k, b)[i], c)
  {
    FreedAt(fl, k, b);
    NewApart(fl, k, b, c);
    hide Freed, Rest, Upper, Apart;
    var r, j := Freed(fl, k, b), if JoinsPrev(fl, k, b) then k else k + 1;
    forall i | 0 <= i < |r|
      ensures Apart(r[i], c)
    {
      if i != j {
        assert r[i] == fl[if i < j then i else i + (|fl| - |r|)];
      }
    }
  }

  lemma NewApart(fl: seq<Blk>, k: nat, b: Blk, c: Blk)
    requires k < |fl| && c.n >= 1 && Apart(b, c) && Apart(fl[k], c) && (k + 1 < |fl| ==> Apart(fl[k + 1], c))
    ensures Apart(Upper(fl, k, b), c)
    ensures JoinsPrev(fl, k, b) ==> Apart(Blk(fl[k].a, fl[k].n + Upper(fl, k, b).n), c)
  {
  }

  /** free's assignments after the search, p being the block at position k. */
  function FreedSize(ptr: map<nat, nat>, size: map<nat, nat>, p: nat, bp: nat): map<nat, nat>
    requires p in ptr && p in size && bp in size && ptr[p] in size
  {
    var s1 := if bp + size[bp] == ptr[p] then size[bp := size[bp] + size[ptr[p]]] else size;
    if p + s1[p] == bp then s1[p := s1[p] + s1[bp]] else s1
  }

  function FreedPtr(ptr: map<nat, nat>, size: map<nat, nat>, p: nat, bp: nat): map<nat, nat>
    requires p in ptr && p in size && bp in size && ptr[p] in size && ptr[p] in ptr
  {
    var s1 := if bp + size[bp] == ptr[p] then size[bp := size[bp] + size[ptr[p]]] else size;
    var p1 := ptr[bp := if bp + size[bp] == ptr[p] then ptr[ptr[p]] else ptr[p]];
    p1[p := if p + s1[p] == bp then p1[bp] else bp]
  }

  lemma LinksAt(ptr: map<nat, nat>, size: map<nat, nat>, fl: seq<Blk>, k: nat)
    requires Linked(ptr, size, fl) && k < |fl|
    ensures fl[k].a in ptr && fl[k].a in size && size[fl[k].a] == fl[k].n
    ensures ptr[fl[k].a] == NextAddr(fl, k) && NextAddr(fl, k) in ptr && NextAddr(fl, k) in size
  {
    if k + 1 < |fl| {
      assert fl[k + 1].a in ptr;
    } else {
      assert fl[0].a in ptr;
    }
  }

  lemma FreedLinked(ptr: map<nat, nat>, size: map<nat, nat>, fl: seq<Blk>, base: nat, k: nat, b: Blk)
    requires Ordered(fl, base) && Linked(ptr, size, fl) && Between(fl, k, b) && b.n >= 1 && base < b.a
    requires b.a in size && size[b.a] == b.n
    ensures fl[k].a in ptr && fl[k].a in size && ptr[fl[k].a] in ptr && ptr[fl[k].a] in size
    ensures Linked(FreedPtr(ptr, size, fl[k].a, b.a), FreedSize(ptr, size, fl[k].a, b.a), Freed(fl, k, b))
  {
    hide Freed, Rest, FreedPtr, FreedSize, Ordered, NextAddr, Upper, JoinsNext, JoinsPrev;
    LinksAt(ptr, size, fl, k);
    FreedAt(fl, k, b);
    FreedCore(ptr, size, fl, base, k, b);
    FreedNext(fl, k, b);
    var ptr', size', r := FreedPtr(ptr, size, fl[k].a, b.a), FreedSize(ptr, size, fl[k].a, b.a), Freed(fl, k, b);
    var j := if JoinsPrev(fl, k, b) then k else k + 1;
    var skip := |fl| - |r|;
    forall i | 0 <= i < |r|
      ensures r[i].a in ptr' && r[i].a in size' && size'[r[i].a] == r[i].n && ptr'[r[i].a] == NextAddr(r, i)
    {
      UpperAddr(fl, k, b);
      if i < k {
        FreedElsewhere(ptr, size, fl, base, k, b, i);
      } else if i > j {
        FreedElsewhere(ptr, size, fl, base, k, b, i + skip);
      }
    }
  }

  lemma UpperAddr(fl: seq<Blk>, k: nat, b: Blk)
    requires k < |fl|
    ensures Upper(fl, k, b).a == b.a
  {
  }

  /** The successors in the new list. */
  lemma FreedNext(fl: seq<Blk>, k: nat, b: Blk)
    requires k < |fl|
    ensures var r, j := Freed(fl, k, b), if JoinsPrev(fl, k, b) then k else k + 1;
            var skip := |fl| - |r|;
            && j < |r| && r[j].a == (if JoinsPrev(fl, k, b) then fl[k].a else b.a)
            && (forall i :: 0 <= i < k ==> NextAddr(r, i) == NextAddr(fl, i))
            && (!JoinsPrev(fl, k, b) ==> NextAddr(r, k) == b.a)
            && NextAddr(r, j) == (if JoinsNext(fl, k, b) then NextAddr(fl, k + 1) else NextAddr(fl, k))
            && (forall i :: j < i < |r| ==> k < i + skip < |fl| && NextAddr(r, i) == NextAddr(fl, i + skip))
  {
    FreedAt(fl, k, b);
    hide Freed, Rest;
  }

  /** Headers away from the insertion point keep their fields. */
  lemma FreedElsewhere(ptr: map<nat, nat>, size: map<nat, nat>, fl: seq<Blk>, base: nat, k: nat, b: Blk, i: nat)
    requires Ordered(fl, base) && Linked(ptr, size, fl) && Between(fl, k, b) && b.n >= 1 && base < b.a
    requires b.a in size && size[b.a] == b.n && i < |fl| && i != k && (i == k + 1 ==> !JoinsNext(fl, k, b))
    requires fl[k].a in ptr && fl[k].a in size && ptr[fl[k].a] in ptr && ptr[fl[k].a] in size
    ensures fl[i].a in FreedPtr(ptr, size, fl[k].a, b.a)
    ensures FreedPtr(ptr, size, fl[k].a, b.a)[fl[i].a] == NextAddr(fl, i)
    ensures fl[i].a in FreedSize(ptr, size, fl[k].a, b.a) && FreedSize(ptr, size, fl[k].a, b.a)[fl[i].a] == fl[i].n
  {
    LinksAt(ptr, size, fl, i);
    hide Linked;
    assert fl[i].a != fl[k].a && fl[i].a != b.a;
  }

  /** The fields at the insertion point itself. */
  lemma FreedCore(ptr: map<nat, nat>, size: map<nat, nat>, fl: seq<Blk>, base: nat, k: nat, b: Blk)
    requires Ordered(fl, base) && Linked(ptr, size, fl) && Between(fl, k, b) && b.n >= 1 && base < b.a
    requires b.a in size && size[b.a] == b.n
    requires fl[k].a in ptr && fl[k].a in size && ptr[fl[k].a] in ptr && ptr[fl[k].a] in size
    ensures var ptr', size' := FreedPtr(ptr, size, fl[k].a, b.a), FreedSize(ptr, size, fl[k].a, b.a);
            var after := if JoinsNext(fl, k, b) then NextAddr(fl, k + 1) else NextAddr(fl, k);
            && fl[k].a in ptr' && fl[k].a in size' && b.a in ptr' && b.a in size'
            && (JoinsPrev(fl, k, b) ==> ptr'[fl[k].a] == after && size'[fl[k].a] == fl[k].n + Upper(fl, k, b).n)
            && (!JoinsPrev(fl, k, b) ==> ptr'[fl[k].a] == b.a && size'[fl[k].a] == fl[k].n
                                         && ptr'[b.a] == after && size'[b.a] == Upper(fl, k, b).n)
  {
    LinksAt(ptr, size, fl, k);
    if JoinsNext(fl, k, b) {
      LinksAt(ptr, size, fl, k + 1);
    }
    hide Linked;
    assert NextAddr(fl, k) == b.a + b.n <==> JoinsNext(fl, k, b);
    assert fl[k].a != b.a;
  }

  // ------------------------------------------------------------------- the heap

  class Heap {
    const base: nat
    var ptr: map<nat, nat>
    var size: map<nat, nat>
    var freep: nat
    var brk: nat
    ghost var fl: seq<Blk>
    ghost var f: nat
    ghost var live: map<nat, nat>
    ghost var core: nat

    /** fl is the free list from base on and f the position of freep; live are the
        blocks handed out; core counts the units obtained from the system. */
    ghost predicate Valid()
      reads this
    {
      && 0 < base < brk
      && (freep == 0 <==> fl == [])
      && (freep == 0 ==> live == map[])
      && (freep != 0 ==> f < |fl| && fl[f].a == freep && Ordered(fl, base))
      && Linked(ptr, size, fl)
      && LiveOk(size, fl, live, base, brk)
      && SumFree(fl) + SumLive(live) == core
    }

    constructor (b: nat, end: nat)
      requires 0 < b < end
      ensures Valid() && live == map[] && fl == [] && core == 0
    {
      base := b;
      ptr := map[];
      size := map[];
      freep := 0;
      brk := end;
      fl := [];
      f := 0;
      live := map[];
      core := 0;
    }

    /** free's search: the free block after which bp belongs. */
    method FindPlace(bp: nat, ghost n: nat) returns (p: nat, ghost k: nat)
      requires f < |fl| && fl[f].a == freep && Ordered(fl, base) && Linked(ptr, size, fl)
      requires n >= 1 && base < bp && forall i :: 0 <= i < |fl| ==> Apart(fl[i], Blk(bp, n))
      ensures k < |fl| && p == fl[k].a && Between(fl, k, Blk(bp, n)) && p in ptr
    {
      hide Ordered, Linked, Between, NextAddr;
      k := Place(fl, base, Blk(bp, n));
      ghost var i: nat := f;
      p := freep;
      LinksAt(ptr, size, fl, i);
      StopsAt(fl, base, Blk(bp, n), k, i);
      while !(bp > p && bp < ptr[p])
        invariant i < |fl| && p == fl[i].a && p in ptr && ptr[p] == NextAddr(fl, i)
        invariant i == k <==> (bp > p && bp < ptr[p]) || (p >= ptr[p] && (bp > p || bp < ptr[p]))
        invariant NextAddr(fl, i) == fl[if i + 1 < |fl| then i + 1 else 0].a
        decreases if i <= k then k - i else k - i + |fl|
      {
        if p >= ptr[p] && (bp > p || bp < ptr[p]) {
          break;
        }
        p := ptr[p];
        i := if i + 1 < |fl| then i + 1 else 0;
        LinksAt(ptr, size, fl, i);
        StopsAt(fl, base, Blk(bp, n), k, i);
      }
      StopsAt(fl, base, Blk(bp, n), k, i);
    }

    /** The body of free, for a block that is not in the list. */
    method FreeBlock(bp: nat) returns (ghost k: nat)
      requires f < |fl| && fl[f].a == freep && Ordered(fl, base) && Linked(ptr, size, fl) && base < bp
      requires bp in size && size[bp] >= 1 && forall i :: 0 <= i < |fl| ==> Apart(fl[i], Blk(bp, size[bp]))
      modifies this`ptr, this`size, this`freep, this`fl, this`f
      ensures k < |old(fl)| && Between(old(fl), k, Blk(bp, old(size)[bp]))
      ensures fl == Freed(old(fl), k, Blk(bp, old(size)[bp])) && f == k
      ensures f < |fl| && fl[f].a == freep && Ordered(fl, base) && Linked(ptr, size, fl)
      ensures old(size).Keys <= size.Keys
      ensures forall a :: a in old(size) && a != bp && (forall i :: 0 <= i < |old(fl)| ==> old(fl)[i].a != a) ==>
                size[a] == old(size)[a]
    {
      hide Linked, Ordered, Freed;
      var p;
      p, k := FindPlace(bp, size[bp]);
      ghost var b := Blk(bp, size[bp]);
      FreedLinked(ptr, size, fl, base, k, b);
      FreedOrdered(fl, base, k, b);
      FreedHead(fl, k, b);
      ghost var ptr0, size0 := ptr, size;
      if bp + size[bp] == ptr[p] {
        size := size[bp := size[bp] + size[ptr[p]]];
        ptr := ptr[bp := ptr[ptr[p]]];
      } else {
        ptr := ptr[bp := ptr[p]];
      }
      if p + size[p] == bp {
        size := size[p := size[p] + size[bp]];
        ptr := ptr[p := ptr[bp]];
      } else {
        ptr := ptr[p := bp];
      }
      assert size == FreedSize(ptr0, size0, p, bp);
      assert ptr == FreedPtr(ptr0, size0, p, bp);
      freep := p;
      fl, f := Freed(fl, k, b), k;
    }

    /** free: the block goes back to the list, coalesced with its neighbours. */
    method Free(ap: nat) returns (ghost k: nat)
      requires Valid() && ap >= 1 && ap - 1 in live
      modifies this`ptr, this`size, this`freep, this`fl, this`f, this`live
      ensures Valid() && freep != 0
      ensures live == old(live) - {ap - 1}
      ensures k < |old(fl)| && fl == Freed(old(fl), k, Blk(ap - 1, old(live)[ap - 1]))
    {
      hide Linked, Ordered, Freed, SumFree, SumLive, LiveOk, Between;
      var bp := ap - 1;
      ghost var b := Blk(bp, live[bp]);
      ghost var rest := live - {bp};
      LiveAt(size, fl, live, base, brk, bp);
      k := FreeBlock(bp);
      HeadsNotNull(fl, base, f);
      FreedSum(old(fl), k, b);
      SumLiveRemove(live, bp);
      FreedLive(old(size), old(fl), old(live), rest, size, base, brk, brk, k, b);
      live := rest;
    }

    /** morecore: get at least 4096 units from the system and free them into the list.
        sbrk is the system's answer: -1, or an address at or above all core so far. */
    method MoreCore(nunits: nat, sbrk: int) returns (p: nat, ghost w: nat)
      requires Valid() && freep != 0 && nunits >= 1
      requires sbrk == -1 || sbrk >= brk
      modifies this`ptr, this`size, this`freep, this`brk, this`fl, this`f, this`core
      ensures Valid() && freep != 0 && (p == 0 <==> sbrk == -1)
      ensures p == 0 ==> fl == old(fl) && f == old(f) && freep == old(freep) && core == old(core) && brk == old(brk)
      ensures p != 0 ==> p == freep && core == old(core) + Core(nunits) && brk == sbrk + Core(nunits)
      ensures p != 0 ==> w < |fl| && fl[w].n >= nunits
    {
      hide Ordered, Freed, SumFree, SumLive, Linked, LiveOk, Between;
      var nu := if nunits < MIN_CORE then MIN_CORE else nunits;
      if sbrk == -1 {
        return 0, 0;
      }
      var hp: nat := sbrk;
      NewHeader(size, ptr, fl, live, base, brk, hp, nu);
      size := size[hp := nu];
      ghost var b := Blk(hp, nu);
      ghost var size1 := size;
      ghost var k := FreeBlock(hp);
      FreedSum(old(fl), k, b);
      FreedLive(size1, old(fl), live, live, size, base, brk, hp + nu, k, b);
      w := FreedFits(old(fl), k, b);
      brk := hp + nu;
      core := core + nu;
      HeadsNotNull(fl, base, f);
      p := freep;
    }

    /** malloc's first look: with no list yet, there is just the static header. */
    method StartList()
      requires Valid()
      modifies this`ptr, this`size, this`freep, this`fl, this`f
      ensures Valid() && freep != 0 && fl == if old(fl) == [] then [Blk(base, 0)] else old(fl)
      ensures old(fl) != [] ==> f == old(f)
    {
      hide Ordered, Linked, LiveOk, SumFree, SumLive, NextAddr;
      if freep == 0 {
        FirstList(ptr, size, live, base, brk);
        ptr := ptr[base := base];
        freep := base;
        size := size[base := 0];
        fl, f := [Blk(base, 0)], 0;
      }
    }

    /** malloc: next fit from freep on, splitting off the tail of a larger block; the
        system is asked for core at most once, and only when nothing fits.  The
        request must be small enough for morecore's byte count to fit in an int. */
    method Malloc(nbytes: nat, sbrk: int) returns (r: Option<nat>, ghost called: bool, ghost at: nat)
      requires Valid() && Core(Units(nbytes)) * HEADER < 0x8000_0000
      requires sbrk == -1 || sbrk >= brk
      modifies this
      ensures Valid()
      ensures called <==> forall k :: 0 <= k < |old(fl)| ==> old(fl)[k].n < Units(nbytes)
      ensures core == old(core) + (if called && sbrk != -1 then Core(Units(nbytes)) else 0)
      ensures r.None? <==> called && sbrk == -1
      ensures r.None? ==> live == old(live)
      ensures r.Some? ==> r.value >= 1 && r.value - 1 !in old(live) && live == old(live)[r.value - 1 := Units(nbytes)]
      ensures !called ==> at < |old(fl)| && old(fl)[at].n >= Units(nbytes)
      ensures !called ==> NoFitBefore(old(fl), old(f), at, Units(nbytes))
      ensures !called ==> fl == Taken(old(fl), at, Units(nbytes))
      ensures !called ==> r == Some(TakenAddr(old(fl), at, Units(nbytes)) + 1)
    {
      hide Ordered, Linked, LiveOk, SumFree, SumLive, Units, Core, Taken, NextAddr;
      var nunits := Units(nbytes);
      called, at := false, 0;
      StartList();
      ghost var fl1 := fl;
      var prevp := freep;
      LinksAt(ptr, size, fl, f);
      NextIs(fl, f);
      var p := ptr[prevp];
      ghost var j: nat, i: nat := f, NextIndex(fl, f);
      while true
        invariant Valid() && freep != 0 && j < |fl| && i == NextIndex(fl, j) && p == fl[i].a && prevp == fl[j].a
        invariant NoFitBefore(fl, f, i, nunits) && live == old(live)
        invariant !called ==> fl == fl1 && core == old(core) && brk == old(brk) && (old(fl) != [] ==> f == old(f))
        invariant called ==> sbrk != -1 && core == old(core) + Core(nunits)
        invariant called ==> exists w :: 0 <= w < |fl| && fl[w].n >= nunits
        invariant called ==> forall k :: 0 <= k < |fl1| ==> fl1[k].n < nunits
        decreases !called, if i > f then |fl| - i + f else f - i
      {
        LinksAt(ptr, size, fl, i);
        LinksAt(ptr, size, fl, j);
        if size[p] >= nunits {
          at := i;
          r := Take(nunits, prevp, p, j, i);
          return;
        }
        SameIndex(fl, base, i, f);
        if p == freep {
          NoFitAtAll(fl, f, nunits);
          ghost var w;
          p, w := MoreCore(nunits, sbrk);
          called := true;
          if p == 0 {
            return None, true, 0;
          }
          assert fl[w].n >= nunits;
          i := f;
          LinksAt(ptr, size, fl, i);
        }
        NextIs(fl, i);
        NoFitStep(fl, f, i, nunits);
        prevp := p;
        p := ptr[p];
        j, i := i, NextIndex(fl, i);
      }
    }

    /** malloc's way out: unlink an exact fit, or cut the tail off a larger block. */
    method Take(nunits: nat, prevp: nat, q: nat, ghost j: nat, ghost i: nat) returns (r: Option<nat>)
      requires Valid() && freep != 0 && nunits >= 1 && j < |fl| && i == NextIndex(fl, j)
      requires q == fl[i].a && prevp == fl[j].a && fl[i].n >= nunits
      modifies this`ptr, this`size, this`freep, this`fl, this`f, this`live
      ensures Valid() && r.Some? && r.value >= 1
      ensures r.value - 1 == TakenAddr(old(fl), i, nunits) && fl == Taken(old(fl), i, nunits)
      ensures r.value - 1 !in old(live) && live == old(live)[r.value - 1 := nunits]
    {
      hide Ordered, Linked, LiveOk, SumFree, SumLive, Taken;
      var p := q;
      TakenOk(ptr, size, fl, live, base, brk, i, nunits);
      TakenSum(fl, i, nunits);
      SumLiveAdd(live, TakenAddr(fl, i, nunits), nunits);
      if size[p] == nunits {
        ptr := ptr[prevp := ptr[p]];
      } else {
        size := size[p := size[p] - nunits];
        p := p + size[p];
        size := size[p := nunits];
      }
      freep := prevp;
      live := live[p := nunits];
      fl, f := Taken(fl, i, nunits), i - 1;
      return Some(p + 1);
    }
  }

  function TakenAddr(fl: seq<Blk>, i: nat, n: nat): nat
    requires i < |fl| && fl[i].n >= n
  {
    fl[i].a + fl[i].n - n
  }

  /** The list after n units were cut from the block at position i. */
  function Taken(fl: seq<Blk>, i: nat, n: nat): seq<Blk>
    requires i < |fl| && fl[i].n >= n
  {
    if fl[i].n == n then fl[..i] + fl[i + 1..] else fl[i := Blk(fl[i].a, fl[i].n - n)]
  }

  function NextIndex(fl: seq<Blk>, i: nat): nat {
    if i + 1 < |fl| then i + 1 else 0
  }

  /** malloc's walk from freep (position f) to position i has passed position l. */
  predicate Passed(f: nat, i: nat, l: nat) {
    if i > f then f < l < i else l > f || l < i
  }

  ghost predicate NoFitBefore(fl: seq<Blk>, f: nat, i: nat, n: nat) {
    forall l :: 0 <= l < |fl| && Passed(f, i, l) ==> fl[l].n < n
  }

  function Core(nunits: nat): (r: nat)
    ensures r >= nunits && r >= MIN_CORE && (r == nunits || r == MIN_CORE)
  {
    if nunits < MIN_CORE then MIN_CORE else nunits
  }

  lemma HeadsNotNull(fl: seq<Blk>, base: nat, i: nat)
    requires Ordered(fl, base) && i < |fl| && base > 0
    ensures fl[i].a > 0
  {
    assert i > 0 ==> fl[0].a + fl[0].n < fl[i].a;
  }

  lemma LiveAt(size: map<nat, nat>, fl: seq<Blk>, live: map<nat, nat>, base: nat, brk: nat, bp: nat)
    requires LiveOk(size, fl, live, base, brk) && bp in live
    ensures base < bp && bp in size && size[bp] == live[bp] >= 1 && bp + live[bp] <= brk
    ensures forall i :: 0 <= i < |fl| ==> Apart(fl[i], Blk(bp, live[bp]))
  {
  }

  lemma FreedFits(fl: seq<Blk>, k: nat, b: Blk) returns (w: nat)
    requires k < |fl|
    ensures w < |Freed(fl, k, b)| && Freed(fl, k, b)[w].n >= b.n
  {
    FreedAt(fl, k, b);
    hide Freed;
    w := if JoinsPrev(fl, k, b) then k else k + 1;
  }

  lemma NewHeader(size: map<nat, nat>, ptr: map<nat, nat>, fl: seq<Blk>, live: map<nat, nat>, base: nat, brk: nat,
                  hp: nat, nu: nat)
    requires Linked(ptr, size, fl) && LiveOk(size, fl, live, base, brk) && Ordered(fl, base) && hp >= brk > base
    requires nu >= 1
    ensures Linked(ptr, size[hp := nu], fl) && LiveOk(size[hp := nu], fl, live, base, brk)
    ensures forall i :: 0 <= i < |fl| ==> Apart(fl[i], Blk(hp, nu))
    ensures hp !in live && live - {hp} == live
  {
    assert forall i :: 0 <= i < |fl| ==> fl[i].a != hp by {
      forall i | 0 <= i < |fl|
        ensures fl[i].a != hp
      {
        assert fl[i].a + fl[i].n <= brk;
      }
    }
  }

  /** Live blocks stay apart from the coalesced list. */
  lemma FreedLive(size: map<nat, nat>, fl: seq<Blk>, live: map<nat, nat>, rest: map<nat, nat>, size': map<nat, nat>,
                  base: nat, brk: nat, brk': nat, k: nat, b: Blk)
    requires Ordered(fl, base) && LiveOk(size, fl, live, base, brk) && Between(fl, k, b) && b.n >= 1
    requires rest == live - {b.a} && (b.a in live ==> live[b.a] == b.n) && (b.a !in live ==> b.a >= brk)
    requires brk' >= brk && brk' >= b.a + b.n
    requires size.Keys <= size'.Keys
    requires forall a :: a in size && a != b.a && (forall i :: 0 <= i < |fl| ==> fl[i].a != a) ==> size'[a] == size[a]
    ensures LiveOk(size', Freed(fl, k, b), rest, base, brk')
  {
    FreedBelow(fl, base, k, b, brk');
    hide Freed;
    forall a | a in rest
      ensures size'[a] == rest[a]
      ensures forall i :: 0 <= i < |Freed(fl, k, b)| ==> Apart(Freed(fl, k, b)[i], Blk(a, rest[a]))
    {
      forall i | 0 <= i < |fl|
        ensures fl[i].a != a
      {
        assert Apart(fl[i], Blk(a, live[a]));
      }
      if b.a in live {
        assert Apart(Blk(a, live[a]), Blk(b.a, live[b.a]));
      }
      FreedApart(fl, base, k, b, Blk(a, rest[a]));
    }
  }

  lemma FreedBelow(fl: seq<Blk>, base: nat, k: nat, b: Blk, brk: nat)
    requires Between(fl, k, b) && b.a + b.n <= brk && forall i :: 0 <= i < |fl| ==> fl[i].a + fl[i].n <= brk
    ensures forall i :: 0 <= i < |Freed(fl, k, b)| ==> Freed(fl, k, b)[i].a + Freed(fl, k, b)[i].n <= brk
  {
    FreedAt(fl, k, b);
    hide Freed, Rest;
  }

  lemma FreedHead(fl: seq<Blk>, k: nat, b: Blk)
    requires k < |fl|
    ensures k < |Freed(fl, k, b)| && Freed(fl, k, b)[k].a == fl[k].a
  {
    FreedAt(fl, k, b);
  }

  /** The loop condition and the break of free's search hold at one position only. */
  lemma StopsAt(fl: seq<Blk>, base: nat, b: Blk, k: nat, i: nat)
    requires Ordered(fl, base) && b.n >= 1 && base < b.a && Between(fl, k, b) && i < |fl|
    ensures var p, next := fl[i].a, NextAddr(fl, i);
            i == k <==> (b.a > p && b.a < next) || (p >= next && (b.a > p || b.a < next))
    ensures NextAddr(fl, i) == fl[if i + 1 < |fl| then i + 1 else 0].a
  {
    assert i < k ==> fl[i].a + fl[i].n < fl[k].a;
    assert k < i ==> fl[k].a + fl[k].n < fl[i].a;
    assert k + 1 < i ==> fl[k + 1].a + fl[k + 1].n < fl[i].a;
    assert i + 1 < k ==> fl[i + 1].a + fl[i + 1].n < fl[k].a;
    assert i > 0 ==> fl[0].a + fl[0].n < fl[i].a;
  }

  /** A block apart from every listed one has one place in the list. */
  lemma {:induction false} Place(fl: seq<Blk>, base: nat, b: Blk) returns (k: nat)
    requires Ordered(fl, base) && b.n >= 1 && base < b.a && forall i :: 0 <= i < |fl| ==> Apart(fl[i], b)
    ensures k < |fl| && Between(fl, k, b)
  {
    k := 0;
    while k + 1 < |fl| && fl[k + 1].a < b.a
      invariant k < |fl| && fl[k].a < b.a
    {
      k := k + 1;
    }
    assert Apart(fl[k], b);
    if k + 1 < |fl| {
      assert Apart(fl[k + 1], b);
    }
  }

  // -------------------------------------------------------------- malloc's steps

  lemma FirstList(ptr: map<nat, nat>, size: map<nat, nat>, live: map<nat, nat>, base: nat, brk: nat)
    requires live == map[] && 0 < base < brk
    ensures var fl := [Blk(base, 0)];
            && Ordered(fl, base) && Linked(ptr[base := base], size[base := 0], fl)
            && LiveOk(size[base := 0], fl, live, base, brk) && SumFree(fl) == 0 && SumFree([]) == 0
  {
    SumOne(Blk(base, 0));
  }

  lemma NextIs(fl: seq<Blk>, i: nat)
    requires i < |fl|
    ensures NextAddr(fl, i) == fl[NextIndex(fl, i)].a
    ensures forall n :: NoFitBefore(fl, i, NextIndex(fl, i), n)
  {
  }

  lemma SameIndex(fl: seq<Blk>, base: nat, i: nat, f: nat)
    requires Ordered(fl, base) && i < |fl| && f < |fl|
    ensures fl[i].a == fl[f].a <==> i == f
  {
    assert i < f ==> fl[i].a + fl[i].n < fl[f].a;
    assert f < i ==> fl[f].a + fl[f].n < fl[i].a;
  }

  lemma NoFitAtAll(fl: seq<Blk>, f: nat, n: nat)
    requires f < |fl| && NoFitBefore(fl, f, f, n) && fl[f].n < n
    ensures forall k :: 0 <= k < |fl| ==> fl[k].n < n
  {
    forall k | 0 <= k < |fl|
      ensures fl[k].n < n
    {
      assert k != f ==> Passed(f, f, k);
    }
  }

  lemma NoFitStep(fl: seq<Blk>, f: nat, i: nat, n: nat)
    requires f < |fl| && i < |fl| && (i == f || (NoFitBefore(fl, f, i, n) && fl[i].n < n))
    ensures NoFitBefore(fl, f, NextIndex(fl, i), n)
  {
  }

  lemma TakenSum(fl: seq<Blk>, i: nat, n: nat)
    requires i < |fl| && fl[i].n >= n
    ensures SumFree(Taken(fl, i, n)) == SumFree(fl) - n
  {
    hide SumFree;
    SplitSum(fl, i);
    if fl[i].n == n {
      SumFreeConcat(fl[..i], fl[i + 1..]);
    } else {
      var t := fl[i := Blk(fl[i].a, fl[i].n - n)];
      SplitSum(t, i);
      assert t[..i] == fl[..i] && t[i + 1..] == fl[i + 1..];
    }
  }

  function TakenPtr(ptr: map<nat, nat>, fl: seq<Blk>, i: nat, n: nat): map<nat, nat>
    requires 1 <= i < |fl| && fl[i].a in ptr
  {
    if fl[i].n == n then ptr[fl[i - 1].a := ptr[fl[i].a]] else ptr
  }

  function TakenSize(size: map<nat, nat>, fl: seq<Blk>, i: nat, n: nat): map<nat, nat>
    requires i < |fl| && fl[i].n >= n
  {
    if fl[i].n == n then size else size[fl[i].a := fl[i].n - n][TakenAddr(fl, i, n) := n]
  }

  lemma TakenOrdered(fl: seq<Blk>, base: nat, i: nat, n: nat)
    requires Ordered(fl, base) && i < |fl| && fl[i].n >= n >= 1
    ensures i >= 1 && Ordered(Taken(fl, i, n), base) && i - 1 < |Taken(fl, i, n)| && Taken(fl, i, n)[i - 1] == fl[i - 1]
  {
  }

  lemma TakenLinked(ptr: map<nat, nat>, size: map<nat, nat>, fl: seq<Blk>, base: nat, i: nat, n: nat)
    requires Ordered(fl, base) && Linked(ptr, size, fl) && 1 <= i < |fl| && fl[i].n >= n >= 1 && fl[i].a in ptr
    ensures Linked(TakenPtr(ptr, fl, i, n), TakenSize(size, fl, i, n), Taken(fl, i, n))
  {
    hide Ordered, NextAddr;
    var ptr', size', r := TakenPtr(ptr, fl, i, n), TakenSize(size, fl, i, n), Taken(fl, i, n);
    LinksAt(ptr, size, fl, i);
    forall k | 0 <= k < |r|
      ensures r[k].a in ptr' && r[k].a in size' && size'[r[k].a] == r[k].n && ptr'[r[k].a] == NextAddr(r, k)
    {
      var l := if fl[i].n == n && k >= i then k + 1 else k;
      LinksAt(ptr, size, fl, l);
      TakenNext(fl, i, n, k);
      hide Linked;
      SameIndex(fl, base, l, i);
      SameIndex(fl, base, l, i - 1);
      NotInside(fl, base, l, i, n);
    }
  }

  lemma TakenNext(fl: seq<Blk>, i: nat, n: nat, k: nat)
    requires 1 <= i < |fl| && fl[i].n >= n && k < |Taken(fl, i, n)|
    ensures var r := Taken(fl, i, n);
            if fl[i].n == n
            then && |r| == |fl| - 1 && r[k] == fl[if k < i then k else k + 1]
                 && NextAddr(r, k) == NextAddr(fl, if k < i - 1 then k else k + 1)
            else |r| == |fl| && NextAddr(r, k) == NextAddr(fl, k)
  {
    var r := Taken(fl, i, n);
    if fl[i].n == n {
      assert forall l :: 0 <= l < |r| ==> r[l] == fl[if l < i then l else l + 1];
    } else {
      assert forall l :: 0 <= l < |r| ==> r[l].a == fl[l].a;
    }
  }

  lemma NotInside(fl: seq<Blk>, base: nat, l: nat, i: nat, n: nat)
    requires Ordered(fl, base) && l < |fl| && i < |fl| && fl[i].n >= n >= 1
    ensures fl[i].n > n ==> fl[l].a != TakenAddr(fl, i, n)
  {
    assert l < i ==> fl[l].a + fl[l].n < fl[i].a;
    assert i < l ==> fl[i].a + fl[i].n < fl[l].a;
  }

  lemma TakenLive(size: map<nat, nat>, fl: seq<Blk>, live: map<nat, nat>, base: nat, brk: nat, i: nat, n: nat)
    requires Ordered(fl, base) && LiveOk(size, fl, live, base, brk) && 1 <= i < |fl| && fl[i].n >= n >= 1
    requires fl[i].a in size && size[fl[i].a] == fl[i].n
    ensures TakenAddr(fl, i, n) !in live
    ensures LiveOk(TakenSize(size, fl, i, n), Taken(fl, i, n), live[TakenAddr(fl, i, n) := n], base, brk)
  {
    var b, r := Blk(TakenAddr(fl, i, n), n), Taken(fl, i, n);
    assert fl[0].a + fl[0].n < fl[i].a;
    forall a | a in live
      ensures Apart(b, Blk(a, live[a])) && a != b.a && a != fl[i].a
    {
      assert Apart(fl[i], Blk(a, live[a]));
    }
    forall k | 0 <= k < |r|
      ensures Apart(r[k], b) && r[k].a + r[k].n <= brk
      ensures forall a :: a in live ==> Apart(r[k], Blk(a, live[a]))
    {
      TakenApart(size, fl, live, base, brk, i, n, k);
    }
    hide Taken, Ordered;
  }

  lemma TakenApart(size: map<nat, nat>, fl: seq<Blk>, live: map<nat, nat>, base: nat, brk: nat, i: nat, n: nat, k: nat)
    requires Ordered(fl, base) && LiveOk(size, fl, live, base, brk) && 1 <= i < |fl| && fl[i].n >= n >= 1
    requires k < |Taken(fl, i, n)|
    ensures var r := Taken(fl, i, n);
            && Apart(r[k], Blk(TakenAddr(fl, i, n), n)) && r[k].a + r[k].n <= brk
            && forall a :: a in live ==> Apart(r[k], Blk(a, live[a]))
  {
    var l := if fl[i].n == n && k >= i then k + 1 else k;
    assert l < i ==> fl[l].a + fl[l].n < fl[i].a;
    assert i < l ==> fl[i].a + fl[i].n < fl[l].a;
    assert forall a :: a in live ==> Apart(fl[l], Blk(a, live[a]));
  }

  lemma TakenOk(ptr: map<nat, nat>, size: map<nat, nat>, fl: seq<Blk>, live: map<nat, nat>, base: nat, brk: nat,
                i: nat, n: nat)
    requires Ordered(fl, base) && Linked(ptr, size, fl) && LiveOk(size, fl, live, base, brk) && base > 0
    requires i < |fl| && fl[i].n >= n >= 1
    ensures i >= 1 && fl[i].a in ptr && fl[i].a in size && size[fl[i].a] == fl[i].n && fl[i - 1].a > 0
    ensures Ordered(Taken(fl, i, n), base) && i - 1 < |Taken(fl, i, n)| && Taken(fl, i, n)[i - 1] == fl[i - 1]
    ensures Linked(TakenPtr(ptr, fl, i, n), TakenSize(size, fl, i, n), Taken(fl, i, n))
    ensures TakenAddr(fl, i, n) !in live
    ensures LiveOk(TakenSize(size, fl, i, n), Taken(fl, i, n), live[TakenAddr(fl, i, n) := n], base, brk)
  {
    hide Ordered, Linked, LiveOk, Taken;
    LinksAt(ptr, size, fl, i);
    TakenOrdered(fl, base, i, n);
    HeadsNotNull(fl, base, i - 1);
    TakenLinked(ptr, size, fl, base, i, n);
    TakenLive(size, fl, live, base, brk, i, n);
  }
}
