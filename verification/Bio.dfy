/** The buffer cache: a fixed table of buffers on a circular doubly linked list
    kept in least-recently-used order.  Pointers are table indices; the index
    one past the last buffer is the list head. */
module Bio {
  import opened Blocks
  import opened Common

  /** The one disk device; device 0 marks a buffer that was never used. */
  const ROOTDEV: nat := 1

  datatype Buf = Buf(valid: bool, dev: nat, blockno: nat, locked: bool, refcnt: nat,
                     prev: nat, next: nat, data: Block)

  const FRESH_BUF := Buf(false, 0, 0, false, 0, 0, 0, ZeroBlock())

  // ---------------------------------------------------------------- the list

  predicate Distinct(s: seq<nat>) {
    forall i, j :: 0 <= i < j < |s| ==> s[i] != s[j]
  }

  /** The nodes met when following `next` once round from the head. */
  function Ring(head: nat, order: seq<nat>): seq<nat> {
    [head] + order + [head]
  }

  /** `next` and `prev` of the head and of the nodes of `order` form one circular
      doubly linked list that visits `order` in that order. */
  ghost predicate Linked(s: seq<Buf>, head: nat, order: seq<nat>) {
    && head < |s|
    && Distinct(order)
    && (forall k :: 0 <= k < |order| ==> order[k] < |s| && order[k] != head)
    && (forall k :: 0 <= k <= |order| ==>
          && s[Ring(head, order)[k]].next == Ring(head, order)[k + 1]
          && s[Ring(head, order)[k + 1]].prev == Ring(head, order)[k])
  }

  /** Two tables that differ only in their list links. */
  ghost predicate SameFields(s: seq<Buf>, t: seq<Buf>) {
    && |s| == |t|
    && forall i :: 0 <= i < |s| ==> s[i].(prev := 0, next := 0) == t[i].(prev := 0, next := 0)
  }

  /** Insert b right after the head (bio.c's four pointer assignments). */
  function LinkFront(s: seq<Buf>, head: nat, b: nat): (r: seq<Buf>)
    requires head < |s| && b < |s| && s[head].next < |s|
    requires b != head
    ensures |r| == |s|
  {
    var s1 := s[b := s[b].(next := s[head].next, prev := head)];
    var first := s1[head].next;
    var s2 := s1[first := s1[first].(prev := b)];
    s2[head := s2[head].(next := b)]
  }

  /** Splice b out of the list. */
  function Unlink(s: seq<Buf>, b: nat): (r: seq<Buf>)
    requires b < |s| && s[b].next < |s| && s[b].prev < |s|
    ensures |r| == |s|
  {
    var s1 := s[s[b].next := s[s[b].next].(prev := s[b].prev)];
    s1[s1[b].prev := s1[s1[b].prev].(next := s1[b].next)]
  }

  lemma LinkFrontLinked(s: seq<Buf>, head: nat, order: seq<nat>, b: nat)
    requires Linked(s, head, order) && b < |s| && b != head && b !in order
    requires s[head].next < |s|
    ensures Linked(LinkFront(s, head, b), head, [b] + order)
  {
    var r, ring, ring' := LinkFront(s, head, b), Ring(head, order), Ring(head, [b] + order);
    assert ring[0] == head && ring[1] == s[head].next;
    assert forall k :: 2 <= k < |ring'| ==> ring'[k] == ring[k - 1];
    forall k | 0 <= k <= |order| + 1
      ensures r[ring'[k]].next == ring'[k + 1] && r[ring'[k + 1]].prev == ring'[k]
    {
      RingInjective(head, order);
      if k >= 2 {
        assert s[ring[k - 1]].next == ring[k] && s[ring[k]].prev == ring[k - 1];
      }
    }
  }

  lemma UnlinkLinked(s: seq<Buf>, head: nat, order: seq<nat>, p: nat)
    requires Linked(s, head, order) && p < |order|
    ensures s[order[p]].next < |s| && s[order[p]].prev < |s|
    ensures Linked(Unlink(s, order[p]), head, Without(order, p))
    ensures order[p] !in Without(order, p)
  {
    var b, ring, order' := order[p], Ring(head, order), Without(order, p);
    assert ring[p + 1] == b;
    assert s[ring[p]].next == b && s[b].prev == ring[p];
    assert s[b].next == ring[p + 2] && s[ring[p + 2]].prev == b;
    var r, ring' := Unlink(s, b), Ring(head, order');
    assert forall k :: 0 <= k < |ring'| ==> ring'[k] == if k <= p then ring[k] else ring[k + 1];
    forall k | 0 <= k <= |order'|
      ensures r[ring'[k]].next == ring'[k + 1] && r[ring'[k + 1]].prev == ring'[k]
    {
      RingInjective(head, order);
      if k < p {
        assert s[ring[k]].next == ring[k + 1] && s[ring[k + 1]].prev == ring[k];
      } else if k > p {
        assert s[ring[k + 1]].next == ring[k + 2] && s[ring[k + 2]].prev == ring[k + 1];
      }
    }
  }

  /** Apart from the head at both ends, the ring has no repeated node. */
  lemma RingInjective(head: nat, order: seq<nat>)
    requires Distinct(order) && head !in order
    ensures forall i, j :: 0 <= i < j <= |order| + 1 && Ring(head, order)[i] == Ring(head, order)[j]
              ==> i == 0 && j == |order| + 1
  {
  }

  // --------------------------------------------------------------- contents

  /** Ghost bookkeeping of the cache.
      order:   the list from most to least recently released
      stamp:   when each buffer's reference count last fell to zero
      holders: how many callers hold a reference to each buffer
      cached:  which buffer holds which block of the disk
      pinned:  the blocks that sit in the log
      dirty:   locked buffers changed since they were last written or logged
      view:    the contents last given to each block */
  datatype Book = Book(order: seq<nat>, stamp: seq<nat>, clock: nat, holders: seq<nat>,
                       cached: map<nat, nat>, pinned: set<nat>, dirty: set<nat>, view: DiskMap)

  /** The list order is the order of last release, most recent first. */
  ghost predicate StampsOk(order: seq<nat>, stamp: seq<nat>, clock: nat) {
    && |order| == |stamp|
    && (forall k :: 0 <= k < |order| ==> order[k] < |stamp| && stamp[order[k]] < clock)
    && (forall k, l :: 0 <= k < l < |order| ==> stamp[order[k]] > stamp[order[l]])
  }

  ghost predicate ListOk(s: seq<Buf>, n: nat, g: Book) {
    && |s| == n + 1
    && |g.order| == n
    && Linked(s, n, g.order)
    && StampsOk(g.order, g.stamp, g.clock)
  }

  /** One if the buffer's block is in the log, otherwise zero. */
  function LogRef(b: Buf, pinned: set<nat>): nat {
    if b.dev == ROOTDEV && b.blockno in pinned then 1 else 0
  }

  /** A reference count is the live holders plus one if the block is in the log. */
  ghost predicate CountsOk(s: seq<Buf>, n: nat, g: Book) {
    && |s| == n + 1
    && |g.holders| == n
    && (forall i :: 0 <= i < n ==> s[i].refcnt == g.holders[i] + LogRef(s[i], g.pinned))
    && (forall i :: 0 <= i < n && s[i].locked ==> g.holders[i] > 0)
    && (forall i :: 0 <= i < n && g.holders[i] > 0 ==> s[i].dev == ROOTDEV)
  }

  /** Every block of the disk is held by at most one buffer. */
  ghost predicate IndexOk(s: seq<Buf>, n: nat, disk: DiskMap, g: Book) {
    && |s| == n + 1
    && (forall i :: 0 <= i < n ==> s[i].dev == 0 || s[i].dev == ROOTDEV)
    && (forall i :: 0 <= i < n && s[i].dev == ROOTDEV ==>
          s[i].blockno in g.cached && g.cached[s[i].blockno] == i)
    && (forall b :: b in g.cached ==>
          b in disk && g.cached[b] < n && s[g.cached[b]].dev == ROOTDEV && s[g.cached[b]].blockno == b)
    && (forall b :: b in g.pinned ==> b in g.cached && s[g.cached[b]].valid)
  }

  /** A clean cached copy is the last contents given to its block; the disk may
      lag behind only for blocks in the log. */
  ghost predicate DataOk(s: seq<Buf>, n: nat, disk: DiskMap, g: Book) {
    && |s| == n + 1
    && g.view.Keys == disk.Keys
    && (forall i :: 0 <= i < n && s[i].dev == ROOTDEV && s[i].valid && i !in g.dirty ==>
          s[i].blockno in disk && s[i].data == g.view[s[i].blockno])
    && (forall i :: i in g.dirty ==> 0 <= i < n && s[i].locked && s[i].valid)
    && (forall b :: b in disk && b !in g.pinned ==> disk[b] == g.view[b])
  }

  ghost predicate ContentsOk(s: seq<Buf>, n: nat, disk: DiskMap, g: Book) {
    CountsOk(s, n, g) && IndexOk(s, n, disk, g) && DataOk(s, n, disk, g)
  }

  /** The unused buffer that was released longest ago. */
  ghost predicate LeastRecentlyUsed(s: seq<Buf>, n: nat, g: Book, i: nat) {
    && |s| == n + 1 && |g.stamp| == n
    && i < n
    && s[i].refcnt == 0
    && (forall j :: 0 <= j < n && s[j].refcnt == 0 ==> g.stamp[i] <= g.stamp[j])
  }

  /** The list holds every buffer exactly once. */
  lemma ListIsPermutation(s: seq<Buf>, n: nat, g: Book)
    requires ListOk(s, n, g)
    ensures forall i :: 0 <= i < n ==> i in g.order
    ensures forall i :: 0 <= i < n ==> multiset(g.order)[i] == 1
  {
    DistinctCovers(g.order, n);
    forall i | 0 <= i < n
      ensures multiset(g.order)[i] == 1
    {
      DistinctOnce(g.order, i);
    }
  }

  lemma {:induction false} DistinctOnce(s: seq<nat>, x: nat)
    requires Distinct(s) && x in s
    ensures multiset(s)[x] == 1
  {
    var i :| 0 <= i < |s| && s[i] == x;
    assert s == s[..i] + [x] + s[i + 1..];
    assert x !in s[..i] && x !in s[i + 1..];
  }

  lemma {:induction false} DistinctCovers(s: seq<nat>, n: nat)
    requires Distinct(s) && |s| == n
    requires forall k :: 0 <= k < n ==> s[k] < n
    ensures forall i :: 0 <= i < n ==> i in s
  {
    var elems := set k | 0 <= k < n :: s[k];
    DistinctCard(s, elems);
    assert elems <= Below(n);
    SubsetOfSameSize(elems, Below(n));
    forall i | 0 <= i < n
      ensures i in s
    {
      assert i in elems;
    }
  }

  lemma {:induction false} DistinctCard(s: seq<nat>, elems: set<nat>)
    requires Distinct(s) && elems == set k | 0 <= k < |s| :: s[k]
    ensures |elems| == |s|
  {
    if s != [] {
      var m := |s| - 1;
      var t := s[..m];
      var rest := set k | 0 <= k < |t| :: t[k];
      DistinctCard(t, rest);
      assert elems == rest + {s[m]};
    }
  }

  function Below(n: nat): (r: set<nat>)
    ensures forall i: nat :: i in r <==> i < n
    ensures |r| == n
  {
    if n == 0 then {} else Below(n - 1) + {n - 1}
  }

  lemma SubsetOfSameSize(a: set<nat>, b: set<nat>)
    requires a <= b && |a| == |b|
    ensures a == b
  {
    assert b == a + (b - a);
  }

  // -------------------------------------------------------------- operations

  class Bcache {
    const nbuf: nat
    const bufs: array<Buf>
    var disk: DiskMap
    ghost var g: Book

    ghost predicate Valid()
      reads this, bufs
    {
      bufs.Length == nbuf + 1 && ListOk(bufs[..], nbuf, g) && ContentsOk(bufs[..], nbuf, disk, g)
    }

    /** binit: link every buffer in front of the previous one. */
    constructor (n: nat, d: DiskMap)
      ensures Valid() && nbuf == n && disk == d && fresh(bufs)
      ensures g.view == d && g.pinned == {} && g.dirty == {} && g.cached == map[]
      ensures g.holders == seq(n, i => 0)
    {
      nbuf := n;
      bufs := new Buf[n + 1](i => FRESH_BUF);
      disk := d;
      new;
      hide CountsOk, IndexOk, DataOk;
      ghost var order := BuildList();
      g := Book(order, seq(n, i => i), n, seq(n, i => 0), map[], {}, {}, d);
      InitOk(bufs[..], nbuf, d, g);
    }

    /** binit's loop: each buffer goes to the front of the list. */
    method BuildList() returns (ghost order: seq<nat>)
      requires bufs.Length == nbuf + 1 && forall i :: 0 <= i <= nbuf ==> bufs[i] == FRESH_BUF
      modifies bufs
      ensures |order| == nbuf && forall k :: 0 <= k < nbuf ==> order[k] == nbuf - 1 - k
      ensures Linked(bufs[..], nbuf, order)
      ensures forall i :: 0 <= i < nbuf ==> bufs[i].(prev := 0, next := 0) == FRESH_BUF
    {
      bufs[nbuf] := bufs[nbuf].(prev := nbuf, next := nbuf);
      order := [];
      var b := 0;
      while b < nbuf
        invariant 0 <= b <= nbuf
        invariant |order| == b && forall k :: 0 <= k < b ==> order[k] == b - 1 - k
        invariant Linked(bufs[..], nbuf, order)
        invariant forall i :: 0 <= i < nbuf ==> bufs[i].(prev := 0, next := 0) == FRESH_BUF
      {
        PushFront(b, order);
        order := [b] + order;
        b := b + 1;
      }
    }

    /** Relink b right after the list head. */
    method PushFront(b: nat, ghost order: seq<nat>)
      requires bufs.Length == nbuf + 1 && b < nbuf && b !in order && Linked(bufs[..], nbuf, order)
      modifies bufs
      ensures Linked(bufs[..], nbuf, [b] + order)
      ensures SameFields(old(bufs[..]), bufs[..])
    {
      ghost var s := bufs[..];
      assert s[Ring(nbuf, order)[0]].next == Ring(nbuf, order)[1];
      LinkFrontLinked(s, nbuf, order, b);
      hide Linked;
      bufs[b] := bufs[b].(next := bufs[nbuf].next);
      bufs[b] := bufs[b].(prev := nbuf);
      bufs[bufs[nbuf].next] := bufs[bufs[nbuf].next].(prev := b);
      bufs[nbuf] := bufs[nbuf].(next := b);
      assert bufs[..] == LinkFront(s, nbuf, b);
    }

    /** bget: find the block's buffer, or recycle the least recently used one.
        None stands for the panic "bget: no buffers". */
    method Bget(dev: nat, blockno: nat) returns (r: Option<nat>)
      requires Valid() && dev == ROOTDEV && blockno in disk
      modifies this`g, bufs
      ensures Valid()
      ensures r.None? <==> blockno !in old(g.cached) && forall i :: 0 <= i < nbuf ==> old(bufs[..])[i].refcnt > 0
      ensures r.None? ==> bufs[..] == old(bufs[..]) && g == old(g)
      ensures r.Some? ==> r.value < nbuf
      ensures r.Some? && blockno in old(g.cached) ==>
                && r.value == old(g.cached)[blockno]
                && bufs[..] == Referenced(old(bufs[..]), r.value)
                && g == old(g).(holders := old(g.holders)[r.value := old(g.holders)[r.value] + 1])
      ensures r.Some? && blockno !in old(g.cached) ==>
                && LeastRecentlyUsed(old(bufs[..]), nbuf, old(g), r.value)
                && bufs[..] == Recycled(old(bufs[..]), r.value, dev, blockno)
                && g == RecycledBook(old(g), old(bufs[..]), r.value, blockno)
    {
      hide ListOk, CountsOk, IndexOk, DataOk, LeastRecentlyUsed;
      var b := FindCached(dev, blockno);
      if b != nbuf {
        ReferencedOk(bufs[..], nbuf, disk, g, b);
        bufs[b] := bufs[b].(refcnt := bufs[b].refcnt + 1);
        assert bufs[..] == Referenced(old(bufs[..]), b);
        g := g.(holders := g.holders[b := g.holders[b] + 1]);
        return Some(b);
      }
      b := FindUnused();
      if b == nbuf {
        return None;
      }
      RecycledOk(bufs[..], nbuf, disk, g, b, blockno);
      bufs[b] := bufs[b].(dev := dev);
      bufs[b] := bufs[b].(blockno := blockno);
      bufs[b] := bufs[b].(valid := false);
      bufs[b] := bufs[b].(refcnt := 1);
      assert bufs[..] == Recycled(old(bufs[..]), b, dev, blockno);
      g := RecycledBook(g, old(bufs[..]), b, blockno);
      return Some(b);
    }

    /** bget's forward search for the block; nbuf (the list head) if it is not cached. */
    method FindCached(dev: nat, blockno: nat) returns (b: nat)
      requires Valid() && dev == ROOTDEV
      ensures bufs.Length == nbuf + 1
      ensures b <= nbuf && (b == nbuf <==> blockno !in g.cached)
      ensures b < nbuf ==> bufs[b].dev == dev && bufs[b].blockno == blockno && blockno in g.cached
      ensures b < nbuf ==> b == g.cached[blockno]
    {
      hide CountsOk, DataOk;
      ghost var ring := Ring(nbuf, g.order);
      assert bufs[ring[0]].next == ring[1];
      b := bufs[nbuf].next;
      ghost var k := 1;
      while b != nbuf && !(bufs[b].dev == dev && bufs[b].blockno == blockno)
        invariant 1 <= k <= nbuf + 1 && b == ring[k]
        invariant forall l :: 0 <= l < k - 1 ==> !(bufs[g.order[l]].dev == dev && bufs[g.order[l]].blockno == blockno)
        decreases nbuf + 1 - k
      {
        assert b == g.order[k - 1];
        assert bufs[ring[k]].next == ring[k + 1];
        b := bufs[b].next;
        k := k + 1;
      }
      if b == nbuf {
        NotCached(bufs[..], nbuf, disk, g, blockno);
      } else {
        assert b == g.order[k - 1];
      }
    }

    /** bget's backward search for an unused buffer; nbuf if every buffer is in use. */
    method FindUnused() returns (b: nat)
      requires Valid()
      ensures b <= nbuf && (b == nbuf <==> forall i :: 0 <= i < nbuf ==> bufs[..][i].refcnt > 0)
      ensures b < nbuf ==> bufs[b].refcnt == 0 && LeastRecentlyUsed(bufs[..], nbuf, g, b)
    {
      hide CountsOk, IndexOk, DataOk;
      ghost var ring := Ring(nbuf, g.order);
      assert bufs[ring[nbuf + 1]].prev == ring[nbuf];
      b := bufs[nbuf].prev;
      ghost var k := nbuf;
      while b != nbuf && bufs[b].refcnt != 0
        invariant 0 <= k <= nbuf && b == ring[k]
        invariant forall l :: k <= l < nbuf ==> bufs[g.order[l]].refcnt > 0
        decreases k
      {
        assert b == g.order[k - 1];
        assert bufs[ring[k]].prev == ring[k - 1];
        b := bufs[b].prev;
        k := k - 1;
      }
      if b == nbuf {
        AllListed(bufs[..], nbuf, g);
      } else {
        assert b == g.order[k - 1];
        Coldest(bufs[..], nbuf, g, k - 1);
      }
    }

    /** The rest of bread, once the reference is taken: wait for the sleep lock,
        then read the block in if the buffer is not valid.  A caller that finds
        the lock taken sleeps, so this step starts with the buffer unlocked. */
    method LockAndFill(i: nat)
      requires Valid() && i < nbuf && g.holders[i] > 0 && !bufs[i].locked
      modifies bufs
      ensures Valid()
      ensures |old(bufs[..])| == nbuf + 1 && old(bufs[..])[i].blockno in g.view
      ensures bufs[..] == Filled(old(bufs[..]), i, g)
    {
      HeldIsCached(bufs[..], nbuf, disk, g, i);
      FilledOk(bufs[..], nbuf, disk, g, i);
      hide ListOk, CountsOk, IndexOk, DataOk;
      ghost var s := bufs[..];
      bufs[i] := bufs[i].(locked := true);
      if !bufs[i].valid {
        bufs[i] := bufs[i].(data := disk[bufs[i].blockno]);
        bufs[i] := bufs[i].(valid := true);
      }
      assert bufs[..] == Filled(s, i, g);
    }

    /** bread: a locked buffer with the contents last given to the block. */
    method Bread(dev: nat, blockno: nat) returns (r: Option<nat>)
      requires Valid() && dev == ROOTDEV && blockno in disk
      requires blockno in g.cached ==> !bufs[g.cached[blockno]].locked
      modifies this`g, bufs
      ensures Valid()
      ensures r.None? <==> blockno !in old(g.cached) && forall i :: 0 <= i < nbuf ==> old(bufs[..])[i].refcnt > 0
      ensures r.None? ==> bufs[..] == old(bufs[..]) && g == old(g)
      ensures r.Some? ==> Acquired(old(bufs[..]), old(g), bufs[..], g, nbuf, blockno, r.value)
    {
      CachedIndex(bufs[..], nbuf, disk, g, blockno);
      hide ListOk, CountsOk, IndexOk, DataOk, LeastRecentlyUsed, Acquired, Referenced, Recycled, RecycledBook, Filled;
      r := Bget(dev, blockno);
      if r.Some? {
        AfterBget(old(bufs[..]), bufs[..], nbuf, disk, old(g), g, r.value, blockno);
        LockAndFill(r.value);
      }
    }

    /** The holder of the lock changes the buffer's bytes in memory. */
    method Modify(i: nat, data: Block)
      requires Valid() && i < nbuf && bufs[i].locked && bufs[i].valid
      modifies this`g, bufs
      ensures Valid()
      ensures bufs[..] == old(bufs[..])[i := old(bufs[i]).(data := data)]
      ensures g == old(g).(dirty := old(g.dirty) + {i})
    {
      ModifiedOk(bufs[..], nbuf, disk, g, i, data);
      hide ListOk, CountsOk, IndexOk, DataOk;
      ghost var s := bufs[..];
      bufs[i] := bufs[i].(data := data);
      g := g.(dirty := g.dirty + {i});
      assert bufs[..] == s[i := s[i].(data := data)];
    }

    /** bwrite: give the buffer's bytes to the block, on disk as well. */
    method Bwrite(i: nat)
      requires Valid() && i < nbuf && bufs[i].locked && bufs[i].valid
      modifies this
      ensures Valid() && bufs[..] == old(bufs[..])
      ensures disk == old(disk)[bufs[i].blockno := bufs[i].data]
      ensures g == old(g).(dirty := old(g.dirty) - {i}, view := old(g.view)[bufs[i].blockno := bufs[i].data])
    {
      WrittenOk(bufs[..], nbuf, disk, g, i);
      hide ListOk, CountsOk, IndexOk, DataOk;
      disk := disk[bufs[i].blockno := bufs[i].data];
      g := g.(dirty := g.dirty - {i}, view := g.view[bufs[i].blockno := bufs[i].data]);
    }

    /** What log_write means for the cache: the bytes are given to the block in
        memory only, which is safe because the block is pinned. */
    ghost method Publish(i: nat)
      requires Valid() && i < nbuf && bufs[i].locked && bufs[i].valid && bufs[i].blockno in g.pinned
      modifies this`g
      ensures Valid()
      ensures g == old(g).(dirty := old(g.dirty) - {i}, view := old(g.view)[bufs[i].blockno := bufs[i].data])
    {
      PublishedOk(bufs[..], nbuf, disk, g, i);
      hide ListOk, CountsOk, IndexOk, DataOk;
      g := g.(dirty := g.dirty - {i}, view := g.view[bufs[i].blockno := bufs[i].data]);
    }

    /** bpin: keep the block cached until the log has installed it. */
    method Bpin(i: nat)
      requires Valid() && i < nbuf && bufs[i].locked && bufs[i].valid && bufs[i].blockno !in g.pinned
      modifies this`g, bufs
      ensures Valid()
      ensures bufs[..] == Referenced(old(bufs[..]), i)
      ensures g == old(g).(pinned := old(g.pinned) + {bufs[i].blockno})
    {
      PinnedOk(bufs[..], nbuf, disk, g, i);
      hide ListOk, CountsOk, IndexOk, DataOk;
      ghost var s := bufs[..];
      bufs[i] := bufs[i].(refcnt := bufs[i].refcnt + 1);
      g := g.(pinned := g.pinned + {bufs[i].blockno});
      assert bufs[..] == Referenced(s, i);
    }

    /** bunpin: undo bpin.  install_trans calls it on a buffer it holds, after
        writing the block home. */
    method Bunpin(i: nat)
      requires Valid() && i < nbuf && bufs[i].locked && bufs[i].blockno in g.pinned
      requires bufs[i].blockno in disk && bufs[i].blockno in g.view && disk[bufs[i].blockno] == g.view[bufs[i].blockno]
      modifies this`g, bufs
      ensures Valid()
      ensures old(bufs[i]).refcnt > 0
      ensures bufs[..] == old(bufs[..])[i := old(bufs[i]).(refcnt := old(bufs[i]).refcnt - 1)]
      ensures g == old(g).(pinned := old(g.pinned) - {bufs[i].blockno})
    {
      UnpinnedOk(bufs[..], nbuf, disk, g, i);
      hide ListOk, CountsOk, IndexOk, DataOk;
      ghost var s := bufs[..];
      bufs[i] := bufs[i].(refcnt := bufs[i].refcnt - 1);
      g := g.(pinned := g.pinned - {bufs[i].blockno});
      assert bufs[..] == s[i := s[i].(refcnt := s[i].refcnt - 1)];
    }

    /** brelse: unlock; when nobody refers to the buffer any more, move it to the
        most-recently-used end of the list. */
    method Brelse(i: nat)
      requires Valid() && i < nbuf && bufs[i].locked && i !in g.dirty
      modifies this`g, bufs
      ensures Valid()
      ensures GivenBack(old(bufs[..]), old(g), bufs[..], g, nbuf, i)
    {
      hide ListOk, CountsOk, IndexOk, DataOk, SameFields, GivenBack;
      ReleasedOk(bufs[..], nbuf, disk, g, i);
      ghost var p := Position(bufs[..], nbuf, g, i);
      ghost var s, h := bufs[..], g;
      bufs[i] := bufs[i].(locked := false);
      bufs[i] := bufs[i].(refcnt := bufs[i].refcnt - 1);
      assert bufs[..] == Released(s, i);
      g := g.(holders := g.holders[i := g.holders[i] - 1]);
      if bufs[i].refcnt == 0 {
        MoveToFront(i, p);
      }
      Returned(s, h, bufs[..], g, nbuf, i, p);
    }

    method MoveToFront(i: nat, ghost p: nat)
      requires Valid() && i < nbuf && p < nbuf && g.order[p] == i
      modifies this`g, bufs
      ensures Valid() && SameFields(bufs[..], old(bufs[..]))
      ensures |old(g.order)| == nbuf && |old(g.stamp)| == nbuf
      ensures g == old(g).(order := [i] + Without(old(g.order), p),
                           stamp := old(g.stamp)[i := old(g.clock)], clock := old(g.clock) + 1)
    {
      hide ListOk, CountsOk, IndexOk, DataOk, Linked, SameFields;
      ghost var s := bufs[..];
      UnlinkOk(s, nbuf, g, p);
      bufs[bufs[i].next] := bufs[bufs[i].next].(prev := bufs[i].prev);
      bufs[bufs[i].prev] := bufs[bufs[i].prev].(next := bufs[i].next);
      assert bufs[..] == Unlink(s, i);
      PushFront(i, Without(g.order, p));
      SameFieldsTrans(s, Unlink(s, i), bufs[..]);
      SameContents(s, bufs[..], nbuf, disk, g, MovedBook(g, p));
      MovedOrder(s, bufs[..], nbuf, g, p);
      g := MovedBook(g, p);
    }
  }

  // ------------------------------------------------- what each step changes

  lemma InitOk(s: seq<Buf>, n: nat, disk: DiskMap, g: Book)
    requires |s| == n + 1 && Linked(s, n, g.order) && |g.order| == n
    requires forall k :: 0 <= k < n ==> g.order[k] == n - 1 - k
    requires forall i :: 0 <= i < n ==> s[i].(prev := 0, next := 0) == FRESH_BUF
    requires g == Book(g.order, seq(n, i => i), n, seq(n, i => 0), map[], {}, {}, disk)
    ensures ListOk(s, n, g) && ContentsOk(s, n, disk, g)
  {
  }

  function Referenced(s: seq<Buf>, i: nat): seq<Buf>
    requires i < |s|
  {
    s[i := s[i].(refcnt := s[i].refcnt + 1)]
  }

  lemma ReferencedOk(s: seq<Buf>, n: nat, disk: DiskMap, g: Book, i: nat)
    requires ListOk(s, n, g) && ContentsOk(s, n, disk, g) && i < n && s[i].dev == ROOTDEV
    ensures |g.holders| == n && s[i].blockno in g.cached && g.cached[s[i].blockno] == i
    ensures var g' := g.(holders := g.holders[i := g.holders[i] + 1]);
            ListOk(Referenced(s, i), n, g') && ContentsOk(Referenced(s, i), n, disk, g')
  {
    LinksKept(s, Referenced(s, i), n, g.order);
  }

  function Recycled(s: seq<Buf>, i: nat, dev: nat, blockno: nat): seq<Buf>
    requires i < |s|
  {
    s[i := s[i].(dev := dev, blockno := blockno, valid := false, refcnt := 1)]
  }

  function RecycledBook(g: Book, s: seq<Buf>, i: nat, blockno: nat): Book
    requires i < |s| && i < |g.holders|
  {
    var kept := if s[i].dev == ROOTDEV then g.cached - {s[i].blockno} else g.cached;
    g.(holders := g.holders[i := 1], cached := kept[blockno := i])
  }

  lemma RecycledOk(s: seq<Buf>, n: nat, disk: DiskMap, g: Book, i: nat, blockno: nat)
    requires ListOk(s, n, g) && ContentsOk(s, n, disk, g) && i < n && s[i].refcnt == 0
    requires blockno in disk && blockno !in g.cached
    ensures |g.holders| == n && g.holders[i] == 0 && !s[i].locked
    ensures var s', g' := Recycled(s, i, ROOTDEV, blockno), RecycledBook(g, s, i, blockno);
            ListOk(s', n, g') && ContentsOk(s', n, disk, g')
  {
    LinksKept(s, Recycled(s, i, ROOTDEV, blockno), n, g.order);
    RecycledIndexOk(s, n, disk, g, i, blockno);
  }

  lemma RecycledIndexOk(s: seq<Buf>, n: nat, disk: DiskMap, g: Book, i: nat, blockno: nat)
    requires CountsOk(s, n, g) && IndexOk(s, n, disk, g) && i < n && s[i].refcnt == 0
    requires blockno in disk && blockno !in g.cached
    ensures IndexOk(Recycled(s, i, ROOTDEV, blockno), n, disk, RecycledBook(g, s, i, blockno))
  {
  }

  lemma NotCached(s: seq<Buf>, n: nat, disk: DiskMap, g: Book, blockno: nat)
    requires ListOk(s, n, g) && ContentsOk(s, n, disk, g)
    requires forall l :: 0 <= l < n ==> !(s[g.order[l]].dev == ROOTDEV && s[g.order[l]].blockno == blockno)
    ensures blockno !in g.cached
  {
    ListIsPermutation(s, n, g);
    assert forall b :: b in g.cached ==> g.cached[b] in g.order;
  }

  /** Changing other fields leaves the list as it was. */
  lemma LinksKept(s: seq<Buf>, t: seq<Buf>, head: nat, order: seq<nat>)
    requires Linked(s, head, order) && |s| == |t|
    requires forall i :: 0 <= i < |s| ==> s[i].next == t[i].next && s[i].prev == t[i].prev
    ensures Linked(t, head, order)
  {
    assert forall k :: 0 <= k <= |order| ==>
      && t[Ring(head, order)[k]].next == Ring(head, order)[k + 1]
      && t[Ring(head, order)[k + 1]].prev == Ring(head, order)[k];
  }

  lemma AllListed(s: seq<Buf>, n: nat, g: Book)
    requires ListOk(s, n, g)
    requires forall l :: 0 <= l < n ==> s[g.order[l]].refcnt > 0
    ensures forall i :: 0 <= i < n ==> s[i].refcnt > 0
  {
    ListIsPermutation(s, n, g);
    forall i | 0 <= i < n
      ensures s[i].refcnt > 0
    {
      assert i in g.order;
    }
  }

  /** Walking back from the head, the first unused buffer is the least recently used. */
  lemma Coldest(s: seq<Buf>, n: nat, g: Book, k: nat)
    requires ListOk(s, n, g) && k < n && s[g.order[k]].refcnt == 0
    requires forall l :: k < l < n ==> s[g.order[l]].refcnt > 0
    ensures LeastRecentlyUsed(s, n, g, g.order[k])
  {
    ListIsPermutation(s, n, g);
    forall j | 0 <= j < n && s[j].refcnt == 0
      ensures g.stamp[g.order[k]] <= g.stamp[j]
    {
      assert j in g.order;
      var l :| 0 <= l < n && g.order[l] == j;
    }
  }

  lemma HeldIsCached(s: seq<Buf>, n: nat, disk: DiskMap, g: Book, i: nat)
    requires ContentsOk(s, n, disk, g) && i < n && g.holders[i] > 0
    ensures s[i].dev == ROOTDEV && s[i].blockno in disk && s[i].blockno in g.view
    ensures s[i].blockno in g.cached && g.cached[s[i].blockno] == i
    ensures !s[i].valid ==> s[i].blockno !in g.pinned
  {
  }

  function Filled(s: seq<Buf>, i: nat, g: Book): seq<Buf>
    requires i < |s| && s[i].blockno in g.view
  {
    s[i := s[i].(locked := true, valid := true, data := g.view[s[i].blockno])]
  }

  lemma FilledOk(s: seq<Buf>, n: nat, disk: DiskMap, g: Book, i: nat)
    requires ListOk(s, n, g) && ContentsOk(s, n, disk, g) && i < n && g.holders[i] > 0 && !s[i].locked
    requires s[i].blockno in g.view
    ensures ListOk(Filled(s, i, g), n, g) && ContentsOk(Filled(s, i, g), n, disk, g)
    ensures g.view[s[i].blockno] == if s[i].valid then s[i].data else disk[s[i].blockno]
  {
    HeldIsCached(s, n, disk, g, i);
    LinksKept(s, Filled(s, i, g), n, g.order);
  }

  /** What a successful bread hands out: buffer i, locked, with the contents last
      given to the block; no other buffer is touched. */
  ghost predicate Acquired(s: seq<Buf>, g: Book, t: seq<Buf>, h: Book, n: nat, blockno: nat, i: nat) {
    && |s| == |t| == n + 1 && i < n
    && blockno in h.cached && h.cached[blockno] == i && blockno in h.view
    && t[i].dev == ROOTDEV && t[i].blockno == blockno
    && t[i].locked && t[i].valid && t[i].data == h.view[blockno]
    && !s[i].locked && (if blockno in g.cached then i == g.cached[blockno] else s[i].refcnt == 0)
    && |g.holders| == n
    && h == g.(cached := h.cached, holders := g.holders[i := g.holders[i] + 1])
    && (forall j :: 0 <= j < n && j != i ==> t[j] == s[j])
  }

  lemma CachedIndex(s: seq<Buf>, n: nat, disk: DiskMap, g: Book, blockno: nat)
    requires ListOk(s, n, g) && ContentsOk(s, n, disk, g)
    ensures blockno in g.cached ==> g.cached[blockno] < n && n < |s|
  {
  }

  lemma AfterBget(s: seq<Buf>, t: seq<Buf>, n: nat, disk: DiskMap, g: Book, h: Book, i: nat, blockno: nat)
    requires ListOk(s, n, g) && ContentsOk(s, n, disk, g) && ContentsOk(t, n, disk, h) && i < n
    requires blockno in g.cached ==> !s[g.cached[blockno]].locked
    requires blockno in g.cached ==> i == g.cached[blockno] && t == Referenced(s, i)
                                     && h == g.(holders := g.holders[i := g.holders[i] + 1])
    requires blockno !in g.cached ==> LeastRecentlyUsed(s, n, g, i) && t == Recycled(s, i, ROOTDEV, blockno)
                                      && h == RecycledBook(g, s, i, blockno)
    ensures |s| == |t| == n + 1
    ensures |h.holders| == |g.holders| == n && h.holders[i] > 0 && !t[i].locked && !s[i].locked
    ensures t[i].blockno == blockno && blockno in h.view
    ensures Acquired(s, g, Filled(t, i, h), h, n, blockno, i)
  {
  }

  lemma ModifiedOk(s: seq<Buf>, n: nat, disk: DiskMap, g: Book, i: nat, data: Block)
    requires ListOk(s, n, g) && ContentsOk(s, n, disk, g) && i < n && s[i].locked && s[i].valid
    ensures var t, h := s[i := s[i].(data := data)], g.(dirty := g.dirty + {i});
            ListOk(t, n, h) && ContentsOk(t, n, disk, h)
  {
    LinksKept(s, s[i := s[i].(data := data)], n, g.order);
  }

  lemma WrittenOk(s: seq<Buf>, n: nat, disk: DiskMap, g: Book, i: nat)
    requires ListOk(s, n, g) && ContentsOk(s, n, disk, g) && i < n && s[i].locked && s[i].valid
    ensures var h := g.(dirty := g.dirty - {i}, view := g.view[s[i].blockno := s[i].data]);
            ListOk(s, n, h) && ContentsOk(s, n, disk[s[i].blockno := s[i].data], h)
  {
    HeldIsCached(s, n, disk, g, i);
  }

  lemma PublishedOk(s: seq<Buf>, n: nat, disk: DiskMap, g: Book, i: nat)
    requires ListOk(s, n, g) && ContentsOk(s, n, disk, g) && i < n && s[i].locked && s[i].valid
    requires s[i].blockno in g.pinned
    ensures var h := g.(dirty := g.dirty - {i}, view := g.view[s[i].blockno := s[i].data]);
            ListOk(s, n, h) && ContentsOk(s, n, disk, h)
  {
    HeldIsCached(s, n, disk, g, i);
  }

  lemma PinnedOk(s: seq<Buf>, n: nat, disk: DiskMap, g: Book, i: nat)
    requires ListOk(s, n, g) && ContentsOk(s, n, disk, g) && i < n && s[i].locked && s[i].valid
    requires s[i].blockno !in g.pinned
    ensures var t, h := Referenced(s, i), g.(pinned := g.pinned + {s[i].blockno});
            ListOk(t, n, h) && ContentsOk(t, n, disk, h)
  {
    HeldIsCached(s, n, disk, g, i);
    LinksKept(s, Referenced(s, i), n, g.order);
  }

  lemma UnpinnedOk(s: seq<Buf>, n: nat, disk: DiskMap, g: Book, i: nat)
    requires ListOk(s, n, g) && ContentsOk(s, n, disk, g) && i < n && s[i].locked && s[i].blockno in g.pinned
    requires s[i].blockno in disk && s[i].blockno in g.view && disk[s[i].blockno] == g.view[s[i].blockno]
    ensures s[i].refcnt > 0
    ensures var t, h := s[i := s[i].(refcnt := s[i].refcnt - 1)], g.(pinned := g.pinned - {s[i].blockno});
            ListOk(t, n, h) && ContentsOk(t, n, disk, h)
  {
    HeldIsCached(s, n, disk, g, i);
    LinksKept(s, s[i := s[i].(refcnt := s[i].refcnt - 1)], n, g.order);
  }

  function Released(s: seq<Buf>, i: nat): seq<Buf>
    requires i < |s| && s[i].refcnt > 0
  {
    s[i := s[i].(locked := false, refcnt := s[i].refcnt - 1)]
  }

  /** What brelse leaves: the reference is gone, and a buffer without references
      is at the front of the list, stamped as the latest release. */
  ghost predicate GivenBack(s: seq<Buf>, g: Book, t: seq<Buf>, h: Book, n: nat, i: nat) {
    && |s| == |t| == n + 1 && i < n && s[i].refcnt > 0
    && SameFields(t, Released(s, i))
    && |g.holders| == n && g.holders[i] > 0
    && h.holders == g.holders[i := g.holders[i] - 1]
    && h == g.(holders := h.holders, order := h.order, stamp := h.stamp, clock := h.clock)
    && |g.stamp| == n
    && (if t[i].refcnt == 0
        then exists p :: 0 <= p < |g.order| && g.order[p] == i && h == MovedBook(g, p).(holders := h.holders)
        else h == g.(holders := h.holders))
  }

  lemma Returned(s: seq<Buf>, g: Book, t: seq<Buf>, h: Book, n: nat, i: nat, p: nat)
    requires |s| == |t| == n + 1 && i < n && s[i].refcnt > 0
    requires |g.holders| == n && g.holders[i] > 0 && |g.order| == |g.stamp| == n && p < n && g.order[p] == i
    requires var g1 := g.(holders := g.holders[i := g.holders[i] - 1]);
             if Released(s, i)[i].refcnt == 0 then SameFields(t, Released(s, i)) && h == MovedBook(g1, p)
             else t == Released(s, i) && h == g1
    ensures GivenBack(s, g, t, h, n, i)
  {
  }

  lemma Position(s: seq<Buf>, n: nat, g: Book, i: nat) returns (p: nat)
    requires ListOk(s, n, g) && i < n
    ensures |g.order| == |g.stamp| == n && p < n && g.order[p] == i
  {
    ListIsPermutation(s, n, g);
    assert i in g.order;
    p :| 0 <= p < n && g.order[p] == i;
  }

  lemma ReleasedOk(s: seq<Buf>, n: nat, disk: DiskMap, g: Book, i: nat)
    requires ListOk(s, n, g) && ContentsOk(s, n, disk, g) && i < n && s[i].locked && i !in g.dirty
    ensures |g.holders| == n && g.holders[i] > 0 && s[i].refcnt > 0
    ensures var t, h := Released(s, i), g.(holders := g.holders[i := g.holders[i] - 1]);
            ListOk(t, n, h) && ContentsOk(t, n, disk, h)
  {
    HeldIsCached(s, n, disk, g, i);
    LinksKept(s, Released(s, i), n, g.order);
  }

  lemma SameContents(s: seq<Buf>, t: seq<Buf>, n: nat, disk: DiskMap, g: Book, h: Book)
    requires ContentsOk(s, n, disk, g) && SameFields(s, t)
    requires h == g.(order := h.order, stamp := h.stamp, clock := h.clock)
    ensures ContentsOk(t, n, disk, h)
  {
    forall i | 0 <= i < |s|
      ensures s[i] == t[i].(prev := s[i].prev, next := s[i].next)
    {
      assert s[i].(prev := 0, next := 0) == t[i].(prev := 0, next := 0);
    }
  }

  lemma UnlinkOk(s: seq<Buf>, n: nat, g: Book, p: nat)
    requires ListOk(s, n, g) && p < n
    ensures |s| == n + 1 && |g.order| == |g.stamp| == n && g.order[p] < n
    ensures s[g.order[p]].next <= n && s[g.order[p]].prev <= n
    ensures SameFields(s, Unlink(s, g.order[p]))
    ensures Linked(Unlink(s, g.order[p]), n, Without(g.order, p)) && g.order[p] !in Without(g.order, p)
  {
    UnlinkLinked(s, n, g.order, p);
  }

  lemma SameFieldsTrans(s: seq<Buf>, t: seq<Buf>, u: seq<Buf>)
    requires SameFields(s, t) && SameFields(t, u)
    ensures SameFields(s, u) && SameFields(u, s)
  {
  }

  function MovedBook(g: Book, p: nat): Book
    requires p < |g.order| && g.order[p] < |g.stamp|
  {
    g.(order := [g.order[p]] + Without(g.order, p), stamp := g.stamp[g.order[p] := g.clock], clock := g.clock + 1)
  }

  lemma MovedOrder(s: seq<Buf>, t: seq<Buf>, n: nat, g: Book, p: nat)
    requires ListOk(s, n, g) && p < n && |t| == n + 1
    requires Linked(t, n, [g.order[p]] + Without(g.order, p))
    ensures ListOk(t, n, MovedBook(g, p))
  {
    hide Linked;
    var h := MovedBook(g, p);
    assert forall k :: 1 <= k < n ==> h.order[k] == if k <= p then g.order[k - 1] else g.order[k];
    assert forall k :: 1 <= k < n ==> h.order[k] != g.order[p];
  }

  /** bget finds an unused buffer as long as the referenced ones and the logged
      blocks together are fewer than the buffers. */
  lemma {:induction false} UnusedBufferExists(s: seq<Buf>, n: nat, disk: DiskMap, g: Book, held: set<nat>)
    requires ContentsOk(s, n, disk, g)
    requires forall i :: 0 <= i < n && g.holders[i] > 0 ==> i in held
    requires |held| + |g.pinned| < n
    ensures exists i :: 0 <= i < n && s[i].refcnt == 0
  {
    if forall i :: 0 <= i < n ==> s[i].refcnt > 0 {
      var logged := set b | b in g.pinned :: g.cached[b];
      ImageCard(g.pinned, g.cached, logged);
      forall i | i in Below(n)
        ensures i in held + logged
      {
        assert s[i].refcnt > 0;
      }
      SubsetCard(Below(n), held + logged);
      assert false;
    }
  }

  lemma {:induction false} ImageCard(a: set<nat>, f: map<nat, nat>, image: set<nat>)
    requires a <= f.Keys && image == set b | b in a :: f[b]
    ensures |image| <= |a|
  {
    if a != {} {
      var b :| b in a;
      var rest := set c | c in a - {b} :: f[c];
      ImageCard(a - {b}, f, rest);
      assert image == rest + {f[b]};
    }
  }

  lemma SubsetCard(a: set<nat>, b: set<nat>)
    requires a <= b
    ensures |a| <= |b|
  {
    assert b == a + (b - a);
  }
}
