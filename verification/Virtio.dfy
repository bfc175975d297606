/** virtio_disk.c: the driver's side of the split queue, with the device's steps in
    between.  Each method is a stretch of driver code under vdisk_lock that ends in
    sleep or release, one turn of the interrupt loop, or one action of the device, so
    that any sequence of calls is an interleaving. */
module Virtio {
  import opened Common

  const NUM: nat := 8
  const F_NEXT: bv16 := 1
  const F_WRITE: bv16 := 2
  const BSIZE: nat := 1024
  const HEADER: nat := 16

  type Uint16 = x: int | 0 <= x < 0x1_0000

  type Uint32 = x: int | 0 <= x < 0x1_0000_0000

  /** The first 512-byte sector of a block; the product is computed in 32 bits. */
  function Sector(blockno: Uint32): nat { blockno * 2 % 0x1_0000_0000 }

  /** Sectors in a block. */
  const PER_BLOCK: nat := BSIZE / 512

  /** Two blocks share no sector, unless they are 2^31 apart and the product wraps
      both to the same sectors. */
  lemma SectorsApart(a: Uint32, b: Uint32)
    requires a < b
    ensures (exists s :: Covers(a, s) && Covers(b, s)) <==> b == a + 0x8000_0000
  {
    if b == a + 0x8000_0000 {
      assert Covers(a, Sector(b)) && Covers(b, Sector(b));
    }
  }

  /** Sector s belongs to a block. */
  predicate Covers(blockno: Uint32, s: int) {
    Sector(blockno) <= s < Sector(blockno) + PER_BLOCK
  }

  /** What a descriptor points at: a request header, a buffer's data, a status byte. */
  datatype Addr = Null | Header(i: nat) | Data(b: nat) | Status(i: nat)

  datatype Desc = Desc(addr: Addr, len: nat, flags: bv16, next: nat)

  const ZERO: Desc := Desc(Null, 0, 0, 0)

  datatype Op = Op(write: bool, sector: nat)

  datatype Info = Info(b: Option<nat>, status: nat)

  /** Where a request is: in the avail ring, with the device, in the used ring, or
      seen by the interrupt handler. */
  datatype Phase = Queued | Taken | Used | Seen

  /** status is what the device reports; 0xff until it does. */
  datatype Req = Req(d1: nat, d2: nat, b: nat, op: Op, phase: Phase, status: nat)

  // ----------------------------------------------------------------- invariant

  ghost predicate NoDup(q: seq<nat>) {
    forall j, k :: 0 <= j < k < |q| ==> q[j] != q[k]
  }

  /** A ring holds queue q from position base on. */
  ghost predicate RingOk(ring: seq<nat>, base: nat, q: seq<nat>) {
    && |ring| == NUM && |q| <= NUM && NoDup(q)
    && (forall k :: 0 <= k < |q| ==> q[k] < NUM)
    && (forall k :: 0 <= k < |q| ==> ring[(base + k) % NUM] == q[k])
  }

  /** The descriptors are split into the free ones and the disjoint three-element
      chains of the requests; chain maps a descriptor to the head of its chain. */
  ghost predicate ChainsOk(free: seq<bool>, reqs: map<nat, Req>, chain: map<nat, nat>) {
    && |free| == NUM
    && (forall i: nat :: i < NUM ==> (free[i] <==> i !in chain))
    && (forall i :: i in chain ==>
          i < NUM && chain[i] in reqs && (i == chain[i] || i == reqs[chain[i]].d1 || i == reqs[chain[i]].d2))
    && (forall h :: h in reqs ==>
          && h in chain && reqs[h].d1 in chain && reqs[h].d2 in chain
          && chain[h] == h && chain[reqs[h].d1] == h && chain[reqs[h].d2] == h
          && h != reqs[h].d1 && h != reqs[h].d2 && reqs[h].d1 != reqs[h].d2)
  }

  /** Header, data and status descriptor of one request. */
  predicate Chained(desc: seq<Desc>, h: nat, r: Req)
    requires |desc| == NUM && h < NUM && r.d1 < NUM && r.d2 < NUM
  {
    && desc[h] == Desc(Header(h), HEADER, F_NEXT, r.d1)
    && desc[r.d1] == Desc(Data(r.b), BSIZE, (if r.op.write then 0 else F_WRITE) | F_NEXT, r.d2)
    && desc[r.d2] == Desc(Status(h), 1, F_WRITE, 0)
  }

  /** What the device makes of the second and third descriptor. */
  predicate Describes(data: Desc, status: Desc, h: nat, r: Req) {
    && data.addr == Data(r.b) && data.len == BSIZE && (data.flags & F_WRITE != 0 <==> !r.op.write)
    && status.addr == Status(h) && status.len == 1 && status.flags & F_WRITE != 0
  }

  lemma ChainDescribes(desc: seq<Desc>, h: nat, r: Req)
    requires |desc| == NUM && h < NUM && r.d1 < NUM && r.d2 < NUM && Chained(desc, h, r)
    ensures desc[h].next == r.d1 && desc[r.d1].next == r.d2 && Describes(desc[r.d1], desc[r.d2], h, r)
  {
  }

  /** The descriptors of a request are linked and filled in; free ones are zero. */
  ghost predicate DescsOk(free: seq<bool>, desc: seq<Desc>, ops: seq<Op>, reqs: map<nat, Req>) {
    && |desc| == NUM && |free| == NUM && |ops| == NUM
    && (forall i :: 0 <= i < NUM && free[i] ==> desc[i] == ZERO)
    && (forall h :: h in reqs && h < NUM && reqs[h].d1 < NUM && reqs[h].d2 < NUM ==>
          Chained(desc, h, reqs[h]) && ops[h] == reqs[h].op)
  }

  /** Each request's buffer is its own, and marked busy until the handler saw it. */
  ghost predicate BuffersOk(info: seq<Info>, busy: map<nat, bool>, reqs: map<nat, Req>) {
    && |info| == NUM
    && (forall h :: h in reqs && h < NUM ==>
          && info[h].b == Some(reqs[h].b) && reqs[h].b in busy
          && (busy[reqs[h].b] <==> !reqs[h].phase.Seen?)
          && info[h].status == reqs[h].status)
    && (forall g, h :: g in reqs && h in reqs && g != h ==> reqs[g].b != reqs[h].b)
  }

  /** The queues list exactly the requests in the matching phase. */
  ghost predicate PhasesOk(reqs: map<nat, Req>, pending: seq<nat>, done: seq<nat>) {
    && (forall h :: h in reqs ==> (reqs[h].phase.Queued? <==> h in pending) && (reqs[h].phase.Used? <==> h in done))
    && (forall k :: 0 <= k < |pending| ==> pending[k] in reqs)
    && (forall k :: 0 <= k < |done| ==> done[k] in reqs)
  }

  ghost predicate RequestsOk(free: seq<bool>, desc: seq<Desc>, ops: seq<Op>, info: seq<Info>, busy: map<nat, bool>,
                             reqs: map<nat, Req>, chain: map<nat, nat>,
                             pending: seq<nat>, done: seq<nat>) {
    ChainsOk(free, reqs, chain) && DescsOk(free, desc, ops, reqs) && BuffersOk(info, busy, reqs)
    && PhasesOk(reqs, pending, done)
  }

  /** How many descriptors are free among the first n. */
  ghost function FreeCount(free: seq<bool>, n: nat): nat
    requires n <= |free|
  {
    if n == 0 then 0 else FreeCount(free, n - 1) + (if free[n - 1] then 1 else 0)
  }

  lemma {:induction false} FreeCountSet(free: seq<bool>, i: nat, n: nat, v: bool)
    requires i < |free| && n <= |free| && free[i] != v
    ensures FreeCount(free[i := v], n) == FreeCount(free, n) + (if i < n then (if v then 1 else -1) else 0)
  {
    if n > 0 {
      FreeCountSet(free, i, n - 1, v);
    }
  }

  lemma {:induction false} NoneFree(free: seq<bool>, n: nat)
    requires n <= |free| && forall i :: 0 <= i < n ==> !free[i]
    ensures FreeCount(free, n) == 0
  {
    if n > 0 {
      NoneFree(free, n - 1);
    }
  }

  // ------------------------------------------------------------------- queues

  /** A count as a 16-bit index. */
  function Idx(n: nat): Uint16 { n % 0x1_0000 }

  /** 2^16 is a multiple of NUM, so a wrapped index keeps its place in the ring. */
  lemma Place(n: nat)
    ensures Idx(n) % NUM == n % NUM && (Idx(n) + 1) % 0x1_0000 == Idx(n + 1)
  {
    assert n == (n / 0x1_0000 * 0x2000) * NUM + n % 0x1_0000;
  }

  /** At most NUM completions are unseen, so the wrapped indices tell if there are any. */
  lemma Unseen(sees: nat, n: nat)
    requires n <= NUM
    ensures Idx(sees) == Idx(sees + n) <==> n == 0
  {
  }

  lemma {:induction false} Pigeonhole(q: seq<nat>, n: nat)
    requires NoDup(q) && forall k :: 0 <= k < |q| ==> q[k] < n
    ensures |q| <= n
  {
    if q == [] {
    } else if n - 1 in q {
      var k :| 0 <= k < |q| && q[k] == n - 1;
      Pigeonhole(q[..k] + q[k + 1..], n - 1);
    } else {
      assert q[0] < n;
      Pigeonhole(q, n - 1);
    }
  }

  lemma Pushed(ring: seq<nat>, base: nat, q: seq<nat>, x: nat)
    requires RingOk(ring, base, q) && x < NUM && x !in q
    ensures RingOk(ring[(base + |q|) % NUM := x], base, q + [x])
  {
    Pigeonhole(q + [x], NUM);
    var ring', q' := ring[(base + |q|) % NUM := x], q + [x];
    forall k | 0 <= k < |q'|
      ensures ring'[(base + k) % NUM] == q'[k]
    {
      if k < |q| {
        Apart(base + k, base + |q|);
      }
    }
  }

  lemma Apart(a: nat, b: nat)
    requires a < b < a + NUM
    ensures a % NUM != b % NUM
  {
  }

  lemma Popped(ring: seq<nat>, base: nat, q: seq<nat>)
    requires RingOk(ring, base, q) && q != []
    ensures ring[base % NUM] == q[0] && RingOk(ring, base + 1, q[1..]) && q[0] !in q[1..]
  {
    forall k | 0 <= k < |q[1..]|
      ensures ring[(base + 1 + k) % NUM] == q[1..][k]
    {
      assert ring[(base + (1 + k)) % NUM] == q[1 + k];
    }
  }

  // ------------------------------------------------------------- a new request

  lemma AddChain(free: seq<bool>, reqs: map<nat, Req>, chain: map<nat, nat>, h: nat, r: Req)
    requires ChainsOk(free, reqs, chain) && h < NUM && r.d1 < NUM && r.d2 < NUM && h != r.d1 && h != r.d2
    requires r.d1 != r.d2
    requires free[h] && free[r.d1] && free[r.d2]
    ensures h !in reqs
    ensures ChainsOk(free[h := false][r.d1 := false][r.d2 := false], reqs[h := r], chain[h := h][r.d1 := h][r.d2 := h])
  {
  }

  lemma AddDescs(free: seq<bool>, desc: seq<Desc>, ops: seq<Op>, reqs: map<nat, Req>, chain: map<nat, nat>, h: nat,
                 r: Req)
    requires ChainsOk(free, reqs, chain) && DescsOk(free, desc, ops, reqs)
    requires h < NUM && r.d1 < NUM && r.d2 < NUM && h != r.d1 && h != r.d2 && r.d1 != r.d2 && free[h] && free[r.d1]
    requires free[r.d2]
    ensures DescsOk(free[h := false][r.d1 := false][r.d2 := false], Filled(desc, h, r), ops[h := r.op], reqs[h := r])
  {
    hide ChainsOk, Filled, Outside;
    OthersOutside(free, reqs, chain, h, r);
    FilledElsewhere(desc, h, r);
    FilledChain(desc, h, r);
    var free', desc', reqs' := free[h := false][r.d1 := false][r.d2 := false], Filled(desc, h, r), reqs[h := r];
    forall g | g in reqs' && g < NUM && reqs'[g].d1 < NUM && reqs'[g].d2 < NUM
      ensures Chained(desc', g, reqs'[g])
    {
      assert g != h ==> Chained(desc, g, reqs[g]);
    }
    hide Chained;
    FreeOutside(free, h, r);
  }

  lemma OthersOutside(free: seq<bool>, reqs: map<nat, Req>, chain: map<nat, nat>, h: nat, r: Req)
    requires ChainsOk(free, reqs, chain) && h < NUM && r.d1 < NUM && r.d2 < NUM && free[h] && free[r.d1] && free[r.d2]
    ensures forall g :: g in reqs ==>
              g != h && Outside(g, h, r) && Outside(reqs[g].d1, h, r) && Outside(reqs[g].d2, h, r)
  {
  }

  lemma FreeOutside(free: seq<bool>, h: nat, r: Req)
    requires |free| == NUM && h < NUM && r.d1 < NUM && r.d2 < NUM
    ensures forall i :: 0 <= i < NUM && free[h := false][r.d1 := false][r.d2 := false][i] ==>
              free[i] && Outside(i, h, r)
  {
  }

  lemma FilledChain(desc: seq<Desc>, h: nat, r: Req)
    requires |desc| == NUM && h < NUM && r.d1 < NUM && r.d2 < NUM && h != r.d1 && h != r.d2 && r.d1 != r.d2
    ensures Chained(Filled(desc, h, r), h, r)
  {
  }

  predicate Outside(i: nat, h: nat, r: Req) { i != h && i != r.d1 && i != r.d2 }

  lemma FilledElsewhere(desc: seq<Desc>, h: nat, r: Req)
    requires |desc| == NUM && h < NUM && r.d1 < NUM && r.d2 < NUM
    ensures |Filled(desc, h, r)| == NUM
    ensures forall i :: 0 <= i < NUM && Outside(i, h, r) ==> Filled(desc, h, r)[i] == desc[i]
  {
  }

  lemma AddBuffer(info: seq<Info>, busy: map<nat, bool>, reqs: map<nat, Req>, h: nat, r: Req)
    requires BuffersOk(info, busy, reqs) && h < NUM && h !in reqs && r.phase.Queued? && r.status == 0xff
    requires forall g :: g in reqs ==> reqs[g].b != r.b
    ensures BuffersOk(info[h := Info(Some(r.b), 0xff)], busy[r.b := true], reqs[h := r])
  {
  }

  lemma AddPhase(reqs: map<nat, Req>, pending: seq<nat>, done: seq<nat>, h: nat, r: Req)
    requires PhasesOk(reqs, pending, done) && h !in reqs && r.phase.Queued?
    ensures h !in pending && h !in done && PhasesOk(reqs[h := r], pending + [h], done)
  {
  }

  /** The three descriptors of a request, filled in. */
  function Filled(desc: seq<Desc>, h: nat, r: Req): seq<Desc>
    requires |desc| == NUM && h < NUM && r.d1 < NUM && r.d2 < NUM
  {
    desc[h := Desc(Header(h), HEADER, F_NEXT, r.d1)]
        [r.d1 := Desc(Data(r.b), BSIZE, (if r.op.write then 0 else F_WRITE) | F_NEXT, r.d2)]
        [r.d2 := Desc(Status(h), 1, F_WRITE, 0)]
  }

  lemma NewRequest(free: seq<bool>, desc: seq<Desc>, ops: seq<Op>, info: seq<Info>, busy: map<nat, bool>,
                   reqs: map<nat, Req>, chain: map<nat, nat>,
                   pending: seq<nat>, done: seq<nat>, ring: seq<nat>, takes: nat, h: nat, r: Req)
    requires RequestsOk(free, desc, ops, info, busy, reqs, chain, pending, done)
    requires RingOk(ring, takes, pending) && r.phase.Queued? && r.status == 0xff
    requires forall g :: g in reqs ==> reqs[g].b != r.b
    requires h < NUM && r.d1 < NUM && r.d2 < NUM && h != r.d1 && h != r.d2 && r.d1 != r.d2 && free[h] && free[r.d1]
    requires free[r.d2]
    ensures h !in reqs
    ensures RequestsOk(free[h := false][r.d1 := false][r.d2 := false], Filled(desc, h, r), ops[h := r.op],
                       info[h := Info(Some(r.b), 0xff)], busy[r.b := true],
                       reqs[h := r], chain[h := h][r.d1 := h][r.d2 := h], pending + [h], done)
    ensures RingOk(ring[Idx(takes + |pending|) % NUM := h], takes, pending + [h])
    ensures (Idx(takes + |pending|) + 1) % 0x1_0000 == Idx(takes + |pending| + 1)
  {
    hide ChainsOk, DescsOk, BuffersOk, PhasesOk, RingOk;
    AddChain(free, reqs, chain, h, r);
    AddDescs(free, desc, ops, reqs, chain, h, r);
    AddBuffer(info, busy, reqs, h, r);
    AddPhase(reqs, pending, done, h, r);
    Pushed(ring, takes, pending, h);
    Place(takes + |pending|);
  }

  lemma Sizes(free: seq<bool>, desc: seq<Desc>, ops: seq<Op>, info: seq<Info>, busy: map<nat, bool>,
              reqs: map<nat, Req>, chain: map<nat, nat>,
              pending: seq<nat>, done: seq<nat>, avail: seq<nat>, takes: nat, used: seq<nat>, sees: nat)
    requires RequestsOk(free, desc, ops, info, busy, reqs, chain, pending, done) && RingOk(avail, takes, pending)
    requires RingOk(used, sees, done)
    ensures |free| == NUM && |desc| == NUM && |ops| == NUM && |info| == NUM && |avail| == NUM && |used| == NUM
    ensures |done| <= NUM
    ensures forall i :: 0 <= i < NUM && free[i] ==> desc[i] == ZERO
  {
    hide ChainsOk, PhasesOk;
  }

  // ------------------------------------------------------- a change of phase

  /** A request that differs only in how far it is. */
  predicate SameRequest(r: Req, q: Req) { q == r.(phase := q.phase, status := q.status) }

  lemma PhaseChains(free: seq<bool>, reqs: map<nat, Req>, chain: map<nat, nat>, h: nat, q: Req)
    requires ChainsOk(free, reqs, chain) && h in reqs && SameRequest(reqs[h], q)
    ensures h < NUM && ChainsOk(free, reqs[h := q], chain)
  {
    var reqs' := reqs[h := q];
    assert forall g :: g in reqs ==> reqs'[g].d1 == reqs[g].d1 && reqs'[g].d2 == reqs[g].d2;
  }

  lemma PhaseDescs(free: seq<bool>, desc: seq<Desc>, ops: seq<Op>, reqs: map<nat, Req>, h: nat, q: Req)
    requires DescsOk(free, desc, ops, reqs) && h in reqs && SameRequest(reqs[h], q)
    ensures DescsOk(free, desc, ops, reqs[h := q])
  {
    var reqs' := reqs[h := q];
    assert forall g :: g in reqs ==>
      reqs'[g].d1 == reqs[g].d1 && reqs'[g].d2 == reqs[g].d2 && reqs'[g].b == reqs[g].b && reqs'[g].op == reqs[g].op;
  }

  // ------------------------------------------------------------ end of a request

  lemma DropChain(free: seq<bool>, reqs: map<nat, Req>, chain: map<nat, nat>, h: nat)
    requires ChainsOk(free, reqs, chain) && h in reqs
    ensures var r := reqs[h];
            && h < NUM && r.d1 < NUM && r.d2 < NUM && h != r.d1 && h != r.d2 && r.d1 != r.d2 && !free[h]
               && !free[r.d1] && !free[r.d2]
            && ChainsOk(free[h := true][r.d1 := true][r.d2 := true], reqs - {h}, chain - {h, r.d1, r.d2})
  {
  }

  lemma DropDescs(free: seq<bool>, desc: seq<Desc>, ops: seq<Op>, reqs: map<nat, Req>, chain: map<nat, nat>, h: nat)
    requires ChainsOk(free, reqs, chain) && DescsOk(free, desc, ops, reqs) && h in reqs && h < NUM && reqs[h].d1 < NUM
    requires reqs[h].d2 < NUM
    ensures var r := reqs[h];
            DescsOk(free[h := true][r.d1 := true][r.d2 := true], desc[h := ZERO][r.d1 := ZERO][r.d2 := ZERO], ops,
                    reqs - {h})
  {
    forall g | g in reqs && g != h
      ensures g != reqs[h].d1 && g != reqs[h].d2 && reqs[g].d1 != h && reqs[g].d1 != reqs[h].d1
      ensures reqs[g].d1 != reqs[h].d2
      ensures reqs[g].d2 != h && reqs[g].d2 != reqs[h].d1 && reqs[g].d2 != reqs[h].d2
    {
    }
    hide ChainsOk;
  }

  lemma DropRest(info: seq<Info>, busy: map<nat, bool>, reqs: map<nat, Req>, pending: seq<nat>, done: seq<nat>, h: nat)
    requires BuffersOk(info, busy, reqs) && PhasesOk(reqs, pending, done) && h in reqs && h < NUM && reqs[h].phase.Seen?
    ensures BuffersOk(info[h := info[h].(b := None)], busy, reqs - {h}) && PhasesOk(reqs - {h}, pending, done)
  {
  }

  /** Nothing leaks: every descriptor is free or one of the three of a request, so
      at most two requests are under way at once. */
  lemma {:induction false} DescriptorsConserved(free: seq<bool>, reqs: map<nat, Req>, chain: map<nat, nat>)
    requires ChainsOk(free, reqs, chain)
    ensures FreeCount(free, NUM) + 3 * |reqs| == NUM && |reqs| <= 2
    decreases |reqs|
  {
    if reqs == map[] {
      assert forall i: nat :: i < NUM ==> free[i];
      AllFree(free, NUM);
    } else {
      var h :| h in reqs;
      var r := reqs[h];
      DropChain(free, reqs, chain, h);
      assert (reqs - {h}).Keys == reqs.Keys - {h};
      hide ChainsOk, FreeCount;
      var f1 := free[h := true];
      var f2 := f1[r.d1 := true];
      FreeCountSet(free, h, NUM, true);
      FreeCountSet(f1, r.d1, NUM, true);
      FreeCountSet(f2, r.d2, NUM, true);
      assert |reqs.Keys| == |reqs| && |(reqs - {h}).Keys| == |reqs - {h}|;
      DescriptorsConserved(f2[r.d2 := true], reqs - {h}, chain - {h, r.d1, r.d2});
    }
  }

  lemma {:induction false} AllFree(free: seq<bool>, n: nat)
    requires n <= |free| && forall i: nat :: i < n ==> free[i]
    ensures FreeCount(free, n) == n
  {
    if n > 0 {
      AllFree(free, n - 1);
    }
  }

  lemma UsedMeansDone(free: seq<bool>, desc: seq<Desc>, ops: seq<Op>, info: seq<Info>, busy: map<nat, bool>,
                      reqs: map<nat, Req>, chain: map<nat, nat>, pending: seq<nat>, done: seq<nat>)
    requires RequestsOk(free, desc, ops, info, busy, reqs, chain, pending, done)
    ensures done == [] ==> forall h :: h in reqs ==> !reqs[h].phase.Used?
  {
  }

  lemma RequestAt(free: seq<bool>, desc: seq<Desc>, ops: seq<Op>, info: seq<Info>, busy: map<nat, bool>,
                  reqs: map<nat, Req>, chain: map<nat, nat>, h: nat)
    requires ChainsOk(free, reqs, chain) && DescsOk(free, desc, ops, reqs) && BuffersOk(info, busy, reqs) && h in reqs
    ensures var r := reqs[h];
            && |free| == NUM && |desc| == NUM && |info| == NUM && |ops| == NUM && h < NUM && r.d1 < NUM && r.d2 < NUM
            && desc[h].next == r.d1 && desc[r.d1].next == r.d2 && desc[r.d1].addr == Data(r.b) && ops[h] == r.op
            && desc[h].flags & F_NEXT != 0 && desc[r.d1].flags & F_NEXT != 0 && desc[r.d2].flags & F_NEXT == 0
            && info[h].b == Some(r.b) && r.b in busy && (busy[r.b] <==> !r.phase.Seen?)
  {
    assert desc[h] == Desc(Header(h), HEADER, F_NEXT, reqs[h].d1);
  }

  /** Taking a seen request apart. */
  lemma EndRequest(free: seq<bool>, desc: seq<Desc>, ops: seq<Op>, info: seq<Info>, busy: map<nat, bool>,
                   reqs: map<nat, Req>, chain: map<nat, nat>, pending: seq<nat>, done: seq<nat>, h: nat)
    requires RequestsOk(free, desc, ops, info, busy, reqs, chain, pending, done) && h in reqs
    ensures var r := reqs[h];
            && |free| == NUM && |desc| == NUM && |info| == NUM && h < NUM && r.d1 < NUM && r.d2 < NUM && h != r.d1
               && h != r.d2 && r.d1 != r.d2
            && !free[h] && !free[r.d1] && !free[r.d2] && desc[h].next == r.d1 && desc[r.d1].next == r.d2
            && desc[h].flags & F_NEXT != 0 && desc[r.d1].flags & F_NEXT != 0 && desc[r.d2].flags & F_NEXT == 0
            && info[h].b == Some(r.b) && r.b in busy && (busy[r.b] <==> !r.phase.Seen?)
            && (r.phase.Seen? ==>
                  RequestsOk(free[h := true][r.d1 := true][r.d2 := true], desc[h := ZERO][r.d1 := ZERO][r.d2 := ZERO],
                             ops, info[h := info[h].(b := None)], busy, reqs - {h}, chain - {h, r.d1, r.d2},
                             pending, done))
  {
    hide ChainsOk, DescsOk, BuffersOk, PhasesOk;
    RequestAt(free, desc, ops, info, busy, reqs, chain, h);
    DropChain(free, reqs, chain, h);
    DropDescs(free, desc, ops, reqs, chain, h);
    if reqs[h].phase.Seen? {
      DropRest(info, busy, reqs, pending, done, h);
    }
  }

  lemma TakeOk(free: seq<bool>, desc: seq<Desc>, ops: seq<Op>, info: seq<Info>, busy: map<nat, bool>,
               reqs: map<nat, Req>, chain: map<nat, nat>, pending: seq<nat>, done: seq<nat>, ring: seq<nat>, takes: nat)
    requires RequestsOk(free, desc, ops, info, busy, reqs, chain, pending, done)
    requires RingOk(ring, takes, pending) && pending != []
    ensures |ring| == NUM && var h := ring[takes % NUM];
            && h == pending[0] && h in reqs && reqs[h].phase.Queued? && |desc| == NUM && |ops| == NUM && h < NUM
            && desc[h].next < NUM && desc[desc[h].next].next < NUM && ops[h] == reqs[h].op
            && Describes(desc[desc[h].next], desc[desc[desc[h].next].next], h, reqs[h])
            && var reqs' := reqs[h := reqs[h].(phase := Taken)];
               && RequestsOk(free, desc, ops, info, busy, reqs', chain, pending[1..], done)
               && RingOk(ring, takes + 1, pending[1..])
  {
    var h := pending[0];
    Popped(ring, takes, pending);
    assert h in reqs && reqs[h].phase.Queued? by { assert pending[0] in pending; }
    PhaseChains(free, reqs, chain, h, reqs[h].(phase := Taken));
    PhaseDescs(free, desc, ops, reqs, h, reqs[h].(phase := Taken));
    RequestAt(free, desc, ops, info, busy, reqs, chain, h);
    ChainDescribes(desc, h, reqs[h]);
    hide ChainsOk, DescsOk, RingOk, Describes, Chained;
    TakenPhases(info, busy, reqs, pending, done);
  }

  lemma TakenPhases(info: seq<Info>, busy: map<nat, bool>, reqs: map<nat, Req>, pending: seq<nat>, done: seq<nat>)
    requires BuffersOk(info, busy, reqs) && PhasesOk(reqs, pending, done) && pending != []
    requires pending[0] !in pending[1..] && pending[0] in reqs
    requires reqs[pending[0]].phase.Queued?
    ensures var reqs' := reqs[pending[0] := reqs[pending[0]].(phase := Taken)];
            BuffersOk(info, busy, reqs') && PhasesOk(reqs', pending[1..], done)
  {
    assert pending == [pending[0]] + pending[1..];
  }

  lemma FinishOk(free: seq<bool>, desc: seq<Desc>, ops: seq<Op>, info: seq<Info>, busy: map<nat, bool>,
                 reqs: map<nat, Req>, chain: map<nat, nat>, pending: seq<nat>, done: seq<nat>, ring: seq<nat>,
                 sees: nat, h: nat, status: nat)
    requires RequestsOk(free, desc, ops, info, busy, reqs, chain, pending, done)
    requires RingOk(ring, sees, done) && h in reqs && reqs[h].phase.Taken?
    ensures |info| == NUM && |ring| == NUM && h < NUM
    ensures var reqs' := reqs[h := reqs[h].(phase := Used, status := status)];
            && RequestsOk(free, desc, ops, info[h := info[h].(status := status)], busy, reqs', chain, pending, done
                          + [h])
            && RingOk(ring[Idx(sees + |done|) % NUM := h], sees, done + [h])
    ensures (Idx(sees + |done|) + 1) % 0x1_0000 == Idx(sees + |done| + 1)
  {
    hide Idx, ChainsOk, DescsOk, RingOk, BuffersOk;
    PhaseChains(free, reqs, chain, h, reqs[h].(phase := Used, status := status));
    PhaseDescs(free, desc, ops, reqs, h, reqs[h].(phase := Used, status := status));
    Place(sees + |done|);
    Pushed(ring, sees, done, h);
    hide PhasesOk;
    UsedPhases(info, busy, reqs, pending, done, h, status);
    InfoSize(info, busy, reqs, ring, sees, done);
  }

  lemma InfoSize(info: seq<Info>, busy: map<nat, bool>, reqs: map<nat, Req>, ring: seq<nat>, base: nat, q: seq<nat>)
    requires BuffersOk(info, busy, reqs) && RingOk(ring, base, q)
    ensures |info| == NUM && |ring| == NUM
  {
  }

  lemma UsedPhases(info: seq<Info>, busy: map<nat, bool>, reqs: map<nat, Req>, pending: seq<nat>, done: seq<nat>,
                   h: nat, status: nat)
    requires BuffersOk(info, busy, reqs) && PhasesOk(reqs, pending, done) && h in reqs && h < NUM
    requires reqs[h].phase.Taken?
    ensures var reqs' := reqs[h := reqs[h].(phase := Used, status := status)];
            BuffersOk(info[h := info[h].(status := status)], busy, reqs') && PhasesOk(reqs', pending, done + [h])
  {
  }

  lemma SeeOk(free: seq<bool>, desc: seq<Desc>, ops: seq<Op>, info: seq<Info>, busy: map<nat, bool>,
              reqs: map<nat, Req>, chain: map<nat, nat>, pending: seq<nat>, done: seq<nat>, ring: seq<nat>, sees: nat)
    requires RequestsOk(free, desc, ops, info, busy, reqs, chain, pending, done)
    requires RingOk(ring, sees, done) && done != []
    ensures |info| == NUM && |ring| == NUM && var h := done[0];
            && ring[sees % NUM] == h && h in reqs && reqs[h].phase.Used? && h < NUM
               && info[h].status == reqs[h].status && info[h].b == Some(reqs[h].b)
            && var reqs' := reqs[h := reqs[h].(phase := Seen)];
               && RequestsOk(free, desc, ops, info, busy[reqs[h].b := false], reqs', chain, pending, done[1..])
               && RingOk(ring, sees + 1, done[1..])
  {
    var h := done[0];
    Popped(ring, sees, done);
    assert h in reqs && reqs[h].phase.Used? by { assert done[0] in done; }
    PhaseChains(free, reqs, chain, h, reqs[h].(phase := Seen));
    PhaseDescs(free, desc, ops, reqs, h, reqs[h].(phase := Seen));
    hide ChainsOk, DescsOk, RingOk;
    SeenPhases(info, busy, reqs, pending, done);
  }

  lemma SeenPhases(info: seq<Info>, busy: map<nat, bool>, reqs: map<nat, Req>, pending: seq<nat>, done: seq<nat>)
    requires BuffersOk(info, busy, reqs) && PhasesOk(reqs, pending, done) && done != [] && done[0] !in done[1..]
    requires done[0] in reqs && done[0] < NUM
    requires reqs[done[0]].phase.Used?
    ensures info[done[0]].status == reqs[done[0]].status && info[done[0]].b == Some(reqs[done[0]].b)
    ensures var reqs' := reqs[done[0] := reqs[done[0]].(phase := Seen)];
            BuffersOk(info, busy[reqs[done[0]].b := false], reqs') && PhasesOk(reqs', pending, done[1..])
  {
    assert done == [done[0]] + done[1..];
  }

  class Disk {
    var free: seq<bool>
    var desc: seq<Desc>
    var ops: seq<Op>
    var info: seq<Info>
    var availRing: seq<nat>
    var availIdx: Uint16
    var usedRing: seq<nat>
    var usedIdx: Uint16
    var seenIdx: Uint16
    /** The device's own place in the avail ring. */
    var deviceIdx: Uint16
    /** b->disk, and the threads asleep on &disk.free[0]. */
    var busy: map<nat, bool>
    var waiting: set<nat>

    ghost var reqs: map<nat, Req>
    ghost var chain: map<nat, nat>
    ghost var pending: seq<nat>
    ghost var done: seq<nat>
    ghost var takes: nat
    ghost var sees: nat

    ghost predicate Valid()
      reads this
    {
      && RequestsOk(free, desc, ops, info, busy, reqs, chain, pending, done)
      && RingOk(availRing, takes, pending) && RingOk(usedRing, sees, done)
      && availIdx == Idx(takes + |pending|) && usedIdx == Idx(sees + |done|) && seenIdx == Idx(sees)
      && deviceIdx == Idx(takes)
      && (waiting != {} ==> FreeCount(free, NUM) < 3)
    }

    constructor ()
      ensures Valid() && reqs == map[] && pending == [] && done == [] && waiting == {} && busy == map[]
      ensures free == seq(NUM, i => true)
    {
      free, desc, ops, info := seq(NUM, i => true), seq(NUM, i => ZERO), seq(NUM, i => Op(false, 0)),
        seq(NUM, i => Info(None, 0));
      availRing, usedRing := seq(NUM, i => 0), seq(NUM, i => 0);
      availIdx, usedIdx, seenIdx, deviceIdx := 0, 0, 0, 0;
      busy, waiting := map[], {};
      reqs, chain, pending, done, takes, sees := map[], map[], [], [], 0, 0;
    }

    /** alloc_desc: the first free descriptor, -1 if there is none. */
    method AllocDesc() returns (r: int)
      requires |free| == NUM
      modifies this`free
      ensures r == -1 <==> forall i :: 0 <= i < NUM ==> !old(free)[i]
      ensures r == -1 ==> free == old(free)
      ensures r != -1 ==> 0 <= r < NUM && old(free)[r] && (forall i :: 0 <= i < r ==> !old(free)[i])
      ensures r != -1 ==> free == old(free)[r := false]
    {
      var i := 0;
      while i < NUM
        invariant 0 <= i <= NUM && free == old(free) && forall j :: 0 <= j < i ==> !free[j]
      {
        if free[i] {
          free := free[i := false];
          return i;
        }
        i := i + 1;
      }
      return -1;
    }

    /** free_desc: false stands for one of its two panics. */
    method FreeDesc(i: nat) returns (ok: bool)
      requires |free| == NUM && |desc| == NUM
      modifies this`free, this`desc, this`waiting
      ensures ok <==> i < NUM && !old(free)[i]
      ensures !ok ==> free == old(free) && desc == old(desc) && waiting == old(waiting)
      ensures ok ==> free == old(free)[i := true] && desc == old(desc)[i := ZERO] && waiting == {}
    {
      if i >= NUM {
        return false;
      }
      if free[i] {
        return false;
      }
      desc := desc[i := ZERO];
      free := free[i := true];
      waiting := {};
      return true;
    }

    /** alloc3_desc's way back: free_desc for what was taken. */
    method PutBack(idx: seq<nat>, ghost before: seq<bool>)
      requires |free| == NUM && |desc| == NUM && |before| == NUM && NoDup(idx)
      requires forall k :: 0 <= k < |idx| ==> idx[k] < NUM && before[idx[k]] && desc[idx[k]] == ZERO
      requires forall k :: 0 <= k < NUM ==> (free[k] <==> before[k] && k !in idx)
      modifies this`free, this`desc, this`waiting
      ensures free == before && desc == old(desc) && (waiting == old(waiting) || waiting == {})
    {
      var j := 0;
      while j < |idx|
        invariant 0 <= j <= |idx| && |free| == NUM && desc == old(desc) && (waiting == old(waiting) || waiting == {})
        invariant forall k :: 0 <= k < NUM ==> (free[k] <==> before[k] && k !in idx[j..])
      {
        assert idx[j..] == [idx[j]] + idx[j + 1..];
        var freed := FreeDesc(idx[j]);
        j := j + 1;
      }
    }

    /** alloc3_desc: three descriptors if there are that many, otherwise none taken. */
    method Alloc3() returns (ok: bool, idx: seq<nat>)
      requires |free| == NUM && |desc| == NUM && forall i :: 0 <= i < NUM && free[i] ==> desc[i] == ZERO
      modifies this`free, this`desc, this`waiting
      ensures ok <==> FreeCount(old(free), NUM) >= 3
      ensures !ok ==> free == old(free)
      ensures ok ==> |idx| == 3 && NoDup(idx) && (forall k :: 0 <= k < 3 ==> idx[k] < NUM && old(free)[idx[k]])
      ensures ok ==> free == old(free)[idx[0] := false][idx[1] := false][idx[2] := false]
      ensures desc == old(desc) && (waiting == old(waiting) || (!ok && waiting == {}))
    {
      idx := [];
      var i := 0;
      while i < 3
        invariant 0 <= i <= 3 && |idx| == i && NoDup(idx) && |free| == NUM && desc == old(desc)
        invariant waiting == old(waiting)
        invariant forall k :: 0 <= k < i ==> idx[k] < NUM && old(free)[idx[k]]
        invariant forall k :: 0 <= k < NUM ==> (free[k] <==> old(free)[k] && k !in idx)
        invariant FreeCount(free, NUM) == FreeCount(old(free), NUM) - i
      {
        ghost var f := free;
        var x := AllocDesc();
        if x < 0 {
          NoneFree(f, NUM);
          PutBack(idx, old(free));
          return false, idx;
        }
        FreeCountSet(f, x, NUM, false);
        idx := idx + [x];
        i := i + 1;
      }
      return true, idx;
    }
  
    /** free_chain, from the head of a request: no panic, and just its three
        descriptors become free. */
    method FreeChain(h: nat, ghost d1: nat, ghost d2: nat) returns (ok: bool)
      requires |free| == NUM && |desc| == NUM && h < NUM && d1 < NUM && d2 < NUM && h != d1 && h != d2 && d1 != d2
      requires !free[h] && !free[d1] && !free[d2]
      requires desc[h].flags & F_NEXT != 0 && desc[h].next == d1 && desc[d1].flags & F_NEXT != 0
      requires desc[d1].next == d2 && desc[d2].flags & F_NEXT == 0
      modifies this`free, this`desc, this`waiting
      ensures ok && free == old(free)[h := true][d1 := true][d2 := true]
      ensures desc == old(desc)[h := ZERO][d1 := ZERO][d2 := ZERO]
      ensures waiting == {}
    {
      var i := h;
      ghost var n := 0;
      while true
        invariant 0 <= n <= 2 && i == (if n == 0 then h else if n == 1 then d1 else d2)
        invariant free == (if n == 0 then old(free) else if n == 1 then old(free)[h := true]
                           else old(free)[h := true][d1 := true])
        invariant desc == (if n == 0 then old(desc) else if n == 1 then old(desc)[h := ZERO]
                           else old(desc)[h := ZERO][d1 := ZERO])
        decreases 2 - n
      {
        var flag, nxt := desc[i].flags, desc[i].next;
        ok := FreeDesc(i);
        if !ok {
          return;
        }
        if flag & F_NEXT != 0 {
          i := nxt;
        } else {
          break;
        }
        n := n + 1;
      }
    }

    /** The middle of virtio_disk_rw: fill in the request and tell the device. */
    method Fill(i0: nat, i1: nat, i2: nat, b: nat, blockno: Uint32, write: bool)
      requires |desc| == NUM && |ops| == NUM && |info| == NUM && |availRing| == NUM && i0 < NUM && i1 < NUM && i2 < NUM
      modifies this`desc, this`ops, this`info, this`busy, this`availRing, this`availIdx
      ensures desc == Filled(old(desc), i0, Req(i1, i2, b, Op(write, Sector(blockno)), Queued, 0xff))
      ensures ops == old(ops)[i0 := Op(write, Sector(blockno))]
      ensures info == old(info)[i0 := Info(Some(b), 0xff)] && busy == old(busy)[b := true]
      ensures availRing == old(availRing)[old(availIdx) % NUM := i0] && availIdx == (old(availIdx) + 1) % 0x1_0000
    {
      ops := ops[i0 := Op(write, blockno * (BSIZE / 512) % 0x1_0000_0000)];
      desc := desc[i0 := Desc(Header(i0), HEADER, F_NEXT, i1)];
      var flags: bv16 := if write then 0 else F_WRITE;
      desc := desc[i1 := Desc(Data(b), BSIZE, flags | F_NEXT, i2)];
      desc := desc[i2 := Desc(Status(i0), 1, F_WRITE, 0)];
      busy := busy[b := true];
      info := info[i0 := Info(Some(b), 0xff)];
      availRing := availRing[availIdx % NUM := i0];
      availIdx := (availIdx + 1) % 0x1_0000;
    }

    /** virtio_disk_rw up to its first sleep: either wait for descriptors, or hand the
        request to the device and wait for the buffer. */
    method Submit(thread: nat, b: nat, blockno: Uint32, write: bool) returns (r: Option<nat>)
      requires Valid() && forall h :: h in reqs ==> reqs[h].b != b
      modifies this
      ensures Valid()
      ensures r.None? <==> FreeCount(old(free), NUM) < 3
      ensures r.None? ==> reqs == old(reqs) && pending == old(pending) && done == old(done) && free == old(free)
      ensures r.None? ==> busy == old(busy) && thread in waiting
      ensures r.Some? ==> r.value < NUM && old(free)[r.value] && r.value !in old(reqs) && r.value in reqs
      ensures r.Some? ==> reqs == old(reqs)[r.value := reqs[r.value]] && reqs[r.value].b == b
      ensures r.Some? ==> reqs[r.value].phase.Queued? && reqs[r.value].op.write == write
      ensures r.Some? ==> reqs[r.value].op.sector == 2 * blockno - (if blockno < 0x8000_0000 then 0 else 0x1_0000_0000)
      ensures r.Some? ==> pending == old(pending) + [r.value] && done == old(done) && busy == old(busy)[b := true]
    {
      hide Idx, RequestsOk, RingOk, FreeCount;
      Sizes(free, desc, ops, info, busy, reqs, chain, pending, done, availRing, takes, usedRing, sees);
      var ok, idx := Alloc3();
      if !ok {
        waiting := waiting + {thread};
        return None;
      }
      Start(idx[0], idx[1], idx[2], b, blockno, write, old(free));
      return Some(idx[0]);
    }

    /** The rest of virtio_disk_rw before it sleeps on b. */
    method Start(i0: nat, i1: nat, i2: nat, b: nat, blockno: Uint32, write: bool, ghost f: seq<bool>)
      requires RequestsOk(f, desc, ops, info, busy, reqs, chain, pending, done)
      requires RingOk(availRing, takes, pending) && RingOk(usedRing, sees, done)
      requires availIdx == Idx(takes + |pending|) && usedIdx == Idx(sees + |done|) && seenIdx == Idx(sees)
      requires deviceIdx == Idx(takes)
      requires i0 < NUM && i1 < NUM && i2 < NUM && i0 != i1 && i1 != i2 && i0 != i2 && f[i0] && f[i1] && f[i2]
      requires free == f[i0 := false][i1 := false][i2 := false] && waiting == {}
      requires forall h :: h in reqs ==> reqs[h].b != b
      modifies this
      ensures Valid() && i0 !in old(reqs) && free == old(free) && waiting == {}
      ensures reqs == old(reqs)[i0 := Req(i1, i2, b, Op(write, Sector(blockno)), Queued, 0xff)]
      ensures pending == old(pending) + [i0] && done == old(done) && busy == old(busy)[b := true]
    {
      hide Idx, Sector, RequestsOk, RingOk, FreeCount, Filled, NoDup;
      Sizes(f, desc, ops, info, busy, reqs, chain, pending, done, availRing, takes, usedRing, sees);
      ghost var r := Req(i1, i2, b, Op(write, Sector(blockno)), Queued, 0xff);
      NewRequest(f, desc, ops, info, busy, reqs, chain, pending, done, availRing, takes, i0, r);
      Fill(i0, i1, i2, b, blockno, write);
      Enter(i0, r);
    }

    ghost method Enter(h: nat, r: Req)
      requires h < NUM && r.d1 < NUM && r.d2 < NUM
      modifies this`reqs, this`chain, this`pending
      ensures reqs == old(reqs)[h := r] && chain == old(chain)[h := h][r.d1 := h][r.d2 := h]
      ensures pending == old(pending) + [h]
    {
      reqs, chain, pending := reqs[h := r], chain[h := h][r.d1 := h][r.d2 := h], pending + [h];
    }

    /** The device takes the next chain from the avail ring: following the links it
        finds the request that was submitted, with a block of data to fill exactly
        if it is a read, and a byte for its status. */
    method DeviceTake() returns (h: nat, op: Op, data: Desc, status: Desc)
      requires Valid() && deviceIdx != availIdx
      modifies this`deviceIdx, this`takes, this`pending, this`reqs
      ensures Valid() && old(pending) != [] && h == old(pending)[0] && h in old(reqs) && old(reqs)[h].phase.Queued?
      ensures pending == old(pending)[1..] && reqs == old(reqs)[h := old(reqs)[h].(phase := Taken)]
      ensures op == old(reqs)[h].op && Describes(data, status, h, old(reqs)[h])
    {
      hide Idx, RequestsOk, RingOk, FreeCount, Describes;
      Sizes(free, desc, ops, info, busy, reqs, chain, pending, done, availRing, takes, usedRing, sees);
      Place(takes);
      h := availRing[deviceIdx % NUM];
      TakeOk(free, desc, ops, info, busy, reqs, chain, pending, done, availRing, takes);
      op, data := ops[h], desc[desc[h].next];
      status := desc[data.next];
      deviceIdx := (deviceIdx + 1) % 0x1_0000;
      takes, pending, reqs := takes + 1, pending[1..], reqs[h := reqs[h].(phase := Taken)];
    }

    /** The device finishes a chain it took: the status byte, then a used-ring entry.
        It may finish chains in any order, each once. */
    method DeviceFinish(h: nat, status: nat)
      requires Valid() && h in reqs && reqs[h].phase.Taken?
      modifies this`info, this`usedRing, this`usedIdx, this`done, this`reqs
      ensures Valid() && done == old(done) + [h]
      ensures reqs == old(reqs)[h := old(reqs)[h].(phase := Used, status := status)]
    {
      hide Idx, RequestsOk, RingOk, FreeCount;
      FinishOk(free, desc, ops, info, busy, reqs, chain, pending, done, usedRing, sees, h, status);
      info := info[h := info[h].(status := status)];
      usedRing := usedRing[usedIdx % NUM := h];
      usedIdx := (usedIdx + 1) % 0x1_0000;
      done, reqs := done + [h], reqs[h := reqs[h].(phase := Used, status := status)];
    }

    /** One turn of virtio_disk_intr's loop.  The entry names a request in progress,
        whose buffer is released; false stands for the panic at an error status. */
    method InterruptTurn() returns (ok: bool)
      requires Valid() && seenIdx != usedIdx
      modifies this`busy, this`seenIdx, this`sees, this`done, this`reqs
      ensures Valid() && old(done) != [] && old(done)[0] in old(reqs) && old(reqs)[old(done)[0]].phase.Used?
      ensures ok <==> old(reqs)[old(done)[0]].status == 0
      ensures ok ==> done == old(done)[1..]
      ensures ok ==> reqs == old(reqs)[old(done)[0] := old(reqs)[old(done)[0]].(phase := Seen)]
      ensures ok ==> busy == old(busy)[old(reqs)[old(done)[0]].b := false]
      ensures !ok ==> done == old(done) && reqs == old(reqs) && busy == old(busy)
    {
      hide Idx, RequestsOk, RingOk, FreeCount;
      Sizes(free, desc, ops, info, busy, reqs, chain, pending, done, availRing, takes, usedRing, sees);
      Unseen(sees, |done|);
      Place(sees);
      var id := usedRing[seenIdx % NUM];
      SeeOk(free, desc, ops, info, busy, reqs, chain, pending, done, usedRing, sees);
      if info[id].status != 0 {
        return false;
      }
      var b := info[id].b.value;
      busy := busy[b := false];
      seenIdx := (seenIdx + 1) % 0x1_0000;
      Saw(id);
      return true;
    }

    ghost method Saw(id: nat)
      requires done != [] && id in reqs
      modifies this`sees, this`done, this`reqs
      ensures sees == old(sees) + 1 && done == old(done)[1..] && reqs == old(reqs)[id := old(reqs)[id].(phase := Seen)]
    {
      sees, done, reqs := sees + 1, done[1..], reqs[id := reqs[id].(phase := Seen)];
    }

    /** virtio_disk_intr without the device adding entries meanwhile: it consumes
        every completion, or stops at the first with an error. */
    method Interrupt() returns (ok: bool)
      requires Valid()
      modifies this`busy, this`seenIdx, this`sees, this`done, this`reqs
      ensures Valid() && reqs.Keys == old(reqs.Keys)
      ensures ok <==> forall h :: h in old(reqs) && old(reqs)[h].phase.Used? ==> old(reqs)[h].status == 0
      ensures ok ==> done == []
      ensures ok ==> forall h :: h in reqs ==>
                reqs[h] == old(reqs)[h].(phase := if old(reqs)[h].phase.Used? then Seen else old(reqs)[h].phase)
    {
      hide Idx, RequestsOk, RingOk, FreeCount;
      Sizes(free, desc, ops, info, busy, reqs, chain, pending, done, availRing, takes, usedRing, sees);
      Unseen(sees, |done|);
      UsedMeansDone(free, desc, ops, info, busy, reqs, chain, pending, done);
      while seenIdx != usedIdx
        invariant Valid() && reqs.Keys == old(reqs.Keys)
        invariant (seenIdx == usedIdx <==> done == [])
        invariant (done == [] ==> forall h :: h in reqs ==> !reqs[h].phase.Used?)
        invariant forall h :: h in reqs ==>
                    || reqs[h] == old(reqs)[h]
                    || (old(reqs)[h].phase.Used? && old(reqs)[h].status == 0 && reqs[h] == old(reqs)[h].(phase := Seen))
        decreases |done|
      {
        ok := InterruptTurn();
        if !ok {
          return;
        }
        UsedMeansDone(free, desc, ops, info, busy, reqs, chain, pending, done);
        Sizes(free, desc, ops, info, busy, reqs, chain, pending, done, availRing, takes, usedRing, sees);
        Unseen(sees, |done|);
      }
      return true;
    }

    /** virtio_disk_rw after a wakeup: back to sleep, or free the chain and return.
        It returns exactly when the device has finished this request and the
        handler has seen it; no panic. */
    method Finish(h: nat) returns (returned: bool, ok: bool)
      requires Valid() && h in reqs
      modifies this
      ensures Valid() && ok && (returned <==> old(reqs)[h].phase.Seen?)
      ensures !returned ==> reqs == old(reqs) && free == old(free) && pending == old(pending) && done == old(done)
      ensures returned ==> reqs == old(reqs) - {h} && pending == old(pending) && done == old(done) && waiting == {}
      ensures returned ==> forall i: nat :: i < NUM ==>
                (free[i] <==> old(free)[i] || i == h || i == old(reqs)[h].d1 || i == old(reqs)[h].d2)
    {
      hide Idx, RequestsOk, RingOk, FreeCount;
      EndRequest(free, desc, ops, info, busy, reqs, chain, pending, done, h);
      if busy[info[h].b.value] {
        return false, true;
      }
      info := info[h := info[h].(b := None)];
      ok := FreeChain(h, reqs[h].d1, reqs[h].d2);
      Leave(h);
      return true, ok;
    }

    ghost method Leave(h: nat)
      requires h in reqs
      modifies this`chain, this`reqs
      ensures chain == old(chain) - {h, old(reqs)[h].d1, old(reqs)[h].d2} && reqs == old(reqs) - {h}
    {
      chain, reqs := chain - {h, reqs[h].d1, reqs[h].d2}, reqs - {h};
    }
  }
}
