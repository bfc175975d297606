/** log.c on top of the buffer cache.  Every method keeps a ghost record of the
    protocol steps it performs, one per disk write, so that what is proved of all
    runs of the protocol holds of the code at every point where it may crash. */
module Log {
  import opened Blocks
  import opened Bio
  import opened Common
  import P = LogProtocol

  // ------------------------------------------------ holding buffers in order

  /** The buffers in `mine` are referenced once, by this caller, and locked; those in
      `others` are in use elsewhere; no other buffer is referenced. */
  ghost predicate HoldsOnly(s: seq<Buf>, n: nat, g: Book, mine: set<nat>, others: set<nat>) {
    && |s| == n + 1 && |g.holders| == n && mine !! others
    && (forall i :: i in mine ==> i < n && s[i].locked && g.holders[i] == 1)
    && (forall i :: i in others ==> i < n && g.holders[i] > 0)
    && (forall i :: 0 <= i < n && i !in mine && i !in others ==> g.holders[i] == 0)
  }

  /** With room left in the cache, bread of a block not in use succeeds. */
  lemma ReadyToRead(s: seq<Buf>, n: nat, disk: DiskMap, g: Book, mine: set<nat>, others: set<nat>, b: nat)
    requires ContentsOk(s, n, disk, g) && HoldsOnly(s, n, g, mine, others)
    requires forall i :: i in mine + others ==> s[i].blockno != b
    requires |mine| + |others| + |g.pinned| < n
    ensures b in g.cached ==> g.cached[b] < n && !s[g.cached[b]].locked
    ensures exists i :: 0 <= i < n && s[i].refcnt == 0
  {
    assert |mine + others| == |mine| + |others|;
    UnusedBufferExists(s, n, disk, g, mine + others);
    hide DataOk;
  }

  lemma AcquiredHolds(s: seq<Buf>, disk: DiskMap, g: Book, t: seq<Buf>, h: Book, n: nat, b: nat, i: nat,
                      mine: set<nat>, others: set<nat>)
    requires ContentsOk(s, n, disk, g) && HoldsOnly(s, n, g, mine, others) && Acquired(s, g, t, h, n, b, i)
    requires forall j :: j in mine + others ==> s[j].blockno != b
    ensures HoldsOnly(t, n, h, mine + {i}, others) && i !in mine && i !in others
    ensures forall j :: j in mine + others ==> t[j] == s[j]
  {
    hide DataOk;
    assert b in g.cached ==> s[g.cached[b]].blockno == b;
    assert b !in g.cached ==> g.holders[i] == 0;
  }

  lemma GivenBackHolds(s: seq<Buf>, g: Book, t: seq<Buf>, h: Book, n: nat, i: nat, mine: set<nat>, others: set<nat>)
    requires HoldsOnly(s, n, g, mine, others) && GivenBack(s, g, t, h, n, i) && i in mine
    ensures HoldsOnly(t, n, h, mine - {i}, others)
    ensures forall j :: 0 <= j < n && j != i ==>
              t[j].data == s[j].data && t[j].blockno == s[j].blockno && t[j].locked == s[j].locked
              && t[j].valid == s[j].valid
    ensures h.dirty == g.dirty && h.view == g.view && h.pinned == g.pinned
  {
    forall j | 0 <= j < n
      ensures t[j] == Released(s, i)[j].(prev := t[j].prev, next := t[j].next)
    {
      assert t[j].(prev := 0, next := 0) == Released(s, i)[j].(prev := 0, next := 0);
    }
  }

  lemma HoldsKept(s: seq<Buf>, t: seq<Buf>, n: nat, g: Book, h: Book, mine: set<nat>, others: set<nat>)
    requires HoldsOnly(s, n, g, mine, others) && |t| == |s| && h.holders == g.holders
    requires forall i :: 0 <= i < n ==> t[i].locked == s[i].locked
    ensures HoldsOnly(t, n, h, mine, others)
  {
  }

  /** None of the buffers held is block b's. */
  ghost predicate Avoids(s: seq<Buf>, held: set<nat>, b: nat) {
    forall j :: j in held ==> j < |s| && s[j].blockno != b
  }

  /** Buffer i has been taken for block b and shows its contents; those held before are
      as they were. */
  ghost predicate Took(s: seq<Buf>, t: seq<Buf>, n: nat, g: Book, b: nat, i: nat, held: set<nat>) {
    && i !in held && i < n < |t| && b in g.view
    && t[i].blockno == b && t[i].valid && t[i].locked && t[i].data == g.view[b]
    && forall j :: j in held ==> j < n && j < |s| && t[j] == s[j]
  }

  /** Of the buffers held, those other than i are for the same blocks and as usable as
      before. */
  ghost predicate Dropped(s: seq<Buf>, t: seq<Buf>, n: nat, i: nat, held: set<nat>) {
    && n < |t|
    && forall j :: j in held && j != i ==>
         && j < n && j < |s|
         && t[j].blockno == s[j].blockno && t[j].locked == s[j].locked && t[j].valid == s[j].valid
  }

  /** The buffers in use elsewhere hold neither logged blocks nor blocks of the log. */
  ghost predicate OutOfTheWay(s: seq<Buf>, n: nat, others: set<nat>, y: P.Layout, lh: seq<nat>) {
    n < |s| && forall i :: i in others ==> i < n && s[i].blockno !in lh && !P.InLog(y, s[i].blockno)
  }

  lemma StillOutOfTheWay(s: seq<Buf>, t: seq<Buf>, n: nat, others: set<nat>, y: P.Layout, lh: seq<nat>)
    requires OutOfTheWay(s, n, others, y, lh) && n < |t|
    requires forall i :: i in others ==> t[i].blockno == s[i].blockno
    ensures OutOfTheWay(t, n, others, y, lh) && OutOfTheWay(t, n, others, y, [])
  {
  }

  // -------------------------------------------------------------------- log.c

  class Log {
    const y: P.Layout
    const cache: Bcache
    var lh: seq<nat>
    var outstanding: nat
    var committing: bool
    ghost var run: seq<P.State>
    ghost var steps: seq<P.Step>

    /** The protocol state reached so far. */
    ghost function Now(): P.State
      requires |run| > 0
      reads this
    {
      run[|run| - 1]
    }

    /** The code is at state Now() of a run of the protocol, and exactly the
        logged blocks that still have to be installed are pinned. */
    ghost predicate Tracks()
      reads this, cache, cache.bufs
    {
      && cache.Valid()
      && |run| > 0 && P.IsRun(y, run, steps)
      && Matches(Now(), cache.disk, cache.g.view, lh, outstanding)
      && cache.g.pinned == StillPinned(Now())
    }

    ghost predicate Valid()
      reads this, cache, cache.bufs
    {
      Tracks() && committing == P.Committing(Now())
    }

    /** initlog up to and including read_head: a boot from any disk whose log is
        well formed; m is the home contents that disk stands for. */
    constructor (layout: P.Layout, nbuf: nat, d: DiskMap, ghost m: DiskMap)
      requires P.DiskOk(layout, d) && P.StandsFor(layout, d, m) && nbuf >= 2
      ensures Valid() && Quiet({}) && cache.g.dirty == {} && cache.nbuf == nbuf && y == layout && fresh(cache)
      ensures fresh(cache.bufs)
      ensures run == [P.Boot(layout, d, m)] && steps == []
    {
      hide ListOk, CountsOk, IndexOk, DataOk, P.HeaderOf, P.StandsFor, P.DiskOk, P.IsRun;
      y := layout;
      cache := new Bcache(nbuf, d);
      lh := [];
      outstanding := 0;
      committing := false;
      run := [P.Boot(layout, d, m)];
      steps := [];
      new;
      BootHeader(layout, d, m);
      ReadHead();
    }

    ghost predicate Holding(mine: set<nat>, others: set<nat>)
      reads this, cache, cache.bufs
    {
      cache.Valid() && HoldsOnly(cache.bufs[..], cache.nbuf, cache.g, mine, others)
    }

    /** Between uses by the log: only `others` are referenced, and their blocks are
        out of its way. */
    ghost predicate Quiet(others: set<nat>)
      reads this, cache, cache.bufs
    {
      Holding({}, others) && OutOfTheWay(cache.bufs[..], cache.nbuf, others, y, lh)
    }

    /** bread when the cache has room, so that it cannot panic. */
    method Take(b: nat, ghost mine: set<nat>, ghost others: set<nat>) returns (i: nat)
      requires Holding(mine, others) && b in cache.disk && |mine| + |others| + |cache.g.pinned| < cache.nbuf
      requires Avoids(cache.bufs[..], mine + others, b)
      modifies cache`g, cache.bufs
      ensures Holding(mine + {i}, others)
      ensures Took(old(cache.bufs[..]), cache.bufs[..], cache.nbuf, cache.g, b, i, mine + others)
      ensures cache.g.view == old(cache.g.view) && cache.g.pinned == old(cache.g.pinned)
      ensures cache.g.dirty == old(cache.g.dirty)
    {
      hide ListOk, CountsOk, IndexOk, DataOk;
      ReadyToRead(cache.bufs[..], cache.nbuf, cache.disk, cache.g, mine, others, b);
      var r := cache.Bread(ROOTDEV, b);
      AcquiredHolds(old(cache.bufs[..]), cache.disk, old(cache.g), cache.bufs[..], cache.g, cache.nbuf, b, r.value,
                    mine, others);
      i := r.value;
    }

    method Drop(i: nat, ghost mine: set<nat>, ghost others: set<nat>)
      requires Holding(mine, others) && i in mine && i < cache.nbuf && i !in cache.g.dirty
      modifies cache`g, cache.bufs
      ensures Holding(mine - {i}, others)
      ensures Dropped(old(cache.bufs[..]), cache.bufs[..], cache.nbuf, i, mine + others)
      ensures cache.g.view == old(cache.g.view) && cache.g.pinned == old(cache.g.pinned)
      ensures cache.g.dirty == old(cache.g.dirty)
    {
      assert cache.bufs[..][i] == cache.bufs[i];
      hide ListOk, CountsOk, IndexOk, DataOk, GivenBack;
      cache.Brelse(i);
      GivenBackHolds(old(cache.bufs[..]), old(cache.g), cache.bufs[..], cache.g, cache.nbuf, i, mine, others);
    }

    /** bwrite of new contents for a held buffer. */
    method Store(i: nat, data: Block, ghost mine: set<nat>, ghost others: set<nat>)
      requires Holding(mine, others) && i in mine && i < cache.nbuf < cache.bufs.Length && cache.bufs[i].locked
      requires cache.bufs[i].valid
      requires i !in cache.g.dirty
      modifies cache, cache.bufs
      ensures Holding(mine, others) && cache.nbuf < cache.bufs.Length
      ensures cache.bufs[..] == old(cache.bufs[..])[i := old(cache.bufs[..])[i].(data := data)]
      ensures var b := old(cache.bufs[..])[i].blockno;
              cache.disk == old(cache.disk)[b := data] && cache.g.view == old(cache.g.view)[b := data]
      ensures cache.g.pinned == old(cache.g.pinned) && cache.g.dirty == old(cache.g.dirty)
    {
      hide ListOk, CountsOk, IndexOk, DataOk, HoldsOnly;
      ghost var s, g0 := cache.bufs[..], cache.g;
      cache.Modify(i, data);
      cache.Bwrite(i);
      assert g0.dirty + {i} - {i} == g0.dirty;
      HoldsKept(s, cache.bufs[..], cache.nbuf, g0, cache.g, mine, others);
    }

    /** One iteration of write_log: copy a cached block into its log slot. */
    method WriteLogBlock(tail: nat, ghost others: set<nat>)
      requires Quiet(others) && tail < |lh| && |others| + |cache.g.pinned| + 2 <= cache.nbuf
      requires P.Slot(y, tail) in cache.disk && lh[tail] in cache.disk && P.Slot(y, tail) != lh[tail]
      requires P.InLog(y, P.Slot(y, tail))
      requires cache.g.dirty <= others
      modifies cache, cache.bufs
      ensures Quiet(others) && cache.g.dirty == old(cache.g.dirty)
      ensures lh[tail] in old(cache.g.view)
      ensures cache.disk == old(cache.disk)[P.Slot(y, tail) := old(cache.g.view)[lh[tail]]]
      ensures cache.g.view == old(cache.g.view)[P.Slot(y, tail) := old(cache.g.view)[lh[tail]]]
      ensures cache.g.pinned == old(cache.g.pinned)
    {
      hide ListOk, CountsOk, IndexOk, DataOk, HoldsOnly;
      var to := Take(P.Slot(y, tail), {}, others);
      assert {} + {to} == {to};
      var from := Take(lh[tail], {to}, others);
      assert {to} + {from} == {to, from};
      Store(to, cache.bufs[from].data, {to, from}, others);
      StillOutOfTheWay(old(cache.bufs[..]), cache.bufs[..], cache.nbuf, others, y, lh);
      assert {to, from} == {from, to};
      DropTwo(from, to, others);
    }

    /** The two brelse calls that end an iteration. */
    method DropTwo(i: nat, j: nat, ghost others: set<nat>)
      requires Holding({i, j}, others) && i != j && i < cache.nbuf && j < cache.nbuf
      requires i !in cache.g.dirty && j !in cache.g.dirty && OutOfTheWay(cache.bufs[..], cache.nbuf, others, y, lh)
      modifies cache`g, cache.bufs
      ensures Quiet(others) && cache.g.view == old(cache.g.view)
      ensures cache.g.pinned == old(cache.g.pinned) && cache.g.dirty == old(cache.g.dirty)
    {
      hide ListOk, CountsOk, IndexOk, DataOk, OutOfTheWay;
      assert i !in others && j !in others;
      hide HoldsOnly;
      ghost var s := cache.bufs[..];
      Drop(i, {i, j}, others);
      assert {i, j} - {i} == {j};
      Drop(j, {j}, others);
      assert {j} - {j} == {};
      StillOutOfTheWay(s, cache.bufs[..], cache.nbuf, others, y, lh);
    }

    /** One iteration of install_trans: copy a log slot to the block's home. */
    method InstallBlock(tail: nat, recovering: bool, ghost others: set<nat>)
      requires Quiet(others) && tail < |lh| && |others| + |cache.g.pinned| + 2 <= cache.nbuf
      requires P.Slot(y, tail) in cache.disk && lh[tail] in cache.disk && P.Slot(y, tail) != lh[tail]
      requires P.InLog(y, P.Slot(y, tail))
      requires !recovering ==> lh[tail] in cache.g.pinned
      requires cache.g.dirty <= others
      modifies cache, cache.bufs
      ensures Quiet(others) && cache.g.dirty == old(cache.g.dirty)
      ensures P.Slot(y, tail) in old(cache.g.view)
      ensures cache.disk == old(cache.disk)[lh[tail] := old(cache.g.view)[P.Slot(y, tail)]]
      ensures cache.g.view == old(cache.g.view)[lh[tail] := old(cache.g.view)[P.Slot(y, tail)]]
      ensures cache.g.pinned == if recovering then old(cache.g.pinned) else old(cache.g.pinned) - {lh[tail]}
    {
      hide ListOk, CountsOk, IndexOk, DataOk, HoldsOnly;
      var lbuf := Take(P.Slot(y, tail), {}, others);
      assert {} + {lbuf} == {lbuf};
      var dbuf := Take(lh[tail], {lbuf}, others);
      assert {lbuf} + {dbuf} == {lbuf, dbuf};
      Store(dbuf, cache.bufs[lbuf].data, {lbuf, dbuf}, others);
      StillOutOfTheWay(old(cache.bufs[..]), cache.bufs[..], cache.nbuf, others, y, lh);
      if !recovering {
        Unpin(dbuf, {lbuf, dbuf}, others);
      }
      DropTwo(lbuf, dbuf, others);
    }

    /** bunpin of a held buffer that has just been written. */
    method Unpin(i: nat, ghost mine: set<nat>, ghost others: set<nat>)
      requires Holding(mine, others) && OutOfTheWay(cache.bufs[..], cache.nbuf, others, y, lh)
      requires i < cache.nbuf < cache.bufs.Length && cache.bufs[i].locked
      requires var b := cache.bufs[i].blockno;
               b in cache.g.pinned && b in cache.disk && b in cache.g.view && cache.disk[b] == cache.g.view[b]
      modifies cache`g, cache.bufs
      ensures Holding(mine, others) && OutOfTheWay(cache.bufs[..], cache.nbuf, others, y, lh)
      ensures cache.g == old(cache.g).(pinned := old(cache.g.pinned) - {old(cache.bufs[i]).blockno})
    {
      hide ListOk, CountsOk, IndexOk, DataOk, HoldsOnly;
      ghost var s, g0 := cache.bufs[..], cache.g;
      cache.Bunpin(i);
      HoldsKept(s, cache.bufs[..], cache.nbuf, g0, cache.g, mine, others);
    }

    /** write_head: list the in-memory header in the header block on disk. */
    method WriteHead(ghost others: set<nat>)
      requires Quiet(others) && P.Fits(lh) && y.start in cache.disk && P.InLog(y, y.start)
      requires |others| + |cache.g.pinned| + 1 <= cache.nbuf
      requires cache.g.dirty <= others
      modifies cache, cache.bufs
      ensures Quiet(others) && cache.g.dirty == old(cache.g.dirty)
      ensures y.start in old(cache.g.view)
      ensures var h := P.HeaderWith(old(cache.g.view)[y.start], lh, |lh|);
              cache.disk == old(cache.disk)[y.start := h] && cache.g.view == old(cache.g.view)[y.start := h]
      ensures cache.g.pinned == old(cache.g.pinned)
    {
      hide ListOk, CountsOk, IndexOk, DataOk, HoldsOnly;
      var buf := Take(y.start, {}, others);
      assert {} + {buf} == {buf};
      var hb := SetWord(cache.bufs[buf].data, 0, |lh|);
      for i := 0 to |lh|
        invariant hb == P.HeaderWith(cache.bufs[buf].data, lh, i)
      {
        hb := SetWord(hb, 1 + i, lh[i]);
      }
      Store(buf, hb, {buf}, others);
      Drop(buf, {buf}, others);
      assert {buf} - {buf} == {};
      StillOutOfTheWay(old(cache.bufs[..]), cache.bufs[..], cache.nbuf, others, y, lh);
    }

    /** read_head: load the header block into memory. */
    method ReadHead()
      requires Holding({}, {}) && y.start in cache.disk && |cache.g.pinned| + 1 <= cache.nbuf
      requires y.start in cache.g.view && GetWord(cache.g.view[y.start], 0) < WORDS_PER_BLOCK && cache.g.dirty == {}
      modifies this`lh, cache`g, cache.bufs
      ensures Quiet({}) && cache.g.view == old(cache.g.view) && cache.g.pinned == old(cache.g.pinned)
      ensures cache.g.dirty == {}
      ensures y.start in cache.g.view && lh == P.HeaderOf(cache.g.view[y.start])
    {
      hide ListOk, CountsOk, IndexOk, DataOk, HoldsOnly, GetWord;
      var buf := Take(y.start, {}, {});
      assert {} + {buf} == {buf};
      var h := cache.bufs[buf].data;
      lh := [];
      var n := GetWord(h, 0);
      for i := 0 to n
        invariant |lh| == i && lh == P.HeaderOf(h)[..i]
        invariant Holding({buf}, {})
        modifies this`lh
      {
        lh := lh + [GetWord(h, 1 + i)];
      }
      Drop(buf, {buf}, {});
      assert {buf} - {buf} == {};
    }

    /** Record one step of the protocol. */
    ghost method Record(a: P.Step)
      requires P.IsRun(y, run, steps) && P.Enabled(y, Now(), a)
      modifies this`run, this`steps
      ensures P.IsRun(y, run, steps) && Now() == P.Next(y, old(Now()), a)
      ensures run == old(run) + [P.Next(y, old(Now()), a)] && steps == old(steps) + [a]
    {
      P.Extend(y, run, steps, a);
      hide P.IsRun, P.Enabled, P.Next;
      run, steps := run + [P.Next(y, Now(), a)], steps + [a];
    }

    /** write_log: append every modified block to the on-disk log. */
    method WriteLog(ghost others: set<nat>)
      requires Tracks() && Quiet(others) && cache.g.dirty <= others
      requires Now().phase == P.Logging(0) && |others| + |lh| + 2 <= cache.nbuf
      modifies this`run, this`steps, cache, cache.bufs
      ensures Tracks() && Quiet(others) && Now().phase == P.Logging(|lh|) && cache.g.dirty == old(cache.g.dirty)
      ensures steps == old(steps) + Repeat(P.WriteLog, |lh|) && old(run) <= run
      ensures P.Home(y, cache.g.view) == old(P.Home(y, cache.g.view))
    {
      hide ListOk, CountsOk, IndexOk, DataOk, HoldsOnly, OutOfTheWay, P.IsRun, P.Enabled, P.Next, P.Home;
      for tail := 0 to |lh|
        invariant Tracks() && Quiet(others) && Now().phase == P.Logging(tail) && cache.g.dirty == old(cache.g.dirty)
        invariant steps == old(steps) + Repeat(P.WriteLog, tail) && old(run) <= run
        invariant P.Home(y, cache.g.view) == old(P.Home(y, cache.g.view))
        modifies this`run, this`steps, cache, cache.bufs
      {
        ReadyToLog(y, run, steps, tail);
        PinnedCard(lh);
        WriteLogBlock(tail, others);
        Record(P.WriteLog);
      }
    }

    /** install_trans: copy every logged block to its home. */
    method InstallTrans(recovering: bool, ghost others: set<nat>)
      requires Tracks() && Quiet(others) && cache.g.dirty <= others && Now().phase == P.Installing(0, recovering)
      requires |others| + (if recovering then 0 else |lh|) + 2 <= cache.nbuf
      modifies this`run, this`steps, cache, cache.bufs
      ensures Tracks() && Quiet(others) && Now().phase == P.Installing(|lh|, recovering)
      ensures cache.g.dirty == old(cache.g.dirty)
      ensures steps == old(steps) + Repeat(P.Install, |lh|) && old(run) <= run
      ensures !recovering ==> P.Home(y, cache.g.view) == old(P.Home(y, cache.g.view))
      ensures Now().committed == old(Now().committed)
    {
      hide ListOk, CountsOk, IndexOk, DataOk, HoldsOnly, OutOfTheWay, P.IsRun, P.Enabled, P.Next, P.Home;
      for tail := 0 to |lh|
        invariant Tracks() && Quiet(others) && Now().phase == P.Installing(tail, recovering)
        invariant cache.g.dirty == old(cache.g.dirty)
        invariant steps == old(steps) + Repeat(P.Install, tail) && old(run) <= run
        invariant !recovering ==> P.Home(y, cache.g.view) == old(P.Home(y, cache.g.view))
        invariant Now().committed == old(Now().committed)
        modifies this`run, this`steps, cache, cache.bufs
      {
        ReadyToInstall(y, run, steps, tail);
        PinnedCard(lh[tail..]);
        InstallBlock(tail, recovering, others);
        Record(P.Install);
      }
    }

    /** commit: log, commit, install, erase, while others may hold buffers. */
    method Commit(ghost others: set<nat>)
      requires Tracks() && Quiet(others) && cache.g.dirty <= others && |others| + |lh| + 2 <= cache.nbuf
      requires if lh == [] then Now().phase.Running? else Now().phase == P.Logging(0)
      modifies this`lh, this`run, this`steps, cache, cache.bufs
      ensures Tracks() && Quiet(others) && lh == [] && Now().phase.Running? && cache.g.dirty == old(cache.g.dirty)
      ensures steps == old(steps) + CommitSteps(|old(lh)|) && old(run) <= run
      ensures P.Home(y, cache.g.view) == old(P.Home(y, cache.g.view))
      ensures outstanding == 0 ==> Now().committed == P.Home(y, cache.g.view) == P.Home(y, cache.disk)
    {
      hide ListOk, CountsOk, IndexOk, DataOk, HoldsOnly, OutOfTheWay, P.IsRun, P.Enabled, P.Next, P.Home;
      if |lh| > 0 {
        WriteLog(others);
        CommitHead(others);
        InstallTrans(false, others);
        EraseLog(others);
      }
      Durable(y, run, steps);
    }

    /** The real commit: the header goes to disk once the whole log is there. */
    method CommitHead(ghost others: set<nat>)
      requires Tracks() && Quiet(others) && cache.g.dirty <= others && |others| + |lh| + 2 <= cache.nbuf
      requires Now().phase == P.Logging(|lh|)
      modifies this`run, this`steps, cache, cache.bufs
      ensures Tracks() && Quiet(others) && Now().phase == P.Installing(0, false) && cache.g.dirty == old(cache.g.dirty)
      ensures steps == old(steps) + [P.WriteHead] && old(run) <= run
      ensures P.Home(y, cache.g.view) == old(P.Home(y, cache.g.view)) == Now().committed
    {
      hide ListOk, CountsOk, IndexOk, DataOk, HoldsOnly, OutOfTheWay, P.IsRun, P.Enabled, P.Next, P.Home;
      ReadyToCommit(y, run, steps);
      PinnedCard(lh);
      WriteHead(others);
      Record(P.WriteHead);
    }

    /** The end of commit and of recovery: an empty header goes to disk. */
    method EraseLog(ghost others: set<nat>)
      requires Tracks() && Quiet(others) && cache.g.dirty <= others
      requires Now().phase.Installing? && Now().phase.k == |lh| && |others| + 2 <= cache.nbuf
      modifies this`lh, this`run, this`steps, cache, cache.bufs
      ensures Tracks() && Quiet(others) && lh == [] && Now().phase.Running? && cache.g.dirty == old(cache.g.dirty)
      ensures steps == old(steps) + [P.Erase] && old(run) <= run && Now().committed == old(Now().committed)
      ensures P.Home(y, cache.g.view) == old(P.Home(y, cache.g.view))
    {
      hide ListOk, CountsOk, IndexOk, DataOk, HoldsOnly, OutOfTheWay, P.IsRun, P.Enabled, P.Next, P.Home;
      ReadyToErase(y, run, steps);
      StillOutOfTheWay(cache.bufs[..], cache.bufs[..], cache.nbuf, others, y, lh);
      lh := [];
      WriteHead(others);
      Record(P.Erase);
    }

    /** The rest of recover_from_log after read_head. */
    method RecoverFromLog()
      requires Valid() && Quiet({}) && cache.g.dirty == {} && Now().phase == P.Installing(0, true) && cache.nbuf >= 2
      modifies this`lh, this`run, this`steps, cache, cache.bufs
      ensures Valid() && Quiet({}) && Now().phase.Running? && lh == [] && outstanding == 0
      ensures P.Home(y, cache.disk) == P.Home(y, cache.g.view) == Now().committed == old(Now().committed)
      ensures steps == old(steps) + Repeat(P.Install, |old(lh)|) + [P.Erase] && old(run) <= run
    {
      hide ListOk, CountsOk, IndexOk, DataOk, HoldsOnly, OutOfTheWay, P.IsRun, P.Enabled, P.Next, P.Home;
      InstallTrans(true, {});
      ReadyToErase(y, run, steps);
      EraseLog({});
      P.QuiescentIsDurable(y, run, steps, |run| - 1);
    }

    /** begin_op: one look at the log; the caller sleeps and looks again when the
        answer is no. */
    method BeginOp() returns (started: bool)
      requires Valid() && !Now().phase.Panicked?
      requires !(Now().phase.Installing? && Now().phase.recovering)
      modifies this`outstanding, this`run, this`steps
      ensures Valid()
      ensures started <==> old(P.Enabled(y, Now(), P.Begin))
      ensures started ==> steps == old(steps) + [P.Begin] && old(run) <= run && outstanding == old(outstanding) + 1
      ensures !started ==> steps == old(steps) && run == old(run) && outstanding == old(outstanding)
    {
      hide ListOk, CountsOk, IndexOk, DataOk, HoldsOnly, P.IsRun;
      Reached(y, run, steps);
      hide P.Inv, P.WellFormed;
      if committing {
        return false;
      } else if |lh| + (outstanding + 1) * y.maxOp > y.logSize {
        return false;
      } else {
        outstanding := outstanding + 1;
        Record(P.Begin);
        return true;
      }
    }

    /** end_op: the last operation to end commits the whole group, while `others` may
        still hold buffers; any earlier one leaves the cache alone. */
    method EndOp(ghost op: nat, ghost others: set<nat>)
      requires Valid() && !Now().phase.Panicked? && op < outstanding
      requires outstanding == 1 ==> Quiet(others) && cache.g.dirty <= others && |others| + |lh| + 2 <= cache.nbuf
      modifies this, cache, cache.bufs
      ensures Valid() && Now().phase.Running? && outstanding == old(outstanding) - 1 && old(run) <= run
      ensures steps == old(steps) + [P.End(op)] + (if outstanding == 0 then CommitSteps(|old(lh)|) else [])
      ensures P.Home(y, cache.g.view) == P.Home(y, old(cache.g.view))
      ensures outstanding > 0 ==> lh == old(lh) && unchanged(cache) && unchanged(cache.bufs)
      ensures outstanding == 0 ==> Quiet(others) && lh == [] && cache.g.dirty == old(cache.g.dirty)
      ensures outstanding == 0 ==> Now().committed == P.Home(y, cache.g.view) == P.Home(y, cache.disk)
    {
      hide ListOk, CountsOk, IndexOk, DataOk, HoldsOnly, OutOfTheWay, P.IsRun, P.Enabled, P.Next, P.Home;
      ReadyToEnd(y, run, steps, op);
      outstanding := outstanding - 1;
      Record(P.End(op));
      if outstanding == 0 {
        committing := true;
        Commit(others);
        committing := false;
      }
    }

    /** log_write: record that the held buffer's block was modified, pinning it the
        first time.  False stands for either panic: no room in the log, which is a
        step of the protocol, or no operation in progress. */
    method LogWrite(i: nat, ghost op: nat) returns (ok: bool)
      requires Valid() && !Now().phase.Panicked? && (outstanding > 0 ==> op < outstanding) && i < cache.nbuf
      requires i < cache.bufs.Length && cache.bufs[i].locked && cache.bufs[i].valid
      requires !P.InLog(y, cache.bufs[i].blockno)
      modifies this`lh, this`run, this`steps, cache`g, cache.bufs
      ensures Valid()
      ensures ok <==> outstanding > 0 && |old(lh)| < y.logSize && |old(lh)| < y.nlog - 1
      ensures outstanding > 0 ==>
                steps == old(steps) + [P.LogWrite(op, old(cache.bufs[i]).blockno, old(cache.bufs[i]).data)]
      ensures outstanding > 0 ==> old(run) <= run
      ensures outstanding > 0 ==> (ok <==> !Now().phase.Panicked?)
      ensures outstanding == 0 ==> steps == old(steps) && run == old(run) && lh == old(lh) && cache.g == old(cache.g)
      ensures ok ==> i !in cache.g.dirty
      ensures ok ==> cache.g.view == old(cache.g.view)[old(cache.bufs[i]).blockno := old(cache.bufs[i]).data]
      ensures ok ==>
                lh == old(lh) + (if old(cache.bufs[i]).blockno in old(lh) then [] else [old(cache.bufs[i]).blockno])
    {
      hide ListOk, CountsOk, IndexOk, DataOk, HoldsOnly, P.IsRun;
      ghost var b, data := cache.bufs[i].blockno, cache.bufs[i].data;
      LockedBlock(cache.bufs[..], cache.nbuf, cache.disk, cache.g, i);
      if outstanding > 0 {
        ReadyToLogWrite(y, run, steps, op, b, data);
      }
      if |lh| >= y.logSize || |lh| >= y.nlog - 1 {
        if outstanding > 0 {
          Record(P.LogWrite(op, b, data));
        }
        return false;
      }
      if outstanding < 1 {
        return false;
      }
      var k := 0;
      while k < |lh| && lh[k] != cache.bufs[i].blockno
        invariant 0 <= k <= |lh| && forall j :: 0 <= j < k ==> lh[j] != cache.bufs[i].blockno
      {
        k := k + 1;
      }
      if k == |lh| {
        cache.Bpin(i);
        assert Listed(lh + [b]) == Listed(lh) + {b};
        lh := lh + [cache.bufs[i].blockno];
      }
      assert b in Listed(lh);
      cache.Publish(i);
      Record(P.LogWrite(op, b, data));
      return true;
    }
  }

  /** What the fields of the log must be in protocol state s. */
  ghost predicate Matches(s: P.State, disk: DiskMap, view: DiskMap, lh: seq<nat>, outstanding: nat) {
    s.disk == disk && s.view == view && s.lh == lh && |s.ops| == outstanding
  }

  /** The blocks the log keeps pinned: all logged ones until they are installed;
      none while recovering. */
  function StillPinned(s: P.State): set<nat> {
    match s.phase
    case Installing(k, recovering) =>
      if recovering || k > |s.lh| then {} else Listed(s.lh[k..])
    case _ => Listed(s.lh)
  }

  function Repeat(a: P.Step, n: nat): seq<P.Step> {
    if n == 0 then [] else Repeat(a, n - 1) + [a]
  }

  /** The invariant of the protocol at the end of a run, and where the log lies. */
  lemma Reached(y: P.Layout, run: seq<P.State>, steps: seq<P.Step>)
    requires P.IsRun(y, run, steps)
    ensures |run| > 0 && P.Inv(y, run[|run| - 1])
    ensures var s := run[|run| - 1];
            && y.start in s.disk && P.InLog(y, y.start) && P.Fits(s.lh)
            && (forall j: nat :: j < |s.lh| ==> P.Slot(y, j) in s.disk && P.InLog(y, P.Slot(y, j)))
            && (forall j :: 0 <= j < |s.lh| ==> s.lh[j] in s.disk && !P.InLog(y, s.lh[j]))
  {
    P.RunKeepsInv(y, run, steps, |run| - 1);
    P.LogBlocks(y, run[|run| - 1].disk, run[|run| - 1].lh);
  }

  lemma ReadyToLog(y: P.Layout, run: seq<P.State>, steps: seq<P.Step>, k: nat)
    requires P.IsRun(y, run, steps) && var s := run[|run| - 1]; s.phase == P.Logging(k) && k < |s.lh|
    ensures var s := run[|run| - 1];
            && P.Slot(y, k) in s.disk && s.lh[k] in s.disk && P.Slot(y, k) != s.lh[k] && s.lh[k] in s.view
               && P.InLog(y, P.Slot(y, k))
            && P.Enabled(y, s, P.WriteLog) && P.Next(y, s, P.WriteLog) == P.WriteLogStep(y, s)
            && P.Home(y, P.WriteLogStep(y, s).view) == P.Home(y, s.view)
  {
    hide P.HeaderOf, P.StandsFor;
    Reached(y, run, steps);
  }

  lemma ReadyToInstall(y: P.Layout, run: seq<P.State>, steps: seq<P.Step>, k: nat)
    requires P.IsRun(y, run, steps) && var s := run[|run| - 1]; s.phase.Installing? && s.phase.k == k && k < |s.lh|
    ensures var s := run[|run| - 1];
            && P.Slot(y, k) in s.disk && s.lh[k] in s.disk && P.Slot(y, k) != s.lh[k] && P.Slot(y, k) in s.view
               && P.InLog(y, P.Slot(y, k))
            && P.Enabled(y, s, P.Install) && P.Next(y, s, P.Install) == P.InstallStep(y, s)
            && (!s.phase.recovering ==> P.Home(y, P.InstallStep(y, s).view) == P.Home(y, s.view))
            && Listed(s.lh[k + 1..]) == Listed(s.lh[k..]) - {s.lh[k]} && s.lh[k] in Listed(s.lh[k..])
  {
    hide P.HeaderOf, P.StandsFor, P.IsRun, P.DiskOk;
    Reached(y, run, steps);
    NextListed(run[|run| - 1].lh, k);
    hide P.EntriesOk, Listed;
  }

  lemma NextListed(lh: seq<nat>, k: nat)
    requires k < |lh| && forall i, j :: 0 <= i < j < |lh| ==> lh[i] != lh[j]
    ensures Listed(lh[k + 1..]) == Listed(lh[k..]) - {lh[k]} && lh[k] in Listed(lh[k..])
  {
    assert lh[k..] == [lh[k]] + lh[k + 1..];
  }

  lemma Durable(y: P.Layout, run: seq<P.State>, steps: seq<P.Step>)
    requires P.IsRun(y, run, steps)
    ensures var s := run[|run| - 1];
            s.phase.Running? && s.ops == [] ==> s.committed == P.Home(y, s.view) == P.Home(y, s.disk)
  {
    if run[|run| - 1].phase.Running? && run[|run| - 1].ops == [] {
      P.QuiescentIsDurable(y, run, steps, |run| - 1);
    }
  }

  lemma ReadyToCommit(y: P.Layout, run: seq<P.State>, steps: seq<P.Step>)
    requires P.IsRun(y, run, steps) && var s := run[|run| - 1]; s.phase == P.Logging(|s.lh|)
    ensures var s := run[|run| - 1];
            && y.start in s.disk && y.start in s.view && P.Fits(s.lh) && P.InLog(y, y.start)
            && P.Enabled(y, s, P.WriteHead) && P.Next(y, s, P.WriteHead) == P.WriteHeadStep(y, s)
            && P.Home(y, P.WriteHeadStep(y, s).view) == P.Home(y, s.view)
            && s.lh[0..] == s.lh
  {
    hide P.HeaderOf, P.StandsFor;
    Reached(y, run, steps);
  }

  lemma ReadyToErase(y: P.Layout, run: seq<P.State>, steps: seq<P.Step>)
    requires P.IsRun(y, run, steps) && var s := run[|run| - 1]; s.phase.Installing? && s.phase.k == |s.lh|
    ensures var s := run[|run| - 1];
            && y.start in s.disk && y.start in s.view && P.Fits([]) && s.ops == [] && P.InLog(y, y.start)
            && P.Enabled(y, s, P.Erase) && P.Next(y, s, P.Erase) == P.EraseStep(y, s)
            && P.Home(y, P.EraseStep(y, s).view) == P.Home(y, s.view)
            && s.lh[|s.lh|..] == [] && Listed([]) == {}
  {
    hide P.HeaderOf, P.StandsFor;
    Reached(y, run, steps);
  }

  lemma ReadyToEnd(y: P.Layout, run: seq<P.State>, steps: seq<P.Step>, op: nat)
    requires P.IsRun(y, run, steps) && var s := run[|run| - 1]; !s.phase.Panicked? && op < |s.ops|
    ensures var s := run[|run| - 1];
            && s.phase.Running? && P.Enabled(y, s, P.End(op)) && P.Next(y, s, P.End(op)) == P.EndStep(y, s, op)
  {
    hide P.HeaderOf, P.StandsFor;
    Reached(y, run, steps);
  }

  lemma ReadyToLogWrite(y: P.Layout, run: seq<P.State>, steps: seq<P.Step>, op: nat, b: nat, data: Block)
    requires P.IsRun(y, run, steps)
    requires var s := run[|run| - 1]; !s.phase.Panicked? && op < |s.ops| && b in s.disk && !P.InLog(y, b)
    ensures var s, a := run[|run| - 1], P.LogWrite(op, b, data);
            && s.phase.Running? && P.Enabled(y, s, a) && P.Next(y, s, a) == P.LogWriteStep(y, s, op, b, data)
  {
    hide P.HeaderOf, P.StandsFor;
    Reached(y, run, steps);
  }

  lemma LockedBlock(s: seq<Buf>, n: nat, disk: DiskMap, g: Book, i: nat)
    requires ContentsOk(s, n, disk, g) && i < n && s[i].locked
    ensures s[i].blockno in disk
  {
  }

  /** The disk writes of one commit of n blocks. */
  function CommitSteps(n: nat): seq<P.Step> {
    if n == 0 then [] else Repeat(P.WriteLog, n) + [P.WriteHead] + Repeat(P.Install, n) + [P.Erase]
  }

  lemma {:induction false} PinnedCard(lh: seq<nat>)
    ensures |Listed(lh)| <= |lh|
  {
    if lh != [] {
      PinnedCard(lh[1..]);
      assert Listed(lh) == Listed(lh[1..]) + {lh[0]};
    }
  }

  lemma BootHeader(y: P.Layout, d: DiskMap, m: DiskMap)
    requires P.DiskOk(y, d) && P.StandsFor(y, d, m)
    ensures y.start in d && GetWord(d[y.start], 0) < WORDS_PER_BLOCK
    ensures P.IsRun(y, [P.Boot(y, d, m)], [])
  {
    assert P.InLog(y, y.start);
  }
}
