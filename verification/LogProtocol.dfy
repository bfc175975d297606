/** The redo log as a state machine in which every disk write is a step of its
    own and a crash may happen between any two steps. */
module LogProtocol {
  import opened Blocks
  import opened Common

  /** Where the log lies on disk and how large it is.
      start:   the header block
      nlog:    blocks of the on-disk log, header included
      logSize: LOGSIZE, entries the header has room for
      maxOp:   MAXOPBLOCKS, the reservation of one file-system operation */
  datatype Layout = Layout(start: nat, nlog: nat, logSize: nat, maxOp: nat)

  predicate InLog(y: Layout, b: nat) {
    y.start <= b < y.start + y.nlog
  }

  /** The log block that holds the copy of header entry j. */
  function Slot(y: Layout, j: nat): (b: nat)
    ensures b > y.start
    ensures j + 1 < y.nlog ==> InLog(y, b)
  {
    y.start + 1 + j
  }

  /** The disk outside the log area. */
  function Home(y: Layout, d: DiskMap): DiskMap {
    map b | b in d && !InLog(y, b) :: d[b]
  }

  /** A log header fits in one block (initlog's check), the log area exists, and
      block numbers fit in the 32-bit words of the header. */
  ghost predicate DiskOk(y: Layout, d: DiskMap) {
    && y.nlog >= 1
    && y.logSize + 1 < WORDS_PER_BLOCK
    && (forall b :: InLog(y, b) ==> b in d)
    && (forall b :: b in d ==> b < 0x1_0000_0000)
  }

  // ------------------------------------------------------------ header block

  /** The block numbers listed in a header block. */
  function HeaderOf(b: Block): seq<nat> {
    var n := GetWord(b, 0);
    if n < WORDS_PER_BLOCK then seq(n, j requires 0 <= j < n => GetWord(b, 1 + j)) else []
  }

  predicate Fits(lh: seq<nat>) {
    |lh| < WORDS_PER_BLOCK && forall j :: 0 <= j < |lh| ==> lh[j] < 0x1_0000_0000
  }

  /** write_head's update of the header block: the count, then the first k entries. */
  function HeaderWith(b: Block, lh: seq<nat>, k: nat): Block
    requires Fits(lh) && k <= |lh|
  {
    if k == 0 then SetWord(b, 0, |lh|) else SetWord(HeaderWith(b, lh, k - 1), k, lh[k - 1])
  }

  lemma {:induction false} HeaderWords(b: Block, lh: seq<nat>, k: nat)
    requires Fits(lh) && k <= |lh|
    ensures GetWord(HeaderWith(b, lh, k), 0) == |lh|
    ensures forall j: nat | 1 <= j <= k :: GetWord(HeaderWith(b, lh, k), j) == lh[j - 1]
  {
    if k == 0 {
      WordRoundTrip(b, 0, |lh|);
    } else {
      HeaderWords(b, lh, k - 1);
      WordRoundTrip(HeaderWith(b, lh, k - 1), k, lh[k - 1]);
    }
  }

  /** Whatever the header block held before, it now lists exactly lh. */
  lemma HeaderRoundTrip(b: Block, lh: seq<nat>)
    requires Fits(lh)
    ensures GetWord(HeaderWith(b, lh, |lh|), 0) < WORDS_PER_BLOCK
    ensures HeaderOf(HeaderWith(b, lh, |lh|)) == lh
  {
    HeaderWords(b, lh, |lh|);
    var h := HeaderOf(HeaderWith(b, lh, |lh|));
    forall j | 0 <= j < |lh|
      ensures h[j] == lh[j]
    {
      assert GetWord(HeaderWith(b, lh, |lh|), j + 1) == lh[j];
    }
  }

  // --------------------------------------------------------------- recovery

  /** Home blocks listed in the header, distinct and no more than there are slots. */
  ghost predicate EntriesOk(y: Layout, d: DiskMap, lh: seq<nat>) {
    && |lh| <= y.logSize
    && |lh| <= y.nlog - 1
    && (forall j :: 0 <= j < |lh| ==> lh[j] in d && !InLog(y, lh[j]))
    && (forall i, j :: 0 <= i < j < |lh| ==> lh[i] != lh[j])
  }

  /** install_trans after k iterations: the first k logged blocks are copied home. */
  function Installed(y: Layout, d: DiskMap, lh: seq<nat>, k: nat): DiskMap
    requires DiskOk(y, d) && EntriesOk(y, d, lh) && k <= |lh|
  {
    if k == 0 then d else Installed(y, d, lh, k - 1)[lh[k - 1] := d[Slot(y, k - 1)]]
  }

  /** What recover_from_log makes of the disk. */
  function Recovered(y: Layout, d: DiskMap): DiskMap
    requires DiskOk(y, d) && EntriesOk(y, d, HeaderOf(d[y.start]))
  {
    var lh := HeaderOf(d[y.start]);
    Installed(y, d, lh, |lh|)[y.start := HeaderWith(d[y.start], [], 0)]
  }

  /** m is the home contents of d with the blocks of lh replaced by their copies in the log. */
  ghost predicate Replays(y: Layout, d: DiskMap, lh: seq<nat>, m: DiskMap)
    requires DiskOk(y, d) && EntriesOk(y, d, lh)
  {
    && m.Keys == Home(y, d).Keys
    && (forall j :: 0 <= j < |lh| ==> m[lh[j]] == d[Slot(y, j)])
    && (forall b :: b in m && b !in lh ==> m[b] == d[b])
  }

  /** The home contents m that disk d stands for, should the machine crash now. */
  ghost predicate StandsFor(y: Layout, d: DiskMap, m: DiskMap)
    requires DiskOk(y, d)
  {
    && GetWord(d[y.start], 0) < WORDS_PER_BLOCK
    && EntriesOk(y, d, HeaderOf(d[y.start]))
    && Replays(y, d, HeaderOf(d[y.start]), m)
  }

  lemma LastIsNew(y: Layout, d: DiskMap, lh: seq<nat>, k: nat)
    requires EntriesOk(y, d, lh) && 1 <= k <= |lh|
    ensures lh[k - 1] in d && forall j :: 0 <= j < k - 1 ==> lh[j] != lh[k - 1]
  {
  }

  lemma {:induction false} InstalledBlocks(y: Layout, d: DiskMap, lh: seq<nat>, k: nat)
    requires DiskOk(y, d) && EntriesOk(y, d, lh) && k <= |lh|
    ensures Installed(y, d, lh, k).Keys == d.Keys
    ensures forall j :: 0 <= j < k ==> Installed(y, d, lh, k)[lh[j]] == d[Slot(y, j)]
    ensures forall b :: b in d && b !in lh[..k] ==> Installed(y, d, lh, k)[b] == d[b]
  {
    hide HeaderOf, DiskOk, EntriesOk;
    if k > 0 {
      InstalledBlocks(y, d, lh, k - 1);
      LastIsNew(y, d, lh, k);
      LogBlocks(y, d, lh);
      assert lh[..k] == lh[..k - 1] + [lh[k - 1]];
      var before, after := Installed(y, d, lh, k - 1), Installed(y, d, lh, k);
      assert after == before[lh[k - 1] := d[Slot(y, k - 1)]];
    }
  }

  lemma ReplayIsInstall(y: Layout, d: DiskMap, lh: seq<nat>, m: DiskMap)
    requires DiskOk(y, d) && EntriesOk(y, d, lh)
    ensures Replays(y, d, lh, m) <==> m == Home(y, Installed(y, d, lh, |lh|))
  {
    hide Installed, DiskOk, EntriesOk;
    LogBlocks(y, d, lh);
    InstalledBlocks(y, d, lh, |lh|);
    assert lh[..|lh|] == lh;
    var h := Home(y, Installed(y, d, lh, |lh|));
    if Replays(y, d, lh, m) {
      forall b | b in m
        ensures m[b] == h[b]
      {
        if b in lh {
          var j :| 0 <= j < |lh| && lh[j] == b;
        }
      }
    }
  }

  /** Recovery produces exactly the home contents the disk stands for. */
  lemma RecoveryInstalls(y: Layout, d: DiskMap, m: DiskMap)
    requires DiskOk(y, d) && GetWord(d[y.start], 0) < WORDS_PER_BLOCK && EntriesOk(y, d, HeaderOf(d[y.start]))
    ensures StandsFor(y, d, m) <==> m == Home(y, Recovered(y, d))
  {
    var lh := HeaderOf(d[y.start]);
    ReplayIsInstall(y, d, lh, m);
    hide HeaderOf, HeaderWith, Replays, Installed;
    assert Home(y, Recovered(y, d)) == Home(y, Installed(y, d, lh, |lh|));
  }

  // ------------------------------------------------------------- the machine

  /** Installing covers install_trans and the header write that follows it, both
      in commit and (recovering) at boot. */
  datatype Phase =
    | Running
    | Logging(k: nat)
    | Installing(k: nat, recovering: bool)
    | Panicked

  /** disk:      what survives a crash
      view:      what bread returns, that is the contents last given to each block
      lh:        the in-memory log header
      ops:       for each operation in progress, the blocks it has added to the log
      committed: the home contents that the file system promises after a crash */
  datatype State = State(disk: DiskMap, view: DiskMap, lh: seq<nat>, ops: seq<nat>,
                         phase: Phase, committed: DiskMap)

  datatype Step =
    | Begin
    | LogWrite(op: nat, b: nat, data: Block)
    | End(op: nat)
    | WriteLog
    | WriteHead
    | Install
    | Erase
    | Crash

  predicate Committing(s: State) {
    s.phase.Logging? || (s.phase.Installing? && !s.phase.recovering)
  }

  ghost predicate WellFormed(y: Layout, s: State) {
    DiskOk(y, s.disk) && s.view.Keys == s.disk.Keys && EntriesOk(y, s.disk, s.lh)
  }

  /** When a step can be taken.  An operation in progress may call log_write and
      end_op at any time; begin_op waits until its condition holds. */
  ghost predicate Enabled(y: Layout, s: State, a: Step) {
    WellFormed(y, s) &&
    match a
    case Begin => s.phase.Running? && |s.lh| + (|s.ops| + 1) * y.maxOp <= y.logSize
    case LogWrite(op, b, _) => !s.phase.Panicked? && op < |s.ops| && b in s.disk && !InLog(y, b)
    case End(op) => !s.phase.Panicked? && op < |s.ops|
    case WriteLog => s.phase.Logging? && s.phase.k < |s.lh|
    case WriteHead => s.phase.Logging? && s.phase.k == |s.lh|
    case Install => s.phase.Installing? && s.phase.k < |s.lh|
    case Erase => s.phase.Installing? && s.phase.k == |s.lh|
    case Crash => true
  }

  predicate LogFull(y: Layout, s: State) {
    |s.lh| >= y.logSize || |s.lh| >= y.nlog - 1
  }

  /** A boot from disk d: nothing in memory but the header just read. */
  function Boot(y: Layout, d: DiskMap, committed: DiskMap): State
    requires DiskOk(y, d)
  {
    State(d, d, HeaderOf(d[y.start]), [], Installing(0, true), committed)
  }

  function LogWriteStep(y: Layout, s: State, op: nat, b: nat, data: Block): State
    requires op < |s.ops|
  {
    if LogFull(y, s) then s.(phase := Panicked)
    else if b in s.lh then s.(view := s.view[b := data])
    else s.(view := s.view[b := data], lh := s.lh + [b], ops := s.ops[op := s.ops[op] + 1])
  }

  function EndStep(y: Layout, s: State, op: nat): State
    requires op < |s.ops|
  {
    if Committing(s) then s.(phase := Panicked)
    else s.(ops := Without(s.ops, op),
            phase := if |s.ops| == 1 && |s.lh| > 0 then Logging(0) else Running)
  }

  /** A write that goes through the cache to the disk. */
  function WriteThrough(s: State, b: nat, data: Block): State {
    s.(disk := s.disk[b := data], view := s.view[b := data])
  }

  function WriteLogStep(y: Layout, s: State): State
    requires s.phase.Logging? && s.phase.k < |s.lh| && s.lh[s.phase.k] in s.view
  {
    WriteThrough(s, Slot(y, s.phase.k), s.view[s.lh[s.phase.k]]).(phase := Logging(s.phase.k + 1))
  }

  function WriteHeadStep(y: Layout, s: State): State
    requires y.start in s.view && Fits(s.lh)
  {
    WriteThrough(s, y.start, HeaderWith(s.view[y.start], s.lh, |s.lh|))
      .(phase := Installing(0, false), committed := Home(y, s.view))
  }

  function InstallStep(y: Layout, s: State): State
    requires s.phase.Installing? && s.phase.k < |s.lh| && Slot(y, s.phase.k) in s.view
  {
    WriteThrough(s, s.lh[s.phase.k], s.view[Slot(y, s.phase.k)]).(phase := s.phase.(k := s.phase.k + 1))
  }

  function EraseStep(y: Layout, s: State): State
    requires y.start in s.view
  {
    WriteThrough(s, y.start, HeaderWith(s.view[y.start], [], 0)).(lh := [], phase := Running)
  }

  /** One atomic step of the code. */
  ghost function Next(y: Layout, s: State, a: Step): State
    requires Enabled(y, s, a)
  {
    LogBlocks(y, s.disk, s.lh);
    match a
    case Begin => s.(ops := s.ops + [0])
    case LogWrite(op, b, data) => LogWriteStep(y, s, op, b, data)
    case End(op) => EndStep(y, s, op)
    case WriteLog => WriteLogStep(y, s)
    case WriteHead => WriteHeadStep(y, s)
    case Install => InstallStep(y, s)
    case Erase => EraseStep(y, s)
    case Crash => Boot(y, s.disk, s.committed)
  }

  // ------------------------------------------------------------ the invariant

  /** What holds in each phase beyond the common part. */
  ghost predicate PhaseOk(y: Layout, s: State)
    requires WellFormed(y, s)
  {
    match s.phase
    case Running =>
      && HeaderOf(s.disk[y.start]) == []
      && (s.ops == [] ==> s.lh == [])
    case Logging(k) =>
      && HeaderOf(s.disk[y.start]) == [] && s.ops == []
      && k <= |s.lh|
      && (forall j :: 0 <= j < k ==> s.disk[Slot(y, j)] == s.view[s.lh[j]])
    case Installing(k, recovering) =>
      && HeaderOf(s.disk[y.start]) == s.lh && s.ops == []
      && k <= |s.lh|
      && (forall j :: 0 <= j < k ==> s.disk[s.lh[j]] == s.view[s.lh[j]] == s.disk[Slot(y, j)])
      && (!recovering ==> forall j :: 0 <= j < |s.lh| ==> s.view[s.lh[j]] == s.disk[Slot(y, j)])
    case Panicked => true
  }

  ghost predicate Inv(y: Layout, s: State) {
    && WellFormed(y, s)
    && (forall b :: b in s.disk && b !in s.lh ==> s.view[b] == s.disk[b])
    && StandsFor(y, s.disk, s.committed)
    && PhaseOk(y, s)
  }

  lemma SameBlocks(y: Layout, d: DiskMap, e: DiskMap, lh: seq<nat>)
    requires DiskOk(y, d) && EntriesOk(y, d, lh) && d.Keys == e.Keys
    ensures DiskOk(y, e) && EntriesOk(y, e, lh)
  {
  }

  lemma LogBlocks(y: Layout, d: DiskMap, lh: seq<nat>)
    requires DiskOk(y, d) && EntriesOk(y, d, lh)
    ensures y.start in d && InLog(y, y.start) && Fits(lh)
    ensures forall j: nat :: j < |lh| ==> Slot(y, j) in d && InLog(y, Slot(y, j))
    ensures forall j :: 0 <= j < |lh| ==> lh[j] in d && !InLog(y, lh[j])
  {
    assert forall j: nat :: j < |lh| ==> InLog(y, Slot(y, j));
  }

  lemma NoEntries(y: Layout, d: DiskMap)
    requires DiskOk(y, d)
    ensures EntriesOk(y, d, [])
  {
  }

  lemma Meaning(y: Layout, d: DiskMap, lh: seq<nat>, m: DiskMap)
    requires DiskOk(y, d) && EntriesOk(y, d, lh) && y.start in d && HeaderOf(d[y.start]) == lh
    ensures StandsFor(y, d, m) <==> GetWord(d[y.start], 0) < WORDS_PER_BLOCK && Replays(y, d, lh, m)
  {
    hide HeaderOf, Replays;
  }

  lemma LogWriteKeepsInv(y: Layout, s: State, op: nat, b: nat, data: Block)
    requires Inv(y, s) && op < |s.ops| && b in s.disk && !InLog(y, b)
    ensures Inv(y, LogWriteStep(y, s, op, b, data))
  {
    hide HeaderOf, StandsFor;
  }

  /** Writing an unused slot of the log area changes nothing the disk stands for. */
  lemma SlotWriteKeepsMeaning(y: Layout, d: DiskMap, slot: nat, data: Block, m: DiskMap)
    requires DiskOk(y, d) && StandsFor(y, d, m) && HeaderOf(d[y.start]) == []
    requires InLog(y, slot) && slot != y.start
    ensures DiskOk(y, d[slot := data]) && StandsFor(y, d[slot := data], m)
  {
    hide HeaderOf;
    var e := d[slot := data];
    assert e.Keys == d.Keys;
    assert Home(y, e) == Home(y, d);
    assert Replays(y, e, [], m);
  }

  lemma WriteLogKeepsInv(y: Layout, s: State)
    requires Inv(y, s) && s.phase.Logging? && s.phase.k < |s.lh|
    ensures Inv(y, WriteLogStep(y, s))
  {
    hide HeaderOf, StandsFor, EntriesOk, DiskOk;
    LogBlocks(y, s.disk, s.lh);
    var slot, t := Slot(y, s.phase.k), WriteLogStep(y, s);
    SlotWriteKeepsMeaning(y, s.disk, slot, s.view[s.lh[s.phase.k]], s.committed);
    assert t.disk.Keys == s.disk.Keys == t.view.Keys;
    SameBlocks(y, s.disk, t.disk, s.lh);
    assert PhaseOk(y, t);
  }

  /** The header write is the commit point: from here on the disk stands for the
      logged copies, which are the latest contents of every block. */
  lemma HeaderWriteCommits(y: Layout, s: State)
    requires Inv(y, s) && s.phase.Logging? && s.phase.k == |s.lh|
    ensures Fits(s.lh)
    ensures DiskOk(y, WriteHeadStep(y, s).disk)
    ensures HeaderOf(WriteHeadStep(y, s).disk[y.start]) == s.lh
    ensures StandsFor(y, WriteHeadStep(y, s).disk, Home(y, s.view))
  {
    hide HeaderOf, HeaderWith, DiskOk, EntriesOk, StandsFor;
    LogBlocks(y, s.disk, s.lh);
    var t := WriteHeadStep(y, s);
    HeaderRoundTrip(s.view[y.start], s.lh);
    assert t.disk.Keys == s.disk.Keys;
    SameBlocks(y, s.disk, t.disk, s.lh);
    Meaning(y, t.disk, s.lh, Home(y, s.view));
    assert Replays(y, t.disk, s.lh, Home(y, s.view));
  }

  lemma WriteHeadKeepsInv(y: Layout, s: State)
    requires Inv(y, s) && s.phase.Logging? && s.phase.k == |s.lh|
    ensures Fits(s.lh) && Inv(y, WriteHeadStep(y, s))
  {
    hide HeaderOf, HeaderWith, StandsFor, EntriesOk, DiskOk;
    LogBlocks(y, s.disk, s.lh);
    HeaderWriteCommits(y, s);
    var t := WriteHeadStep(y, s);
    assert t.disk.Keys == s.disk.Keys == t.view.Keys;
    SameBlocks(y, s.disk, t.disk, s.lh);
    assert PhaseOk(y, t);
  }

  lemma InstallKeepsMeaning(y: Layout, d: DiskMap, lh: seq<nat>, k: nat, m: DiskMap)
    requires DiskOk(y, d) && EntriesOk(y, d, lh) && k < |lh| && Replays(y, d, lh, m)
    ensures Slot(y, k) in d
    ensures var e := d[lh[k] := d[Slot(y, k)]];
            DiskOk(y, e) && EntriesOk(y, e, lh) && Replays(y, e, lh, m)
  {
    LogBlocks(y, d, lh);
    var e := d[lh[k] := d[Slot(y, k)]];
    assert e.Keys == d.Keys;
    SameBlocks(y, d, e, lh);
    hide DiskOk, EntriesOk;
  }

  lemma InstallKeepsInv(y: Layout, s: State)
    requires Inv(y, s) && s.phase.Installing? && s.phase.k < |s.lh|
    ensures Inv(y, InstallStep(y, s))
  {
    hide HeaderOf, DiskOk, StandsFor, Replays;
    LogBlocks(y, s.disk, s.lh);
    var t := InstallStep(y, s);
    Meaning(y, s.disk, s.lh, s.committed);
    assert s.view[Slot(y, s.phase.k)] == s.disk[Slot(y, s.phase.k)];
    InstallKeepsMeaning(y, s.disk, s.lh, s.phase.k, s.committed);
    Meaning(y, t.disk, s.lh, t.committed);
    assert t.disk.Keys == s.disk.Keys == t.view.Keys;
  }

  /** Once every logged block is installed, the home blocks are what the log stood for. */
  lemma AllInstalled(y: Layout, d: DiskMap, lh: seq<nat>, m: DiskMap)
    requires DiskOk(y, d) && EntriesOk(y, d, lh) && Replays(y, d, lh, m)
    requires forall j :: 0 <= j < |lh| ==> d[lh[j]] == d[Slot(y, j)]
    ensures m == Home(y, d)
  {
    forall b | b in m
      ensures m[b] == d[b]
    {
      if b in lh {
        var j :| 0 <= j < |lh| && lh[j] == b;
      }
    }
  }

  lemma EraseKeepsInv(y: Layout, s: State)
    requires Inv(y, s) && s.phase.Installing? && s.phase.k == |s.lh|
    ensures Inv(y, EraseStep(y, s))
    ensures s.committed == Home(y, s.disk)
  {
    hide HeaderOf, HeaderWith, DiskOk, EntriesOk, StandsFor, Replays;
    LogBlocks(y, s.disk, s.lh);
    Meaning(y, s.disk, s.lh, s.committed);
    AllInstalled(y, s.disk, s.lh, s.committed);
    forall b | b in s.disk
      ensures s.view[b] == s.disk[b]
    {
      if b in s.lh {
        var j :| 0 <= j < |s.lh| && s.lh[j] == b;
      }
    }
    var t := EraseStep(y, s);
    HeaderRoundTrip(s.view[y.start], []);
    assert t.disk.Keys == s.disk.Keys == t.view.Keys;
    SameBlocks(y, s.disk, t.disk, s.lh);
    NoEntries(y, t.disk);
    assert Home(y, t.disk) == Home(y, s.disk);
    EmptyLogMeaning(y, t.disk);
    Meaning(y, t.disk, [], t.committed);
  }

  lemma EmptyLogMeaning(y: Layout, d: DiskMap)
    requires DiskOk(y, d) && EntriesOk(y, d, [])
    ensures Replays(y, d, [], Home(y, d))
  {
  }

  lemma StepKeepsInv(y: Layout, s: State, a: Step)
    requires Inv(y, s) && Enabled(y, s, a)
    ensures Inv(y, Next(y, s, a))
  {
    match a
    case Begin =>
    case LogWrite(op, b, data) => LogWriteKeepsInv(y, s, op, b, data);
    case End(op) =>
    case WriteLog => WriteLogKeepsInv(y, s);
    case WriteHead => WriteHeadKeepsInv(y, s);
    case Install => InstallKeepsInv(y, s);
    case Erase => EraseKeepsInv(y, s);
    case Crash =>
  }

  // --------------------------------------------------------------- whole runs

  /** A run starts at a boot from any disk whose log is well formed (m is what it
      stands for) and takes any enabled steps, crashes included. */
  ghost predicate IsRun(y: Layout, run: seq<State>, steps: seq<Step>) {
    && |run| == |steps| + 1
    && DiskOk(y, run[0].disk)
    && StandsFor(y, run[0].disk, run[0].committed)
    && run[0] == Boot(y, run[0].disk, run[0].committed)
    && (forall i :: 0 <= i < |steps| ==> Enabled(y, run[i], steps[i]) && run[i + 1] == Next(y, run[i], steps[i]))
  }

  lemma Extend(y: Layout, run: seq<State>, steps: seq<Step>, a: Step)
    requires IsRun(y, run, steps) && Enabled(y, run[|run| - 1], a)
    ensures IsRun(y, run + [Next(y, run[|run| - 1], a)], steps + [a])
  {
    hide Enabled, Next, DiskOk, StandsFor, HeaderOf;
  }

  lemma {:induction false} RunKeepsInv(y: Layout, run: seq<State>, steps: seq<Step>, i: nat)
    requires IsRun(y, run, steps) && i < |run|
    ensures Inv(y, run[i])
  {
    hide HeaderOf, HeaderWith;
    if i == 0 {
      BootOk(y, run[0].disk, run[0].committed);
    } else {
      hide DiskOk, EntriesOk, StandsFor, Next;
      RunKeepsInv(y, run, steps, i - 1);
      StepKeepsInv(y, run[i - 1], steps[i - 1]);
    }
  }

  lemma BootOk(y: Layout, d: DiskMap, m: DiskMap)
    requires DiskOk(y, d) && StandsFor(y, d, m)
    ensures Inv(y, Boot(y, d, m))
  {
    hide HeaderOf, Replays;
  }

  /** Crash atomicity.  Wherever a run is stopped, recovery from the disk as it
      then stands restores exactly the committed home contents, and those change
      only at the header write of a commit, from the contents before the
      transaction to all of its writes. */
  lemma CrashAtomicity(y: Layout, run: seq<State>, steps: seq<Step>, i: nat)
    requires IsRun(y, run, steps) && i < |run|
    ensures DiskOk(y, run[i].disk) && EntriesOk(y, run[i].disk, HeaderOf(run[i].disk[y.start]))
    ensures Home(y, Recovered(y, run[i].disk)) == run[i].committed
    ensures i < |steps| ==>
              run[i + 1].committed == if steps[i].WriteHead? then Home(y, run[i].view) else run[i].committed
    ensures i < |steps| && steps[i].WriteHead? ==> run[i].ops == []
  {
    hide HeaderOf, HeaderWith, Replays, Recovered, DiskOk, EntriesOk;
    RunKeepsInv(y, run, steps, i);
    RecoveryInstalls(y, run[i].disk, run[i].committed);
  }

  /** Operations are all-or-nothing: what a crash leaves is the view at an earlier
      moment when no operation was in progress (or what was there at the start). */
  lemma {:induction false} CommittedWasQuiescent(y: Layout, run: seq<State>, steps: seq<Step>, i: nat)
    requires IsRun(y, run, steps) && i < |run|
    ensures run[i].committed == run[0].committed
            || exists k :: 0 <= k < i && run[k].ops == [] && run[i].committed == Home(y, run[k].view)
  {
    if i > 0 {
      CommittedWasQuiescent(y, run, steps, i - 1);
      CrashAtomicity(y, run, steps, i - 1);
      if steps[i - 1].WriteHead? {
        assert run[i - 1].ops == [] && run[i].committed == Home(y, run[i - 1].view);
      }
    }
  }

  /** Durability: once no operation is in progress and no commit is under way,
      everything written so far survives a crash. */
  lemma QuiescentIsDurable(y: Layout, run: seq<State>, steps: seq<Step>, i: nat)
    requires IsRun(y, run, steps) && i < |run| && run[i].phase.Running? && run[i].ops == []
    ensures run[i].committed == Home(y, run[i].view) == Home(y, run[i].disk)
  {
    RunKeepsInv(y, run, steps, i);
    hide HeaderOf;
    var s := run[i];
    Meaning(y, s.disk, [], s.committed);
  }

  /** Crashes during recovery, any number of them, do no harm: when recovery at
      last completes, the home blocks are what the first crash left committed. */
  lemma {:induction false} RepeatedRecovery(y: Layout, run: seq<State>, steps: seq<Step>, i: nat, j: nat)
    requires IsRun(y, run, steps) && i <= j < |run|
    requires run[i].phase.Installing? && run[i].phase.recovering
    requires forall k :: i <= k < j ==> steps[k].Crash? || steps[k].Install? || steps[k].Erase?
    requires forall k :: i <= k < j ==> run[k].phase.Installing?
    ensures run[j].committed == run[i].committed
    ensures run[j].phase.Running? ==> Home(y, run[j].disk) == run[i].committed
  {
    hide Enabled, Next, Inv;
    if i < j {
      if j - 1 > i {
        RepeatedRecovery(y, run, steps, i, j - 1);
      }
      RunKeepsInv(y, run, steps, j - 1);
      RecoveryStep(y, run[j - 1], steps[j - 1]);
      if run[j].phase.Running? {
        QuiescentIsDurable(y, run, steps, j);
      }
    }
  }

  lemma RecoveryStep(y: Layout, s: State, st: Step)
    requires Inv(y, s) && Enabled(y, s, st) && s.phase.Installing? && (st.Crash? || st.Install? || st.Erase?)
    ensures Next(y, s, st).committed == s.committed && Next(y, s, st).ops == []
  {
    hide HeaderOf, HeaderWith, StandsFor, DiskOk, EntriesOk, Recovered;
  }

  // -------------------------------------------------------------- reservation

  /** Every operation adds at most `budget` blocks to the log. */
  ghost predicate Budgeted(y: Layout, run: seq<State>, steps: seq<Step>, budget: nat) {
    && IsRun(y, run, steps)
    && forall i, op :: 0 <= i < |run| && 0 <= op < |run[i].ops| ==> run[i].ops[op] <= budget
  }

  /** The blocks that the operations in progress may still add. */
  function Slack(ops: seq<nat>, budget: nat): int {
    if ops == [] then 0 else Slack(ops[..|ops| - 1], budget) + budget - ops[|ops| - 1]
  }

  lemma {:induction false} SlackUpdate(ops: seq<nat>, budget: nat, i: nat, u: nat)
    requires i < |ops|
    ensures Slack(ops[i := u], budget) == Slack(ops, budget) + ops[i] - u
  {
    var m := |ops| - 1;
    if i < m {
      SlackUpdate(ops[..m], budget, i, u);
      assert ops[i := u][..m] == ops[..m][i := u];
    } else {
      assert ops[i := u][..m] == ops[..m];
    }
  }

  lemma {:induction false} SlackWithout(ops: seq<nat>, budget: nat, i: nat)
    requires i < |ops|
    ensures Slack(Without(ops, i), budget) == Slack(ops, budget) - (budget - ops[i])
  {
    var m := |ops| - 1;
    if i < m {
      SlackWithout(ops[..m], budget, i);
      assert Without(ops, i)[..m - 1] == Without(ops[..m], i);
    } else {
      assert Without(ops, i) == ops[..m];
    }
  }

  lemma {:induction false} SlackBound(ops: seq<nat>, budget: nat)
    requires forall i :: 0 <= i < |ops| ==> ops[i] <= budget
    ensures 0 <= Slack(ops, budget) <= |ops| * budget
  {
    if ops != [] {
      SlackBound(ops[..|ops| - 1], budget);
      assert |ops| * budget == (|ops| - 1) * budget + budget;
    }
  }

  /** What the log holds plus what may still be added stays two below its size. */
  ghost predicate Reserved(y: Layout, s: State)
    requires y.maxOp >= 1
  {
    && !s.phase.Panicked?
    && ((s.phase.Installing? && s.phase.recovering) || |s.lh| + Slack(s.ops, y.maxOp - 1) <= y.logSize - 2)
  }

  lemma StepKeepsReserved(y: Layout, s: State, a: Step)
    requires y.nlog == y.logSize && 1 <= y.maxOp < y.logSize
    requires Inv(y, s) && Reserved(y, s) && Enabled(y, s, a)
    requires forall op :: 0 <= op < |s.ops| ==> s.ops[op] <= y.maxOp - 1
    requires forall op :: 0 <= op < |Next(y, s, a).ops| ==> Next(y, s, a).ops[op] <= y.maxOp - 1
    ensures Reserved(y, Next(y, s, a))
  {
    hide HeaderOf, HeaderWith, StandsFor, DiskOk, EntriesOk;
    match a
    case Begin => BeginKeepsReserved(y, s, a);
    case LogWrite(_, _, _) => LogWriteKeepsReserved(y, s, a);
    case End(_) => EndKeepsReserved(y, s, a);
    case _ => DiskKeepsReserved(y, s, a);
  }

  lemma BeginKeepsReserved(y: Layout, s: State, a: Step)
    requires y.nlog == y.logSize && 1 <= y.maxOp < y.logSize
    requires Inv(y, s) && Reserved(y, s) && Enabled(y, s, a) && a.Begin?
    requires forall op :: 0 <= op < |s.ops| ==> s.ops[op] <= y.maxOp - 1
    requires forall op :: 0 <= op < |Next(y, s, a).ops| ==> Next(y, s, a).ops[op] <= y.maxOp - 1
    ensures Reserved(y, Next(y, s, a))
  {
    hide HeaderOf, HeaderWith, StandsFor, DiskOk, EntriesOk;
    BeginReserves(y, s.lh, s.ops);
  }

  lemma LogWriteKeepsReserved(y: Layout, s: State, a: Step)
    requires y.nlog == y.logSize && 1 <= y.maxOp < y.logSize
    requires Inv(y, s) && Reserved(y, s) && Enabled(y, s, a) && a.LogWrite?
    requires forall op :: 0 <= op < |s.ops| ==> s.ops[op] <= y.maxOp - 1
    requires forall op :: 0 <= op < |Next(y, s, a).ops| ==> Next(y, s, a).ops[op] <= y.maxOp - 1
    ensures Reserved(y, Next(y, s, a))
  {
    hide HeaderOf, HeaderWith, StandsFor, DiskOk, EntriesOk;
    SlackBound(s.ops, y.maxOp - 1);
    if a.b !in s.lh {
      SlackUpdate(s.ops, y.maxOp - 1, a.op, s.ops[a.op] + 1);
    }
  }

  lemma EndKeepsReserved(y: Layout, s: State, a: Step)
    requires y.nlog == y.logSize && 1 <= y.maxOp < y.logSize
    requires Inv(y, s) && Reserved(y, s) && Enabled(y, s, a) && a.End?
    requires forall op :: 0 <= op < |s.ops| ==> s.ops[op] <= y.maxOp - 1
    requires forall op :: 0 <= op < |Next(y, s, a).ops| ==> Next(y, s, a).ops[op] <= y.maxOp - 1
    ensures Reserved(y, Next(y, s, a))
  {
    hide HeaderOf, HeaderWith, StandsFor, DiskOk, EntriesOk;
    SlackBound(s.ops, y.maxOp - 1);
    SlackWithout(s.ops, y.maxOp - 1, a.op);
  }

  lemma DiskKeepsReserved(y: Layout, s: State, a: Step)
    requires y.nlog == y.logSize && 1 <= y.maxOp < y.logSize
    requires Inv(y, s) && Reserved(y, s) && Enabled(y, s, a) && !a.Begin? && !a.End? && !a.LogWrite?
    ensures Reserved(y, Next(y, s, a))
  {
    hide HeaderOf, HeaderWith, StandsFor, DiskOk, EntriesOk;
  }

  lemma TimesOneLess(k: nat, m: nat)
    ensures k * (m - 1) == k * m - k && (k + 1) * m == k * m + m
  {
  }

  lemma BeginReserves(y: Layout, lh: seq<nat>, ops: seq<nat>)
    requires 1 <= y.maxOp < y.logSize && |lh| + (|ops| + 1) * y.maxOp <= y.logSize
    requires ops == [] ==> lh == []
    requires forall i :: 0 <= i < |ops| ==> ops[i] <= y.maxOp - 1
    ensures |lh| + Slack(ops + [0], y.maxOp - 1) <= y.logSize - 2
  {
    SlackBound(ops, y.maxOp - 1);
    assert (ops + [0])[..|ops|] == ops;
    TimesOneLess(|ops|, y.maxOp);
  }

  /** With a log as long as its header has entries, and operations that each add
      fewer than MAXOPBLOCKS blocks, no panic of log.c is reachable, the log never
      holds more than LOGSIZE - 2 new blocks, a commit runs only when no operation
      is in progress, and an idle log is empty. */
  lemma {:induction false} ReservationSuffices(y: Layout, run: seq<State>, steps: seq<Step>, i: nat)
    requires y.nlog == y.logSize && 1 <= y.maxOp < y.logSize
    requires Budgeted(y, run, steps, y.maxOp - 1) && i < |run|
    ensures Reserved(y, run[i])
    ensures !run[i].phase.Panicked?
    ensures !(run[i].phase.Installing? && run[i].phase.recovering) ==> |run[i].lh| <= y.logSize - 2
    ensures Committing(run[i]) ==> run[i].ops == []
    ensures run[i].phase.Running? && run[i].ops == [] ==> run[i].lh == []
  {
    hide HeaderOf, HeaderWith, StandsFor, DiskOk, EntriesOk, Next, Enabled;
    RunKeepsInv(y, run, steps, i);
    SlackBound(run[i].ops, y.maxOp - 1);
    if i > 0 {
      RunKeepsInv(y, run, steps, i - 1);
      ReservationSuffices(y, run, steps, i - 1);
      StepKeepsReserved(y, run[i - 1], steps[i - 1]);
    }
  }

  // ------------------------------------------------- the reservation is tight

  lemma ExtendBudgeted(y: Layout, run: seq<State>, steps: seq<Step>, a: Step, budget: nat)
    requires Budgeted(y, run, steps, budget) && Enabled(y, run[|run| - 1], a)
    requires var t := Next(y, run[|run| - 1], a); forall op :: 0 <= op < |t.ops| ==> t.ops[op] <= budget
    ensures Budgeted(y, run + [Next(y, run[|run| - 1], a)], steps + [a], budget)
  {
    hide Enabled, Next, DiskOk, StandsFor, HeaderOf;
  }

  /** The state after j of the writes of three operations that fill their reservation. */
  function FullState(y: Layout, s: State, bs: seq<nat>, j: nat): State
    requires j <= |bs|
  {
    var m := y.maxOp;
    s.(lh := bs[..j],
       ops := [if j < m then j else m, if j < m then 0 else if j < 2 * m then j - m else m, if j < 2 * m then 0
               else j - 2 * m])
  }

  function FullOp(y: Layout, j: nat): nat {
    if j < y.maxOp then 0 else if j < 2 * y.maxOp then 1 else 2
  }

  ghost predicate HomeBlocks(y: Layout, d: DiskMap, bs: seq<nat>) {
    && (forall j :: 0 <= j < |bs| ==> bs[j] in d && !InLog(y, bs[j]))
    && (forall i, j :: 0 <= i < j < |bs| ==> bs[i] != bs[j])
  }

  lemma FullWrite(y: Layout, s: State, bs: seq<nat>, j: nat)
    requires WellFormed(y, s) && s.phase.Running? && y.nlog == y.logSize == 3 * y.maxOp == |bs|
    requires HomeBlocks(y, s.disk, bs) && j < |bs|
    ensures var a := LogWrite(FullOp(y, j), bs[j], s.view[bs[j]]);
            && Enabled(y, FullState(y, s, bs, j), a)
            && Next(y, FullState(y, s, bs, j), a)
               == if j < |bs| - 1 then FullState(y, s, bs, j + 1) else FullState(y, s, bs, j).(phase := Panicked)
  {
    hide DiskOk, HeaderOf;
    var t := FullState(y, s, bs, j);
    assert EntriesOk(y, s.disk, bs[..j]);
    assert bs[j] !in bs[..j];
    assert s.view[bs[j] := s.view[bs[j]]] == s.view;
    assert bs[..j + 1] == bs[..j] + [bs[j]];
  }

  lemma {:induction false} FullWrites(y: Layout, s: State, bs: seq<nat>, run0: seq<State>, steps0: seq<Step>, j: nat)
    returns (run: seq<State>, steps: seq<Step>)
    requires WellFormed(y, s) && s.phase.Running? && y.nlog == y.logSize == 3 * y.maxOp == |bs|
    requires HomeBlocks(y, s.disk, bs) && j < |bs|
    requires Budgeted(y, run0, steps0, y.maxOp) && run0[|run0| - 1] == FullState(y, s, bs, 0)
    ensures Budgeted(y, run, steps, y.maxOp) && run[|run| - 1] == FullState(y, s, bs, j)
    ensures run[0] == run0[0]
  {
    hide DiskOk, HeaderOf, StandsFor, Enabled, Next;
    if j == 0 {
      run, steps := run0, steps0;
    } else {
      run, steps := FullWrites(y, s, bs, run0, steps0, j - 1);
      FullWrite(y, s, bs, j - 1);
      var a := LogWrite(FullOp(y, j - 1), bs[j - 1], s.view[bs[j - 1]]);
      ExtendBudgeted(y, run, steps, a, y.maxOp);
      run, steps := run + [FullState(y, s, bs, j)], steps + [a];
    }
  }

  lemma BootToRunning(y: Layout, d: DiskMap) returns (run: seq<State>, steps: seq<Step>)
    requires DiskOk(y, d) && GetWord(d[y.start], 0) == 0
    ensures Budgeted(y, run, steps, y.maxOp) && |run| > 0 && run[0].disk == d
    ensures var s := run[|run| - 1];
            WellFormed(y, s) && s.disk.Keys == d.Keys && s.phase.Running? && s.lh == [] && s.ops == []
  {
    assert HeaderOf(d[y.start]) == [];
    hide HeaderOf, HeaderWith;
    var s := Boot(y, d, Home(y, d));
    NoEntries(y, d);
    Meaning(y, d, [], Home(y, d));
    BootOk(y, d, Home(y, d));
    EraseKeepsInv(y, s);
    ExtendBudgeted(y, [s], [], Erase, y.maxOp);
    run, steps := [s] + [EraseStep(y, s)], [] + [Erase];
  }

  lemma OneBegin(y: Layout, run0: seq<State>, steps0: seq<Step>) returns (run: seq<State>, steps: seq<Step>)
    requires Budgeted(y, run0, steps0, y.maxOp)
    requires var s := run0[|run0| - 1];
             && WellFormed(y, s) && s.phase.Running? && s.lh == []
             && (|s.ops| + 1) * y.maxOp <= y.logSize && forall i :: 0 <= i < |s.ops| ==> s.ops[i] == 0
    ensures Budgeted(y, run, steps, y.maxOp) && run[0] == run0[0]
    ensures run[|run| - 1] == run0[|run0| - 1].(ops := run0[|run0| - 1].ops + [0])
  {
    hide HeaderOf, StandsFor, DiskOk, EntriesOk, WellFormed;
    var s := run0[|run0| - 1];
    assert Enabled(y, s, Begin);
    ExtendBudgeted(y, run0, steps0, Begin, y.maxOp);
    run, steps := run0 + [s.(ops := s.ops + [0])], steps0 + [Begin];
  }

  lemma ThreeBegins(y: Layout, run0: seq<State>, steps0: seq<Step>) returns (run: seq<State>, steps: seq<Step>)
    requires Budgeted(y, run0, steps0, y.maxOp) && 3 * y.maxOp <= y.logSize
    requires var s := run0[|run0| - 1]; WellFormed(y, s) && s.phase.Running? && s.lh == [] && s.ops == []
    ensures Budgeted(y, run, steps, y.maxOp) && run[0] == run0[0]
    ensures run[|run| - 1] == run0[|run0| - 1].(ops := [0, 0, 0])
  {
    hide HeaderOf, StandsFor, DiskOk, EntriesOk;
    run, steps := OneBegin(y, run0, steps0);
    run, steps := OneBegin(y, run, steps);
    run, steps := OneBegin(y, run, steps);
  }

  /** The bound on operations is tight: with the mkfs log size, three operations
      that each add exactly MAXOPBLOCKS blocks drive log_write into its panic. */
  lemma FullOperationsPanic(y: Layout, d: DiskMap, bs: seq<nat>) returns (run: seq<State>, steps: seq<Step>)
    requires y.nlog == y.logSize == 3 * y.maxOp == |bs| && y.maxOp >= 1
    requires DiskOk(y, d) && GetWord(d[y.start], 0) == 0 && HomeBlocks(y, d, bs)
    ensures Budgeted(y, run, steps, y.maxOp) && run[0].disk == d && run[|run| - 1].phase.Panicked?
  {
    hide HeaderOf, StandsFor, HeaderWith, DiskOk, Enabled, Next;
    run, steps := BootToRunning(y, d);
    var s := run[|run| - 1];
    run, steps := ThreeBegins(y, run, steps);
    assert s.(ops := [0, 0, 0]) == FullState(y, s, bs, 0);
    var j := |bs| - 1;
    run, steps := FullWrites(y, s, bs, run, steps, j);
    FullWrite(y, s, bs, j);
    var a := LogWrite(FullOp(y, j), bs[j], s.view[bs[j]]);
    ExtendBudgeted(y, run, steps, a, y.maxOp);
    run, steps := run + [FullState(y, s, bs, j).(phase := Panicked)], steps + [a];
  }
}
