/** The file system across crashes: the log protocol of log.c carrying the
    operations of fs.c. */
module FsCrash {
  import opened Blocks
  import opened FsState
  import opened FsImage
  import F = Fs
  import P = LogProtocol

  /** goal: the image once every operation begun so far has logged all its blocks
      left: the blocks that the cache may not show as in goal yet */
  datatype Label = Label(goal: DiskMap, left: set<nat>)

  /** What the operations are up to may change with a log_write: one of them decides
      on a further transaction (or none does), and the block written is one step
      towards the goal, or not yet. */
  ghost predicate WriteLabel(sb: Super, l: Label, b: nat, data: Block, l': Label) {
    && b in l'.goal
    && exists txn ::
         && (if txn == {} then l'.goal == l.goal else Transaction(sb, l.goal, l'.goal, txn))
         && l'.left == if data == l'.goal[b] then l.left + txn - {b} else l.left + txn + {b}
  }

  /** An operation ends after it has logged all it changed; a crash forgets what was
      not committed. */
  ghost predicate LabelStep(y: P.Layout, sb: Super, s: P.State, a: P.Step, l: Label, l': Label) {
    match a
    case LogWrite(_, b, data) => WriteLabel(sb, l, b, data, l')
    case End(_) => l' == l && (|s.ops| == 1 ==> l.left == {})
    case Crash => l' == Label(s.committed, {})
    case _ => l' == l
  }

  /** A run of the protocol whose log_writes are those of file-system operations, in
      any interleaving. */
  ghost predicate Serves(y: P.Layout, sb: Super, run: seq<P.State>, steps: seq<P.Step>, lab: seq<Label>) {
    && P.IsRun(y, run, steps) && |lab| == |run|
    && ImageOk(sb, run[0].committed) && lab[0] == Label(run[0].committed, {})
    && forall i :: 0 <= i < |steps| ==> LabelStep(y, sb, run[i], steps[i], lab[i], lab[i + 1])
  }

  // ------------------------------------------------------------ the invariant

  /** The cache shows the goal but for the blocks left. */
  ghost predicate Shows(y: P.Layout, view: DiskMap, l: Label) {
    && l.goal.Keys == P.Home(y, view).Keys
    && forall b :: b in l.goal && b !in l.left ==> l.goal[b] == view[b]
  }

  ghost predicate Tracks(y: P.Layout, sb: Super, s: P.State, l: Label) {
    && ImageOk(sb, l.goal) && ImageOk(sb, s.committed)
    && match s.phase
       case Panicked => true
       case Installing(_, true) => l == Label(s.committed, {})
       case _ => Shows(y, s.view, l) && (s.ops == [] ==> l.left == {})
  }

  lemma ShowsAll(y: P.Layout, view: DiskMap, l: Label)
    requires Shows(y, view, l) && l.left == {}
    ensures P.Home(y, view) == l.goal
  {
  }

  lemma HomeShows(y: P.Layout, view: DiskMap, l: Label)
    requires P.Home(y, view) == l.goal
    ensures Shows(y, view, l)
  {
  }

  lemma ShowsHome(y: P.Layout, v0: DiskMap, v1: DiskMap, l: Label)
    requires Shows(y, v0, l) && P.Home(y, v1) == P.Home(y, v0)
    ensures Shows(y, v1, l)
  {
    forall b | b in l.goal && b !in l.left
      ensures l.goal[b] == v1[b]
    {
      assert P.Home(y, v1)[b] == P.Home(y, v0)[b];
    }
  }

  lemma WriteShows(y: P.Layout, sb: Super, view: DiskMap, l: Label, b: nat, data: Block, l': Label)
    requires Shows(y, view, l) && WriteLabel(sb, l, b, data, l') && b in view && ImageOk(sb, l.goal)
    ensures Shows(y, view[b := data], l') && ImageOk(sb, l'.goal)
  {
    hide ImageOk;
    var txn :| && (if txn == {} then l'.goal == l.goal else Transaction(sb, l.goal, l'.goal, txn))
               && l'.left == if data == l'.goal[b] then l.left + txn - {b} else l.left + txn + {b};
    assert P.Home(y, view[b := data]).Keys == P.Home(y, view).Keys;
    assert l'.goal.Keys == l.goal.Keys;
  }

  /** The steps that write the log, the header and the home blocks leave what the
      cache shows of the file system as it is. */
  lemma CommitShows(y: P.Layout, s: P.State, a: P.Step)
    requires P.Inv(y, s) && P.Enabled(y, s, a) && P.Committing(s)
    requires a.WriteLog? || a.WriteHead? || a.Install? || a.Erase?
    ensures P.Home(y, P.Next(y, s, a).view) == P.Home(y, s.view)
    ensures P.Next(y, s, a).ops == s.ops == []
    ensures P.Next(y, s, a).committed == if a.WriteHead? then P.Home(y, s.view) else s.committed
  {
    hide P.HeaderOf, P.HeaderWith, P.StandsFor, P.DiskOk, P.EntriesOk;
    P.LogBlocks(y, s.disk, s.lh);
  }

  lemma RecoveryTracks(y: P.Layout, s: P.State, a: P.Step)
    requires P.Inv(y, s) && P.Enabled(y, s, a) && s.phase.Installing? && s.phase.recovering && (a.Install? || a.Erase?)
    ensures P.Next(y, s, a).committed == s.committed && P.Next(y, s, a).ops == []
    ensures a.Install? ==> P.Next(y, s, a).phase.Installing? && P.Next(y, s, a).phase.recovering
    ensures a.Erase? ==> P.Next(y, s, a).phase.Running? && P.Home(y, P.Next(y, s, a).view) == s.committed
  {
    hide P.HeaderOf, P.HeaderWith, P.StandsFor, P.DiskOk, P.EntriesOk;
    if a.Erase? {
      P.EraseKeepsInv(y, s);
      var t := P.Next(y, s, a);
      P.LogBlocks(y, s.disk, s.lh);
      assert P.Home(y, t.view) == P.Home(y, t.disk) == P.Home(y, s.disk);
    }
  }

  lemma StepTracks(y: P.Layout, sb: Super, s: P.State, a: P.Step, l: Label, l': Label)
    requires P.Inv(y, s) && P.Enabled(y, s, a) && Tracks(y, sb, s, l) && LabelStep(y, sb, s, a, l, l')
    ensures Tracks(y, sb, P.Next(y, s, a), l')
  {
    hide P.HeaderOf, P.HeaderWith, P.StandsFor, P.DiskOk, P.EntriesOk, ImageOk, Shows, WriteLabel, P.Home;
    var t := P.Next(y, s, a);
    if s.phase.Panicked? {
    } else if a.LogWrite? {
      WriteShows(y, sb, s.view, l, a.b, a.data, l');
    } else if s.phase.Installing? && s.phase.recovering {
      if a.Install? || a.Erase? {
        RecoveryTracks(y, s, a);
      }
      if a.Erase? {
        HomeShows(y, t.view, l);
      }
    } else if P.Committing(s) && !a.Crash? {
      CommitShows(y, s, a);
      ShowsHome(y, s.view, t.view, l);
      ShowsAll(y, s.view, l);
    }
  }

  lemma {:induction false} RunTracks(y: P.Layout, sb: Super, run: seq<P.State>, steps: seq<P.Step>, lab: seq<Label>,
                                     i: nat)
    requires Serves(y, sb, run, steps, lab) && i < |run|
    ensures Tracks(y, sb, run[i], lab[i])
  {
    hide ImageOk, Shows, P.Inv, P.Enabled, P.Next, LabelStep;
    if i > 0 {
      RunTracks(y, sb, run, steps, lab, i - 1);
      P.RunKeepsInv(y, run, steps, i - 1);
      StepTracks(y, sb, run[i - 1], steps[i - 1], lab[i - 1], lab[i]);
    }
  }

  // ------------------------------------------------------------ what survives

  /** k is the last commit before moment i: zero, or the moment of the last header
      write. */
  ghost predicate LastCommit(steps: seq<P.Step>, k: nat, i: nat) {
    && k <= i <= |steps|
    && (k > 0 ==> k < i && steps[k].WriteHead?)
    && forall j :: k < j < i ==> !steps[j].WriteHead?
  }

  /** Recovery makes of disk d the image m. */
  ghost predicate RecoversTo(y: P.Layout, d: DiskMap, m: DiskMap) {
    && P.DiskOk(y, d) && P.EntriesOk(y, d, P.HeaderOf(d[y.start]))
    && P.Home(y, P.Recovered(y, d)) == m
  }

  lemma {:induction false} CommittedGoal(y: P.Layout, sb: Super, run: seq<P.State>, steps: seq<P.Step>,
                                         lab: seq<Label>, i: nat)
    returns (k: nat)
    requires Serves(y, sb, run, steps, lab) && i < |run|
    ensures LastCommit(steps, k, i) && run[i].committed == lab[k].goal && run[k].ops == [] && lab[k].left == {}
  {
    hide ImageOk, Shows, P.Enabled, P.Next, LabelStep, P.Home, P.Recovered, P.HeaderOf;
    if i == 0 {
      k := 0;
    } else {
      k := CommittedGoal(y, sb, run, steps, lab, i - 1);
      P.CrashAtomicity(y, run, steps, i - 1);
      if steps[i - 1].WriteHead? {
        k := i - 1;
        RunTracks(y, sb, run, steps, lab, k);
        AtHeader(y, run, steps, k);
        ShowsAll(y, run[k].view, lab[k]);
      }
    }
  }

  lemma AtHeader(y: P.Layout, run: seq<P.State>, steps: seq<P.Step>, k: nat)
    requires P.IsRun(y, run, steps) && k < |steps| && steps[k].WriteHead?
    ensures run[k].phase.Logging?
  {
    assert P.Enabled(y, run[k], steps[k]);
  }

  /** Wherever a run is stopped, recovery makes of the disk a consistent file system:
      the one the operations had reached, all of them finished, at the last commit. */
  lemma RecoveredFileSystem(y: P.Layout, sb: Super, run: seq<P.State>, steps: seq<P.Step>, lab: seq<Label>, i: nat)
    returns (k: nat)
    requires Serves(y, sb, run, steps, lab) && i < |run|
    ensures LastCommit(steps, k, i) && run[k].ops == [] && lab[k].left == {}
    ensures RecoversTo(y, run[i].disk, lab[k].goal) && ImageOk(sb, lab[k].goal)
  {
    hide ImageOk, Shows, P.Recovered, P.HeaderOf, P.Enabled, P.Next, LabelStep, P.Home;
    P.CrashAtomicity(y, run, steps, i);
    RunTracks(y, sb, run, steps, lab, i);
    k := CommittedGoal(y, sb, run, steps, lab, i);
  }

  /** Once no operation is in progress and no commit is under way, recovery would
      give exactly what the operations have reached. */
  lemma FinishedOperationsSurvive(y: P.Layout, sb: Super, run: seq<P.State>, steps: seq<P.Step>, lab: seq<Label>,
                                  i: nat)
    requires Serves(y, sb, run, steps, lab) && i < |run| && run[i].phase.Running? && run[i].ops == []
    ensures RecoversTo(y, run[i].disk, lab[i].goal) && P.Home(y, run[i].disk) == lab[i].goal
  {
    hide ImageOk, Shows, P.Recovered, P.HeaderOf, P.Enabled, P.Next, LabelStep, P.Home;
    P.CrashAtomicity(y, run, steps, i);
    P.QuiescentIsDurable(y, run, steps, i);
    RunTracks(y, sb, run, steps, lab, i);
    ShowsAll(y, run[i].view, lab[i]);
  }

  /** Once writei's operation has finished, a reader of the recovered disk finds the
      bytes written. */
  lemma WrittenBytesSurvive(y: P.Layout, sb: Super, run: seq<P.State>, steps: seq<P.Step>, lab: seq<Label>, i: nat,
                            d0: DiskMap, i0: Inodes, bits: seq<bv8>, inodes: Inodes, inum: nat, off: nat,
                            src: seq<Byte>)
    requires Serves(y, sb, run, steps, lab) && i < |run| && run[i].phase.Running? && run[i].ops == []
    requires OnDisk(sb, lab[i].goal, bits, inodes) && F.Wrote(d0, i0, lab[i].goal, inodes, inum, off, src)
    ensures RecoversTo(y, run[i].disk, lab[i].goal)
    ensures F.Wrote(d0, i0, lab[i].goal, InodesOf(sb, lab[i].goal), inum, off, src)
  {
    hide Serves, OnDisk, InodesOf, RecoversTo, F.Wrote;
    ServedLength(y, sb, run, steps, lab);
    FinishedOperationsSurvive(y, sb, run, steps, lab, i);
    Decoded(sb, lab[i].goal, bits, inodes);
  }

  // ------------------------------------------- operations as parts of a run

  /** The end of a run. */
  function Last<T>(s: seq<T>): T
    requires s != []
  {
    s[|s| - 1]
  }

  lemma WriteOne(y: P.Layout, sb: Super, run: seq<P.State>, steps: seq<P.Step>, lab: seq<Label>,
                 op: nat, b: nat, data: Block, l: Label)
    returns (t: P.State)
    requires Serves(y, sb, run, steps, lab) && op < |Last(run).ops| && Last(run).phase.Running?
    requires !P.LogFull(y, Last(run))
    requires b in Last(lab).goal && WriteLabel(sb, Last(lab), b, data, l)
    ensures Serves(y, sb, run + [t], steps + [P.LogWrite(op, b, data)], lab + [l])
    ensures t.phase.Running? && |t.ops| == |Last(run).ops| && |t.lh| <= |Last(run).lh| + 1
  {
    hide P.HeaderOf, P.HeaderWith, P.StandsFor, P.DiskOk, P.EntriesOk, ImageOk, WriteLabel;
    var s, a := Last(run), P.LogWrite(op, b, data);
    P.RunKeepsInv(y, run, steps, |run| - 1);
    RunTracks(y, sb, run, steps, lab, |run| - 1);
    assert b in P.Home(y, s.view);
    assert P.Enabled(y, s, a);
    t := P.Next(y, s, a);
    P.Extend(y, run, steps, a);
    hide P.IsRun, P.Next, P.Enabled, Shows;
    assert LabelStep(y, sb, s, a, Last(lab), l);
  }

  /** The blocks of txn that are not among bs. */
  function Rest(txn: set<nat>, bs: seq<nat>): set<nat> {
    set b | b in txn && b !in bs
  }

  /** An operation whose transaction is txn logs the blocks bs, one after another:
      once these are all of txn, the goal is its image and nothing is left. */
  lemma {:induction false} LogBlocks(y: P.Layout, sb: Super, run: seq<P.State>, steps: seq<P.Step>, lab: seq<Label>,
                                     op: nat, after: DiskMap, txn: set<nat>, bs: seq<nat>)
    returns (run': seq<P.State>, steps': seq<P.Step>, lab': seq<Label>)
    requires Serves(y, sb, run, steps, lab) && op < |Last(run).ops| && Last(run).phase.Running?
    requires |Last(run).lh| + |bs| <= y.logSize && |Last(run).lh| + |bs| <= y.nlog - 1
    requires Last(lab).left == {} && Transaction(sb, Last(lab).goal, after, txn)
    requires bs != [] && forall b :: b in bs ==> b in txn
    ensures Serves(y, sb, run', steps', lab') && run <= run' && steps <= steps' && lab <= lab'
    ensures Last(run').phase.Running? && |Last(run').ops| == |Last(run).ops| && |Last(run').lh| <= |Last(run).lh| + |bs|
    ensures Last(lab') == Label(after, Rest(txn, bs))
  {
    hide Serves, ImageOk;
    var n := |bs| - 1;
    var b := bs[n];
    run', steps', lab' := run, steps, lab;
    assert bs == bs[..n] + [b];
    if n > 0 {
      run', steps', lab' := LogBlocks(y, sb, run, steps, lab, op, after, txn, bs[..n]);
    }
    ServedLength(y, sb, run, steps, lab);
    ServedLength(y, sb, run', steps', lab');
    var l := Label(after, Rest(txn, bs));
    NextLabel(sb, Last(lab).goal, Last(lab'), b, after, txn, bs);
    var t := WriteOne(y, sb, run', steps', lab', op, b, after[b], l);
    run', steps', lab' := run' + [t], steps' + [P.LogWrite(op, b, after[b])], lab' + [l];
  }

  lemma NextLabel(sb: Super, before: DiskMap, l: Label, b: nat, after: DiskMap, txn: set<nat>, bs: seq<nat>)
    requires bs != [] && b == bs[|bs| - 1] && b in txn && b in after && Transaction(sb, before, after, txn)
    requires l == if |bs| == 1 then Label(before, {}) else Label(after, Rest(txn, bs[..|bs| - 1]))
    ensures b in l.goal && WriteLabel(sb, l, b, after[b], Label(after, Rest(txn, bs)))
  {
    hide ImageOk;
    var n := |bs| - 1;
    assert bs == bs[..n] + [b];
    if n == 0 {
      assert Rest(txn, bs) == {} + txn - {b};
    } else {
      assert Rest(txn, bs) == Rest(txn, bs[..n]) + {} - {b};
    }
  }

  /** So a transaction all of whose blocks are logged leads to its image. */
  lemma LogTransaction(y: P.Layout, sb: Super, run: seq<P.State>, steps: seq<P.Step>, lab: seq<Label>,
                       op: nat, after: DiskMap, txn: set<nat>, bs: seq<nat>)
    returns (run': seq<P.State>, steps': seq<P.Step>, lab': seq<Label>)
    requires Serves(y, sb, run, steps, lab) && op < |Last(run).ops| && Last(run).phase.Running?
    requires |Last(run).lh| + |bs| <= y.logSize && |Last(run).lh| + |bs| <= y.nlog - 1
    requires Last(lab).left == {} && Transaction(sb, Last(lab).goal, after, txn)
    requires bs != [] && (forall b :: b in bs <==> b in txn)
    ensures Serves(y, sb, run', steps', lab') && run <= run' && steps <= steps' && lab <= lab'
    ensures Last(run').phase.Running? && |Last(run').ops| == |Last(run).ops|
    ensures Last(lab') == Label(after, {}) && P.Home(y, Last(run').view) == after
  {
    hide Serves, Transaction, ImageOk, Shows, P.Home;
    run', steps', lab' := LogBlocks(y, sb, run, steps, lab, op, after, txn, bs);
    assert Rest(txn, bs) == {};
    ServedLength(y, sb, run', steps', lab');
    RunTracks(y, sb, run', steps', lab', |run'| - 1);
    ShowsAll(y, Last(run').view, Last(lab'));
  }

  lemma ServedLength(y: P.Layout, sb: Super, run: seq<P.State>, steps: seq<P.Step>, lab: seq<Label>)
    requires Serves(y, sb, run, steps, lab)
    ensures |run| == |lab| == |steps| + 1
  {
  }
}
