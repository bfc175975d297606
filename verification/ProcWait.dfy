/** What wait, fork, exit and kill promise their callers, over every run of the
    machine of proc.c. */
module ProcWait {
  import opened Common
  import opened Proc

  // ------------------------------------------------------ what a step leaves alone

  /** The steps that set or clear somebody's parent. */
  predicate Regroups(s: State, st: Step)
    requires Enabled(s, st)
  {
    st.ForkParent? || ((st.WaitVisit? || st.ReparentNext?) && !Plain(s, st))
  }

  /** wait frees this slot in the step. */
  predicate Frees(s: State, st: Step, q: nat)
    requires Enabled(s, st)
  {
    st.WaitVisit? && !Plain(s, st) && q == s.procs[st.p].pc.i
  }

  /** A step of one process changes neither its parent nor its pid. */
  lemma OwnStays(s: State, st: Step)
    requires Enabled(s, st) && Plain(s, st)
    ensures var t := Next(s, st);
            |t.procs| == |s.procs| && t.procs[st.p].parent == s.procs[st.p].parent
            && t.procs[st.p].pid == s.procs[st.p].pid
  {
  }

  /** What the steps that change two processes leave alone. */
  lemma PairStays(s: State, st: Step)
    requires Enabled(s, st) && !Plain(s, st)
    ensures var t := Next(s, st);
            && |t.procs| == |s.procs|
            && (forall q :: 0 <= q < |s.procs| && q != st.p && !Frees(s, st, q) ==> t.procs[q].pc == s.procs[q].pc)
            && (forall q :: 0 <= q < |s.procs| && q != st.p && Frees(s, st, q) ==> t.procs[q].pc.Code?)
            && (!Regroups(s, st) ==> forall q :: 0 <= q < |s.procs| ==> t.procs[q].parent == s.procs[q].parent)
  {
  }

  lemma PairPids(s: State, st: Step)
    requires Enabled(s, st) && !Plain(s, st)
    ensures var t := Next(s, st);
            |t.procs| == |s.procs|
            && forall q :: 0 <= q < |s.procs| && !Frees(s, st, q) && !(st.ForkAlloc? && q == st.np) ==>
                 t.procs[q].pid == s.procs[q].pid
  {
  }

  lemma ParentsStay(s: State, st: Step)
    requires Enabled(s, st) && !Regroups(s, st)
    ensures var t := Next(s, st);
            |t.procs| == |s.procs| && forall q :: 0 <= q < |s.procs| ==> t.procs[q].parent == s.procs[q].parent
  {
    hide Next, Enabled, Regroups, Plain;
    if Plain(s, st) {
      PlainFrame(s, st);
      OwnStays(s, st);
    } else {
      PairStays(s, st);
    }
  }

  lemma PositionsStay(s: State, st: Step)
    requires Enabled(s, st)
    ensures var t := Next(s, st);
            && |t.procs| == |s.procs|
            && (forall q :: 0 <= q < |s.procs| && q != st.p && !Frees(s, st, q) ==> t.procs[q].pc == s.procs[q].pc)
            && (forall q :: 0 <= q < |s.procs| && q != st.p && Frees(s, st, q) ==> t.procs[q].pc.Code?)
  {
    hide Next, Enabled, Plain;
    if Plain(s, st) {
      PlainFrame(s, st);
    } else {
      PairStays(s, st);
    }
  }

  lemma PidsStay(s: State, st: Step)
    requires Enabled(s, st)
    ensures var t := Next(s, st);
            && |t.procs| == |s.procs|
            && (forall q :: 0 <= q < |s.procs| && !Frees(s, st, q) && !(st.ForkAlloc? && q == st.np) ==>
                  t.procs[q].pid == s.procs[q].pid)
  {
    hide Next, Enabled, Plain;
    if Plain(s, st) {
      PlainFrame(s, st);
      OwnStays(s, st);
    } else {
      PairPids(s, st);
    }
  }

  // ------------------------------------------------------------------------ wait

  /** One of the first n slots is a child of p. */
  ghost predicate HasChild(s: State, p: nat, n: nat) {
    exists c :: 0 <= c < n && c < |s.procs| && s.procs[c].parent == Some(p)
  }

  /** havekids tells whether a child was passed. */
  ghost predicate KidsOk(s: State) {
    forall p :: 0 <= p < |s.procs| && s.procs[p].pc.WaitScan? ==>
      (s.procs[p].pc.kids <==> HasChild(s, p, s.procs[p].pc.i))
  }

  lemma SameChildren(s: State, t: State, p: nat, n: nat)
    requires |t.procs| == |s.procs| && forall q :: 0 <= q < |s.procs| ==> t.procs[q].parent == s.procs[q].parent
    ensures HasChild(t, p, n) <==> HasChild(s, p, n)
  {
    if HasChild(s, p, n) {
      var c :| 0 <= c < n && c < |s.procs| && s.procs[c].parent == Some(p);
      assert t.procs[c].parent == Some(p);
    }
    if HasChild(t, p, n) {
      var c :| 0 <= c < n && c < |t.procs| && t.procs[c].parent == Some(p);
      assert s.procs[c].parent == Some(p);
    }
  }

  /** Whoever regroups holds wait_lock, so nobody else is scanning. */
  lemma NobodyElseScans(s: State, st: Step, q: nat)
    requires Inv(s) && Enabled(s, st) && Regroups(s, st) && q < |s.procs| && s.procs[q].pc.WaitScan?
    ensures q == st.p
  {
    hide LocksOk, ParentsOk, ForksOk, WaitersOk, PidsOk, ReapsOk, Next;
    assert Local(s.procs[q], q) && HoldsWait(s.procs[q]) && HoldsWait(s.procs[st.p]);
  }

  /** The position of the process that takes the step. */
  lemma OwnScan(s: State, st: Step)
    requires Enabled(s, st)
    ensures var t := Next(s, st);
            && |t.procs| == |s.procs|
            && (t.procs[st.p].pc.WaitScan? && t.procs[st.p].pc != s.procs[st.p].pc ==>
                  || t.procs[st.p].pc == WaitScan(0, false)
                  || (&& st.WaitVisit? && Plain(s, st) && s.procs[st.p].pc.WaitScan?
                      && var i := s.procs[st.p].pc.i;
                         && i < |s.procs|
                         && t.procs[st.p].pc
                            == WaitScan(i + 1, s.procs[st.p].pc.kids || s.procs[i].parent == Some(st.p))))
            && (t.procs[st.p].pc.WaitScan? ==> !Regroups(s, st))
  {
    hide Next, Enabled, Plain, Regroups;
    if Plain(s, st) {
      PlainScan(s, st);
    } else {
      PairScan(s, st);
    }
  }

  lemma PlainScan(s: State, st: Step)
    requires Enabled(s, st) && Plain(s, st)
    ensures var t := Next(s, st);
            && |t.procs| == |s.procs|
            && (t.procs[st.p].pc.WaitScan? && t.procs[st.p].pc != s.procs[st.p].pc ==>
                  || t.procs[st.p].pc == WaitScan(0, false)
                  || (&& st.WaitVisit? && s.procs[st.p].pc.WaitScan?
                      && var i := s.procs[st.p].pc.i;
                         && i < |s.procs|
                         && t.procs[st.p].pc
                            == WaitScan(i + 1, s.procs[st.p].pc.kids || s.procs[i].parent == Some(st.p))))
            && (t.procs[st.p].pc.WaitScan? ==> !Regroups(s, st))
  {
  }

  lemma PairScan(s: State, st: Step)
    requires Enabled(s, st) && !Plain(s, st)
    ensures |Next(s, st).procs| == |s.procs| && !Next(s, st).procs[st.p].pc.WaitScan?
  {
  }

  lemma KidsKept(s: State, st: Step)
    requires Inv(s) && Enabled(s, st) && KidsOk(s)
    ensures KidsOk(Next(s, st))
  {
    hide Inv, Enabled, Next, Regroups, Plain, HasChild;
    var t := Next(s, st);
    PositionsStay(s, st);
    OwnScan(s, st);
    forall p | 0 <= p < |t.procs| && t.procs[p].pc.WaitScan?
      ensures t.procs[p].pc.kids <==> HasChild(t, p, t.procs[p].pc.i)
    {
      if Regroups(s, st) {
        assert p != st.p && s.procs[p].pc == t.procs[p].pc;
        NobodyElseScans(s, st, p);
        assert false;
      }
      ParentsStay(s, st);
      SameChildren(s, t, p, t.procs[p].pc.i);
      NoneBelow(s, p);
      if p == st.p && s.procs[p].pc.WaitScan? && s.procs[p].pc.i < |s.procs| {
        OneMore(s, p, s.procs[p].pc.i);
      }
    }
  }

  lemma NoneBelow(s: State, p: nat)
    ensures !HasChild(s, p, 0)
  {
  }

  lemma OneMore(s: State, p: nat, i: nat)
    requires i < |s.procs|
    ensures HasChild(s, p, i + 1) <==> HasChild(s, p, i) || s.procs[i].parent == Some(p)
  {
  }

  lemma NobodyScans(s: State)
    requires Initial(s)
    ensures KidsOk(s)
  {
    hide HasChild;
  }

  lemma {:induction false} RunKeepsKids(states: seq<State>, steps: seq<Step>, n: nat)
    requires IsRun(states, steps) && n < |states|
    ensures KidsOk(states[n])
  {
    hide Next, Enabled, KidsOk, Inv, Initial;
    if n == 0 {
      NobodyScans(states[0]);
    } else {
      RunKeepsKids(states, steps, n - 1);
      RunKeepsInv(states, steps, n - 1);
      KidsKept(states[n - 1], steps[n - 1]);
    }
  }

  /** At the end of a scan wait gives up exactly when the process is killed or has no
      child; otherwise it goes to sleep. */
  lemma WaitGivesUp(states: seq<State>, steps: seq<Step>, n: nat)
    requires IsRun(states, steps) && n < |steps| && steps[n].WaitEnd?
    ensures var s, t, p := states[n], states[n + 1], steps[n].p;
            && p < |s.procs| == |t.procs|
            && t.procs[p].pc == (if s.procs[p].killed || !HasChild(s, p, |s.procs|) then WaitReturn(-1) else WaitSleep)
  {
    RunKeepsKids(states, steps, n);
    var s, p := states[n], steps[n].p;
    assert Enabled(s, steps[n]) && states[n + 1] == Next(s, steps[n]);
    assert HasChild(s, p, s.procs[p].pc.i) <==> HasChild(s, p, |s.procs|) by {
      hide IsRun, KidsOk;
    }
    hide HasChild, IsRun;
  }

  /** wait returns a pid exactly when it reaps that child, and otherwise -1, for want of
      children, because of a kill, or when the status of a zombie child cannot be
      copied out. */
  lemma WaitResult(states: seq<State>, steps: seq<Step>, n: nat, p: nat)
    requires IsRun(states, steps) && n < |steps| && p < |states[n].procs| == |states[n + 1].procs|
    requires !states[n].procs[p].pc.WaitReturn? && states[n + 1].procs[p].pc.WaitReturn?
    ensures var s, t, r := states[n], states[n + 1], states[n + 1].procs[p].pc.r;
            || (t.reaps != s.reaps && |t.reaps| == |s.reaps| + 1 && t.reaps[|s.reaps|].parent == p
                && t.reaps[|s.reaps|].pid == r)
            || (t.reaps == s.reaps && r == -1 && steps[n] == WaitEnd(p)
                && (s.procs[p].killed || !HasChild(s, p, |s.procs|)))
            || (t.reaps == s.reaps && r == -1 && steps[n] == WaitVisit(p, false)
                && exists c :: 0 <= c < |s.procs| && s.procs[c].parent == Some(p) && s.procs[c].state.ZOMBIE?)
  {
    var s, st := states[n], steps[n];
    assert Enabled(s, st) && states[n + 1] == Next(s, st);
    PositionsStay(s, st);
    if st.WaitEnd? {
      WaitGivesUp(states, steps, n);
    } else {
      OwnReturn(s, st, p);
    }
  }

  lemma OwnReturn(s: State, st: Step, p: nat)
    requires Enabled(s, st) && !st.WaitEnd? && st.p == p && |Next(s, st).procs| == |s.procs|
    requires !s.procs[p].pc.WaitReturn? && Next(s, st).procs[p].pc.WaitReturn?
    ensures var t, r := Next(s, st), Next(s, st).procs[p].pc.r;
            || (|t.reaps| == |s.reaps| + 1 && t.reaps[|s.reaps|].parent == p && t.reaps[|s.reaps|].pid == r)
            || (t.reaps == s.reaps && r == -1 && st == WaitVisit(p, false)
                && exists c :: 0 <= c < |s.procs| && s.procs[c].parent == Some(p) && s.procs[c].state.ZOMBIE?)
  {
  }

  // ------------------------------------------------------------------------ fork

  /** Some process is forking c. */
  ghost predicate Forked(s: State, c: nat) {
    exists p :: 0 <= p < |s.procs| && Forking(s.procs[p].pc) && s.procs[p].pc.np == c
  }

  ghost predicate UsedOk(s: State) {
    forall c :: 0 <= c < |s.procs| && s.procs[c].state.USED? ==> Forked(s, c)
  }

  /** A slot becomes or stays used only while its fork goes on. */
  lemma UsedBefore(s: State, st: Step, c: nat)
    requires Enabled(s, st) && c < |s.procs| == |Next(s, st).procs| && Next(s, st).procs[c].state.USED?
    ensures s.procs[c].state.USED? || (st.ForkAlloc? && st.np == c)
    ensures st.ForkRunnable? ==> s.procs[st.p].pc.np != c || st.p == c
  {
    hide Next, Enabled, Plain;
    if Plain(s, st) {
      PlainFrame(s, st);
      PlainUsed(s, st);
    } else {
      PairUsed(s, st, c);
    }
  }

  lemma PlainUsed(s: State, st: Step)
    requires Enabled(s, st) && Plain(s, st) && |Next(s, st).procs| == |s.procs|
    ensures Next(s, st).procs[st.p].state.USED? ==> s.procs[st.p].state.USED?
    ensures !st.ForkRunnable?
  {
  }

  lemma PairUsed(s: State, st: Step, c: nat)
    requires Enabled(s, st) && !Plain(s, st)
    requires c < |s.procs| == |Next(s, st).procs| && Next(s, st).procs[c].state.USED?
    ensures s.procs[c].state.USED? || (st.ForkAlloc? && st.np == c)
    ensures st.ForkRunnable? ==> s.procs[st.p].pc.np != c || st.p == c
  {
  }

  /** A forking process goes on forking the same child until it starts it. */
  lemma ForksOn(s: State, st: Step, p: nat)
    requires Enabled(s, st) && p < |s.procs| == |Next(s, st).procs| && Local(s.procs[p], p)
    requires Forking(s.procs[p].pc) && (st.p != p ==> !Frees(s, st, p))
    ensures var t := Next(s, st);
            (Forking(t.procs[p].pc) && t.procs[p].pc.np == s.procs[p].pc.np) || (st.ForkRunnable? && st.p == p)
  {
    hide Next, Enabled, Local;
    PositionsStay(s, st);
    if st.p == p {
      OwnFork(s, st);
    }
  }

  lemma OwnFork(s: State, st: Step)
    requires Enabled(s, st) && |Next(s, st).procs| == |s.procs| && Local(s.procs[st.p], st.p)
    requires Forking(s.procs[st.p].pc)
    ensures var t := Next(s, st);
            (Forking(t.procs[st.p].pc) && t.procs[st.p].pc.np == s.procs[st.p].pc.np) || st.ForkRunnable?
  {
  }

  lemma UsedKept(s: State, st: Step)
    requires Inv(s) && Enabled(s, st) && UsedOk(s)
    ensures UsedOk(Next(s, st))
  {
    hide Next, Enabled, Inv, Forked;
    Locals(s);
    PositionsStay(s, st);
    forall c | 0 <= c < |Next(s, st).procs| && Next(s, st).procs[c].state.USED?
      ensures Forked(Next(s, st), c)
    {
      UsedBefore(s, st, c);
      if st.ForkAlloc? && st.np == c {
        NewFork(s, st);
      } else {
        StillForked(s, st, c);
      }
    }
  }

  lemma StillForked(s: State, st: Step, c: nat)
    requires Inv(s) && Enabled(s, st) && Forked(s, c) && |Next(s, st).procs| == |s.procs|
    requires st.ForkRunnable? ==> s.procs[st.p].pc.np != c || st.p == c
    ensures Forked(Next(s, st), c)
  {
    hide Next, Enabled, Inv, Local;
    var p :| 0 <= p < |s.procs| && Forking(s.procs[p].pc) && s.procs[p].pc.np == c;
    Locals(s);
    ForkFacts(s, p);
    NotReaped(s, st, p);
    ForksOn(s, st, p);
  }

  lemma NewFork(s: State, st: Step)
    requires Enabled(s, st) && st.ForkAlloc? && |Next(s, st).procs| == |s.procs| && LocalsOk(s)
    ensures Forked(Next(s, st), st.np)
  {
    assert Local(s.procs[st.p], st.p);
    var t := Next(s, st);
    assert t.procs[st.p].pc == ForkCopy(st.np);
  }

  /** What wait frees is a zombie, which forks nothing. */
  lemma NotReaped(s: State, st: Step, p: nat)
    requires LocalsOk(s) && Enabled(s, st) && p < |s.procs| && Forking(s.procs[p].pc)
    ensures !Frees(s, st, p)
  {
    assert Local(s.procs[p], p);
  }

  lemma NoneUsed(s: State)
    requires Initial(s)
    ensures UsedOk(s)
  {
  }

  lemma {:induction false} RunKeepsUsed(states: seq<State>, steps: seq<Step>, n: nat)
    requires IsRun(states, steps) && n < |states|
    ensures UsedOk(states[n])
  {
    hide Next, Enabled, UsedOk, Inv, Initial;
    if n == 0 {
      NoneUsed(states[0]);
    } else {
      RunKeepsUsed(states, steps, n - 1);
      RunKeepsInv(states, steps, n - 1);
      UsedKept(states[n - 1], steps[n - 1]);
    }
  }

  /** A slot that is taken but not yet running is being set up by a fork. */
  lemma TakenIsForked(states: seq<State>, steps: seq<Step>, n: nat, c: nat)
    requires IsRun(states, steps) && n < |states| && c < |states[n].procs| && states[n].procs[c].state.USED?
    ensures Forked(states[n], c)
  {
    RunKeepsUsed(states, steps, n);
    hide IsRun, Forked;
  }

  /** fork ends by making the child it set up runnable, as a child of the forking
      process. */
  lemma ForkStartsChild(states: seq<State>, steps: seq<Step>, n: nat)
    requires IsRun(states, steps) && n < |steps| && steps[n].ForkRunnable?
    ensures var s, t, p := states[n], states[n + 1], steps[n].p;
            && p < |s.procs| == |t.procs| && s.procs[p].pc.ForkRun?
            && var c := s.procs[p].pc.np;
               c < |s.procs| && s.procs[c].state.USED? && t.procs[c].state.RUNNABLE? && t.procs[c].parent == Some(p)
  {
    RunKeepsInv(states, steps, n);
    var s, st := states[n], steps[n];
    assert Enabled(s, st) && states[n + 1] == Next(s, st);
    hide Inv, IsRun;
    ForkFacts(s, st.p);
  }

  // ------------------------------------------------------------------------ exit

  /** The status that exit carries from its call to the zombie. */
  function Carried(pc: Pc): Option<int> {
    match pc
    case Reparent(_, status) => Some(status)
    case Wake(_, _, _, status) => Some(status)
    case ExitLock(status) => Some(status)
    case ExitSet(status) => Some(status)
    case _ => None
  }

  /** Before moment n the process in slot p, then with this pid, called exit(status). */
  ghost predicate CalledExit(states: seq<State>, steps: seq<Step>, n: nat, p: nat, pid: nat, status: int) {
    exists k :: 0 <= k < n && k < |steps| && k < |states| && steps[k] == ExitCall(p, status)
                && p < |states[k].procs| && states[k].procs[p].pid == pid
  }

  ghost predicate StatusOk(states: seq<State>, steps: seq<Step>, n: nat)
    requires n < |states|
  {
    && (forall p :: 0 <= p < |states[n].procs| && Carried(states[n].procs[p].pc).Some? ==>
          CalledExit(states, steps, n, p, states[n].procs[p].pid, Carried(states[n].procs[p].pc).value))
    && (forall d :: d in states[n].exits ==>
          CalledExit(states, steps, n, states[n].exits[d].slot, d, states[n].exits[d].status))
  }

  /** A step starts, carries on or records a status. */
  lemma StatusStep(s: State, st: Step, p: nat)
    requires Enabled(s, st) && p < |s.procs| == |Next(s, st).procs| && Carried(Next(s, st).procs[p].pc).Some?
    requires LocalsOk(s)
    ensures var t := Next(s, st);
            && t.procs[p].pid == s.procs[p].pid
            && (Carried(t.procs[p].pc) == Carried(s.procs[p].pc) || st == ExitCall(p, Carried(t.procs[p].pc).value))
  {
    PositionsStay(s, st);
    assert Local(s.procs[p], p);
    hide Carried;
    PidsStay(s, st);
    OwnStatus(s, st);
    NotTaken(s, st);
  }

  lemma OwnStatus(s: State, st: Step)
    requires Enabled(s, st) && |Next(s, st).procs| == |s.procs|
    ensures var c := Carried(Next(s, st).procs[st.p].pc);
            c.Some? ==> c == Carried(s.procs[st.p].pc) || st == ExitCall(st.p, c.value)
    ensures forall q :: 0 <= q < |s.procs| && Frees(s, st, q) ==> Carried(Next(s, st).procs[q].pc).None?
  {
  }

  lemma NotTaken(s: State, st: Step)
    requires Enabled(s, st) && LocalsOk(s) && |Next(s, st).procs| == |s.procs|
    ensures st.ForkAlloc? && st.np < |s.procs| ==> Carried(Next(s, st).procs[st.np].pc).None?
  {
    if st.ForkAlloc? {
      assert Local(s.procs[st.np], st.np) && Local(s.procs[st.p], st.p);
    }
  }

  lemma ExitsStep(s: State, st: Step, d: nat)
    requires Enabled(s, st) && d in Next(s, st).exits
    ensures st.p < |s.procs|
    ensures var t := Next(s, st);
            || (d in s.exits && t.exits[d] == s.exits[d])
            || (st.ExitZombie? && s.procs[st.p].pid == d && t.exits[d].slot == st.p
                && Carried(s.procs[st.p].pc) == Some(t.exits[d].status))
  {
  }

  lemma Later(states: seq<State>, steps: seq<Step>, n: nat, p: nat, pid: nat, status: int)
    requires CalledExit(states, steps, n, p, pid, status)
    ensures CalledExit(states, steps, n + 1, p, pid, status)
  {
  }

  lemma {:induction false} RunKeepsStatus(states: seq<State>, steps: seq<Step>, n: nat)
    requires IsRun(states, steps) && n < |states|
    ensures StatusOk(states, steps, n)
  {
    hide Next, Enabled, Carried, CalledExit, Inv;
    if n == 0 {
      NothingCarried(states[0]);
    } else {
      var s, st, t := states[n - 1], steps[n - 1], states[n];
      RunKeepsStatus(states, steps, n - 1);
      RunKeepsInv(states, steps, n - 1);
      Locals(s);
      PositionsStay(s, st);
      forall p | 0 <= p < |t.procs| && Carried(t.procs[p].pc).Some?
        ensures CalledExit(states, steps, n, p, t.procs[p].pid, Carried(t.procs[p].pc).value)
      {
        StatusStep(s, st, p);
        if st == ExitCall(p, Carried(t.procs[p].pc).value) {
          JustCalled(states, steps, n - 1, p);
        } else {
          Later(states, steps, n - 1, p, s.procs[p].pid, Carried(s.procs[p].pc).value);
        }
      }
      forall d | d in t.exits
        ensures CalledExit(states, steps, n, t.exits[d].slot, d, t.exits[d].status)
      {
        ExitsStep(s, st, d);
        if d in s.exits && t.exits[d] == s.exits[d] {
          Later(states, steps, n - 1, s.exits[d].slot, d, s.exits[d].status);
        } else {
          Later(states, steps, n - 1, st.p, d, t.exits[d].status);
        }
      }
    }
  }

  lemma NothingCarried(s: State)
    requires Initial(s)
    ensures s.exits == map[] && forall p :: 0 <= p < |s.procs| ==> Carried(s.procs[p].pc).None?
  {
  }

  lemma Locals(s: State)
    requires Inv(s)
    ensures LocalsOk(s)
  {
  }

  lemma JustCalled(states: seq<State>, steps: seq<Step>, k: nat, p: nat)
    requires k < |steps| && k < |states| && p < |states[k].procs| && steps[k].ExitCall? && steps[k].p == p
    ensures CalledExit(states, steps, k + 1, p, states[k].procs[p].pid, steps[k].status)
  {
  }

  /** The status that wait hands out is the one the child gave to exit. */
  lemma ReapedStatusIsExits(states: seq<State>, steps: seq<Step>, n: nat, k: nat)
    requires IsRun(states, steps) && n < |states| && k < |states[n].reaps|
    ensures exists p :: CalledExit(states, steps, n, p, states[n].reaps[k].pid, states[n].reaps[k].status)
  {
    RunKeepsStatus(states, steps, n);
    ReapedOnce(states, steps, n);
    hide IsRun, CalledExit;
    var d := states[n].reaps[k].pid;
    assert d in states[n].exits;
  }

  // ------------------------------------------------------------------------ kill

  /** kill marks the process and leaves it awake, and touches no other. */
  lemma KilledIsAwake(states: seq<State>, steps: seq<Step>, n: nat)
    requires IsRun(states, steps) && n < |steps| && steps[n].Kill?
    ensures var s, t, p := states[n], states[n + 1], steps[n].p;
            && p < |s.procs| == |t.procs| && t.procs[p].killed && !t.procs[p].state.SLEEPING?
            && t.procs[p].pc == s.procs[p].pc && t.procs[p].parent == s.procs[p].parent
            && (forall q :: 0 <= q < |s.procs| && q != p ==> t.procs[q] == s.procs[q])
  {
    assert Enabled(states[n], steps[n]);
  }

  // ---------------------------------------------------------------------- wakeup

  /** wakeup(chan) at one process: it no longer sleeps on chan, and if it sleeps on
      something else it goes on sleeping. */
  lemma WakeupWakes(states: seq<State>, steps: seq<Step>, n: nat)
    requires IsRun(states, steps) && n < |steps| && steps[n].WakeElsewhere?
    ensures var s, t, p, c := states[n], states[n + 1], steps[n].p, Other(steps[n].c);
            && p < |s.procs| == |t.procs|
            && !(t.procs[p].state.SLEEPING? && t.procs[p].chan == Some(c))
            && (s.procs[p].state.SLEEPING? ==>
                  t.procs[p].state == if s.procs[p].chan == Some(c) then RUNNABLE else SLEEPING)
            && (!s.procs[p].state.SLEEPING? ==> t.procs[p] == s.procs[p])
            && (forall q :: 0 <= q < |s.procs| && q != p ==> t.procs[q] == s.procs[q])
  {
    assert Enabled(states[n], steps[n]);
  }
}
