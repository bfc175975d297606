/** proc.c: fork, exit, wait, reparent, sleep, wakeup, kill and the hand-over to the
    scheduler, as a machine whose steps are the stretches of code between two lock
    operations.  Any number of processes may be between steps at once. */
module Proc {
  import opened Common

  datatype RunState = UNUSED | USED | SLEEPING | RUNNABLE | RUNNING | ZOMBIE

  /** What a process sleeps on: a process slot (wait) or some other address. */
  datatype Chan = Slot(p: nat) | Other(c: nat)

  /** What exit does after a wakeup. */
  datatype After = Reparenting(i: nat) | Locking

  /** Where a kernel thread is. */
  datatype Pc =
    | Code                                          // outside the functions below
    | WaitScan(i: nat, kids: bool)                  // wait: next slot to look at
    | WaitReturn(r: int)                            // wait: about to release wait_lock and return r
    | WaitSleep                                     // sleep(p, &wait_lock): about to take p->lock
    | SleepLocked                                   // sleep: both locks held
    | SleepSet(c: Chan)                             // sleep: p->lock held, about to sleep
    | Asleep(c: Chan)                               // sleep: from the state change to the tidying up
    | Reacquire                                     // sleep: about to take wait_lock again
    | Reparent(i: nat, status: int)                 // exit: reparent's loop
    | Wake(t: nat, w: nat, k: After, status: int)   // exit: inside wakeup(t)
    | ExitLock(status: int)                         // exit: about to take p->lock
    | ExitSet(status: int)                          // exit: about to become a zombie
    | ExitRelease                                   // exit: about to release wait_lock
    | Dead                                          // exit: in sched for good
    | ForkCopy(np: nat)                             // fork: np->lock held
    | ForkAcquire(np: nat)                          // fork: about to take wait_lock
    | ForkSet(np: nat)                              // fork: about to set np->parent
    | ForkRun(np: nat)                              // fork: about to make np runnable

  /** On a CPU, handing over to the scheduler, off, or just dispatched. */
  datatype Cpu = On | Leaving | Off | Resuming

  datatype Proc = Proc(state: RunState, chan: Option<Chan>, killed: bool, xstate: int, pid: nat, parent: Option<nat>,
                       lock: Option<nat>, pc: Pc, cpu: Cpu)

  datatype Exit = Exit(slot: nat, status: int)

  datatype Reap = Reap(parent: nat, pid: nat, status: int)

  /** The process table, wait_lock, the next pid, and a record of exits and reaps. */
  datatype State = State(procs: seq<Proc>, init: nat, waitLock: Option<nat>, nextPid: nat, exits: map<nat, Exit>,
                         reaps: seq<Reap>)

  datatype Step =
    | WaitCall(p: nat)
    | WaitVisit(p: nat, copied: bool)
    | WaitEnd(p: nat)
    | WaitDone(p: nat)
    | SleepAcquire(p: nat)
    | SleepRelease(p: nat)
    | SleepElsewhere(p: nat, c: nat)
    | SleepState(p: nat)
    | WaitAgain(p: nat)
    | Switched(p: nat)
    | Dispatch(p: nat)
    | Resume(p: nat)
    | Yield(p: nat)
    | ExitCall(p: nat, status: int)
    | ReparentNext(p: nat)
    | WakeNext(p: nat)
    | ExitAcquire(p: nat)
    | ExitZombie(p: nat)
    | ExitUnlock(p: nat)
    | ForkAlloc(p: nat, np: nat)
    | ForkUnlock(p: nat)
    | ForkWaitLock(p: nat)
    | ForkParent(p: nat)
    | ForkRunnable(p: nat)
    | Kill(p: nat)
    | WakeElsewhere(p: nat, c: nat)

  // ------------------------------------------------------------------- machine

  /** Positions where the thread holds no spinlock, so the timer may make it yield. */
  predicate Quiet(pc: Pc) { pc.Code? || pc.Reacquire? || pc.ForkAcquire? || pc.ForkRun? }

  predicate Enabled(s: State, st: Step) {
    && st.p < |s.procs|
    && var x := s.procs[st.p];
       match st
       case WaitCall(p) => x.cpu.On? && x.pc.Code? && s.waitLock.None?
       case WaitVisit(p, copied) =>
         && x.cpu.On? && x.pc.WaitScan? && x.pc.i < |s.procs|
         && (s.procs[x.pc.i].parent == Some(p) ==> s.procs[x.pc.i].lock.None?)
       case WaitEnd(p) => x.cpu.On? && x.pc.WaitScan? && x.pc.i >= |s.procs|
       case WaitDone(p) => x.cpu.On? && x.pc.WaitReturn?
       case SleepAcquire(p) => x.cpu.On? && x.pc.WaitSleep? && x.lock.None?
       case SleepRelease(p) => x.cpu.On? && x.pc.SleepLocked?
       case SleepElsewhere(p, c) => x.cpu.On? && x.pc.Code? && x.lock.None?
       case SleepState(p) => x.cpu.On? && x.pc.SleepSet?
       case WaitAgain(p) => x.cpu.On? && x.pc.Reacquire? && s.waitLock.None?
       case Switched(p) => x.cpu.Leaving?
       case Dispatch(p) => x.cpu.Off? && x.state.RUNNABLE? && x.lock.None?
       case Resume(p) => x.cpu.Resuming?
       case Yield(p) => x.cpu.On? && Quiet(x.pc) && x.lock.None?
       case ExitCall(p, status) => x.cpu.On? && x.pc.Code? && p != s.init && s.waitLock.None?
       case ReparentNext(p) => x.cpu.On? && x.pc.Reparent?
       case WakeNext(p) =>
         x.cpu.On? && x.pc.Wake? && (x.pc.w < |s.procs| && x.pc.w != p ==> s.procs[x.pc.w].lock.None?)
       case ExitAcquire(p) => x.cpu.On? && x.pc.ExitLock? && x.lock.None?
       case ExitZombie(p) => x.cpu.On? && x.pc.ExitSet?
       case ExitUnlock(p) => x.cpu.On? && x.pc.ExitRelease?
       case ForkAlloc(p, np) =>
         x.cpu.On? && x.pc.Code? && np < |s.procs| && s.procs[np].state.UNUSED? && s.procs[np].lock.None?
       case ForkUnlock(p) => x.cpu.On? && x.pc.ForkCopy? && x.pc.np < |s.procs|
       case ForkWaitLock(p) => x.cpu.On? && x.pc.ForkAcquire? && s.waitLock.None?
       case ForkParent(p) => x.cpu.On? && x.pc.ForkSet? && x.pc.np < |s.procs|
       case ForkRunnable(p) => x.cpu.On? && x.pc.ForkRun? && x.pc.np < |s.procs| && s.procs[x.pc.np].lock.None?
       case Kill(p) => x.lock.None?
       case WakeElsewhere(p, c) => x.lock.None?
  }

  function Put(s: State, p: nat, x: Proc): State
    requires p < |s.procs|
  {
    s.(procs := s.procs[p := x])
  }

  function Put2(s: State, p: nat, x: Proc, q: nat, y: Proc): State
    requires p < |s.procs| && q < |s.procs|
  {
    s.(procs := s.procs[p := x][q := y])
  }

  function Freed(x: Proc): Proc {
    x.(state := UNUSED, chan := None, killed := false, xstate := 0, pid := 0, parent := None, pc := Code)
  }

  /** The awakened form of a process, if it sleeps on c. */
  function Woken(x: Proc, c: Chan): Proc {
    if x.state.SLEEPING? && x.chan == Some(c) then x.(state := RUNNABLE) else x
  }

  function Visit(s: State, p: nat, copied: bool): State
    requires Enabled(s, WaitVisit(p, copied))
  {
    var x := s.procs[p];
    var c := s.procs[x.pc.i];
    if c.parent != Some(p) then Put(s, p, x.(pc := WaitScan(x.pc.i + 1, x.pc.kids)))
    else if !c.state.ZOMBIE? then Put(s, p, x.(pc := WaitScan(x.pc.i + 1, true)))
    else if !copied then Put(s, p, x.(pc := WaitReturn(-1)))
    else Put2(s, x.pc.i, Freed(c), p, x.(pc := WaitReturn(c.pid))).(reaps := s.reaps + [Reap(p, c.pid, c.xstate)])
  }

  function Reparented(s: State, p: nat): State
    requires Enabled(s, ReparentNext(p))
  {
    var x := s.procs[p];
    var i := x.pc.i;
    if i >= |s.procs| then
      Put(s, p, x.(pc := if x.parent.Some? then Wake(x.parent.value, 0, Locking,
                                                     x.pc.status) else ExitLock(x.pc.status)))
    else if s.procs[i].parent == Some(p) then
      Put2(s, i, s.procs[i].(parent := Some(s.init)), p, x.(pc := Wake(s.init, 0, Reparenting(i + 1), x.pc.status)))
    else Put(s, p, x.(pc := Reparent(i + 1, x.pc.status)))
  }

  function Wakened(s: State, p: nat): State
    requires Enabled(s, WakeNext(p))
  {
    var x := s.procs[p];
    var w := x.pc.w;
    if w >= |s.procs| then
      Put(s, p, x.(pc := if x.pc.k.Locking? then ExitLock(x.pc.status) else Reparent(x.pc.k.i, x.pc.status)))
    else if w == p then Put(s, p, x.(pc := x.pc.(w := w + 1)))
    else Put2(s, w, Woken(s.procs[w], Slot(x.pc.t)), p, x.(pc := x.pc.(w := w + 1)))
  }

  function Next(s: State, st: Step): State
    requires Enabled(s, st)
  {
    var p := st.p;
    var x := s.procs[p];
    match st
    case WaitCall(_) => Put(s, p, x.(pc := WaitScan(0, false))).(waitLock := Some(p))
    case WaitVisit(_, copied) => Visit(s, p, copied)
    case WaitEnd(_) => Put(s, p, x.(pc := if !x.pc.kids || x.killed then WaitReturn(-1) else WaitSleep))
    case WaitDone(_) => Put(s, p, x.(pc := Code)).(waitLock := None)
    case SleepAcquire(_) => Put(s, p, x.(lock := Some(p), pc := SleepLocked))
    case SleepRelease(_) => Put(s, p, x.(pc := SleepSet(Slot(p)))).(waitLock := None)
    case SleepElsewhere(_, c) => Put(s, p, x.(lock := Some(p), pc := SleepSet(Other(c))))
    case SleepState(_) => Put(s, p, x.(state := SLEEPING, chan := Some(x.pc.c), pc := Asleep(x.pc.c), cpu := Leaving))
    case WaitAgain(_) => Put(s, p, x.(pc := WaitScan(0, false))).(waitLock := Some(p))
    case Switched(_) => Put(s, p, x.(lock := None, cpu := Off))
    case Dispatch(_) => Put(s, p, x.(state := RUNNING, lock := Some(p), cpu := Resuming))
    case Resume(_) =>
      if x.pc.Asleep? then
        Put(s, p, x.(chan := None, lock := None, pc := if x.pc.c.Slot? then Reacquire else Code, cpu := On))
      else Put(s, p, x.(lock := None, cpu := On))
    case Yield(_) => Put(s, p, x.(state := RUNNABLE, lock := Some(p), cpu := Leaving))
    case ExitCall(_, status) => Put(s, p, x.(pc := Reparent(0, status))).(waitLock := Some(p))
    case ReparentNext(_) => Reparented(s, p)
    case WakeNext(_) => Wakened(s, p)
    case ExitAcquire(_) => Put(s, p, x.(lock := Some(p), pc := ExitSet(x.pc.status)))
    case ExitZombie(_) =>
      Put(s, p, x.(xstate := x.pc.status, state := ZOMBIE,
                   pc := ExitRelease)).(exits := s.exits[x.pid := Exit(p, x.pc.status)])
    case ExitUnlock(_) => Put(s, p, x.(pc := Dead, cpu := Leaving)).(waitLock := None)
    case ForkAlloc(_, np) =>
      Put2(s, np, s.procs[np].(state := USED, pid := s.nextPid, lock := Some(p)), p, x.(pc := ForkCopy(np)))
        .(nextPid := s.nextPid + 1)
    case ForkUnlock(_) => Put2(s, x.pc.np, s.procs[x.pc.np].(lock := None), p, x.(pc := ForkAcquire(x.pc.np)))
    case ForkWaitLock(_) => Put(s, p, x.(pc := ForkSet(x.pc.np))).(waitLock := Some(p))
    case ForkParent(_) =>
      Put2(s, x.pc.np, s.procs[x.pc.np].(parent := Some(p)), p, x.(pc := ForkRun(x.pc.np))).(waitLock := None)
    case ForkRunnable(_) => Put2(s, x.pc.np, s.procs[x.pc.np].(state := RUNNABLE), p, x.(pc := Code))
    case Kill(_) => Put(s, p, x.(killed := true, state := if x.state.SLEEPING? then RUNNABLE else x.state))
    case WakeElsewhere(_, c) => Put(s, p, Woken(x, Other(c)))
  }

  // ----------------------------------------------------------------- invariant

  predicate HoldsWait(x: Proc) {
    x.cpu.On? && (|| x.pc.WaitScan? || x.pc.WaitReturn? || x.pc.WaitSleep? || x.pc.SleepLocked? || x.pc.Reparent?
                  || x.pc.Wake? || x.pc.ExitLock? || x.pc.ExitSet? || x.pc.ExitRelease? || x.pc.ForkSet?)
  }

  predicate HoldsOwn(x: Proc) {
    || x.cpu.Leaving? || x.cpu.Resuming?
    || (x.cpu.On? && (x.pc.SleepLocked? || x.pc.SleepSet? || x.pc.ExitSet? || x.pc.ExitRelease?))
  }

  predicate Forking(pc: Pc) { pc.ForkCopy? || pc.ForkAcquire? || pc.ForkSet? || pc.ForkRun? }

  /** wait_lock is held by exactly the thread inside its region. */
  ghost predicate WaitLockOk(s: State) {
    && (forall p :: 0 <= p < |s.procs| ==> (s.waitLock == Some(p) <==> HoldsWait(s.procs[p])))
    && (s.waitLock.Some? ==> s.waitLock.value < |s.procs|)
  }

  /** A p->lock is held by p inside its own regions, or by the process that forks p. */
  ghost predicate LocksOk(s: State) {
    && (forall p :: 0 <= p < |s.procs| ==> (HoldsOwn(s.procs[p]) <==> s.procs[p].lock == Some(p)))
    && (forall p :: 0 <= p < |s.procs| && s.procs[p].lock.Some? && s.procs[p].lock.value != p ==>
          s.procs[p].lock.value < |s.procs| && s.procs[s.procs[p].lock.value].pc == ForkCopy(p))
    && (forall p :: 0 <= p < |s.procs| && s.procs[p].pc.ForkCopy? ==>
          s.procs[p].pc.np < |s.procs| && s.procs[p].pc.np != p && s.procs[s.procs[p].pc.np].lock == Some(p))
  }

  /** State, channel and position of one process agree. */
  predicate Local(x: Proc, p: nat) {
    && match x.cpu {
         case On => x.state == (if x.pc.ExitRelease? then ZOMBIE else RUNNING) && !x.pc.Asleep? && !x.pc.Dead?
         case Resuming => x.state.RUNNING? && (Quiet(x.pc) || x.pc.Asleep?)
         case Leaving => (x.pc.Asleep? && x.state.SLEEPING?) || (x.pc.Dead? && x.state.ZOMBIE?)
         || (Quiet(x.pc) && x.state.RUNNABLE?)
         case Off =>
           || (x.pc.Code? && (x.state.UNUSED? || x.state.USED?))
           || (x.pc.Asleep? && (x.state.SLEEPING? || x.state.RUNNABLE?))
           || (Quiet(x.pc) && x.state.RUNNABLE?)
           || (x.pc.Dead? && x.state.ZOMBIE?)
       }
    && x.chan == (if x.pc.Asleep? then Some(x.pc.c) else None)
    && (x.pc.Asleep? || x.pc.SleepSet? ==> x.pc.c.Slot? ==> x.pc.c.p == p)
  }

  ghost predicate LocalsOk(s: State) {
    forall p :: 0 <= p < |s.procs| ==> Local(s.procs[p], p)
  }

  predicate Alive(st: RunState) { st.SLEEPING? || st.RUNNABLE? || st.RUNNING? }

  predicate InExit(pc: Pc) {
    pc.Reparent? || pc.Wake? || pc.ExitLock? || pc.ExitSet? || pc.ExitRelease? || pc.Dead?
  }

  /** An exiting process at pc has given slot c away, if it ever was its child. */
  predicate GivenAway(pc: Pc, c: nat) {
    InExit(pc) && (pc.Reparent? ==> c < pc.i) && (pc.Wake? && pc.k.Reparenting? ==> c < pc.k.i)
  }

  ghost predicate ParentsOk(s: State) {
    && s.init < |s.procs| && s.procs[s.init].parent.None? && Alive(s.procs[s.init].state)
    && (forall c :: 0 <= c < |s.procs| && s.procs[c].parent.Some? ==>
          var q := s.procs[c].parent.value;
          && q < |s.procs| && q != c && !s.procs[c].state.UNUSED?
          && Alive(s.procs[q].state) && !GivenAway(s.procs[q].pc, c))
    && (forall c :: 0 <= c < |s.procs| && c != s.init && s.procs[c].parent.None? ==>
          s.procs[c].state.UNUSED? || s.procs[c].state.USED?)
    && (forall p :: 0 <= p < |s.procs| && InExit(s.procs[p].pc) ==> p != s.init)
    && (forall p :: 0 <= p < |s.procs| && s.procs[p].pc.Wake? ==>
          if s.procs[p].pc.k.Locking? then s.procs[p].parent == Some(s.procs[p].pc.t) else s.procs[p].pc.t == s.init)
  }

  /** fork's child belongs to one forking process until it is runnable. */
  ghost predicate ForksOk(s: State) {
    && (forall p :: 0 <= p < |s.procs| && Forking(s.procs[p].pc) ==>
          var np := s.procs[p].pc.np;
          && np < |s.procs| && np != p && s.procs[np].state.USED?
          && (s.procs[np].parent == Some(p) || s.procs[np].parent.None?)
          && (s.procs[np].parent == Some(p) ==> s.procs[p].pc.ForkSet? || s.procs[p].pc.ForkRun?)
          && (s.procs[p].pc.ForkRun? ==> s.procs[np].parent == Some(p)))
    && (forall p, q ::
          0 <= p < |s.procs| && 0 <= q < |s.procs| && p != q && Forking(s.procs[p].pc) && Forking(s.procs[q].pc) ==>
          s.procs[p].pc.np != s.procs[q].pc.np)
  }

  /** Will sleep, or sleeps, in wait without looking at its children again. */
  predicate Committed(x: Proc) {
    (x.pc.SleepSet? && x.pc.c.Slot?) || (x.pc.Asleep? && x.pc.c.Slot? && x.state.SLEEPING?)
  }

  /** Already passed slot c in wait's scan. */
  predicate Passed(pc: Pc, c: nat) {
    (pc.WaitScan? && c < pc.i) || pc.WaitSleep? || pc.SleepLocked?
  }

  /** A wakeup of q is under way and has not reached q yet. */
  predicate WakeComing(s: State, q: nat) {
    && s.waitLock.Some? && s.waitLock.value < |s.procs|
    && var pc := s.procs[s.waitLock.value].pc;
       pc.Wake? && pc.t == q && pc.w <= q
  }

  /** exit has woken its parent and will become a zombie without looking again. */
  predicate ParentWoken(pc: Pc) {
    pc.ExitLock? || pc.ExitSet? || (pc.Wake? && pc.k.Locking? && pc.w > pc.t)
  }

  ghost predicate WaitersOk(s: State) {
    && (forall c ::
          && 0 <= c < |s.procs| && s.procs[c].state.ZOMBIE?
          && s.procs[c].parent.Some? && s.procs[c].parent.value < |s.procs| ==>
          var q := s.procs[c].parent.value;
          && !Passed(s.procs[q].pc, c)
          && (Committed(s.procs[q]) ==> WakeComing(s, q)))
    && (forall p ::
          && 0 <= p < |s.procs| && ParentWoken(s.procs[p].pc)
          && s.procs[p].parent.Some? && s.procs[p].parent.value < |s.procs| ==>
          !Committed(s.procs[s.procs[p].parent.value]))
  }

  /** Process ids are not reused, and the exits are the zombies and the reaped. */
  ghost predicate PidsOk(s: State) {
    && (forall p :: 0 <= p < |s.procs| && !s.procs[p].state.UNUSED? ==>
          && s.procs[p].pid < s.nextPid
          && (s.procs[p].pid in s.exits <==> s.procs[p].state.ZOMBIE?)
          && (s.procs[p].state.ZOMBIE? ==> s.exits[s.procs[p].pid] == Exit(p, s.procs[p].xstate)))
    && (forall p, q ::
          && 0 <= p < |s.procs| && 0 <= q < |s.procs| && p != q
          && !s.procs[p].state.UNUSED? && !s.procs[q].state.UNUSED? ==>
          s.procs[p].pid != s.procs[q].pid)
    && (forall d :: d in s.exits ==> d < s.nextPid)
  }

  predicate Reaped(s: State, d: nat) {
    exists k :: 0 <= k < |s.reaps| && s.reaps[k].pid == d
  }

  ghost predicate ReapsOk(s: State) {
    && (forall k :: 0 <= k < |s.reaps| ==>
          s.reaps[k].pid in s.exits && s.exits[s.reaps[k].pid].status == s.reaps[k].status)
    && (forall j, k :: 0 <= j < k < |s.reaps| ==> s.reaps[j].pid != s.reaps[k].pid)
    && (forall p, k :: 0 <= p < |s.procs| && 0 <= k < |s.reaps| && !s.procs[p].state.UNUSED? ==>
          s.procs[p].pid != s.reaps[k].pid)
    && (forall d :: d in s.exits && !Reaped(s, d) ==>
          var p := s.exits[d].slot; p < |s.procs| && s.procs[p].state.ZOMBIE? && s.procs[p].pid == d)
  }

  ghost predicate Inv(s: State) {
    && WaitLockOk(s) && LocksOk(s) && LocalsOk(s) && ParentsOk(s) && ForksOk(s) && WaitersOk(s) && PidsOk(s)
       && ReapsOk(s)
  }

  // -------------------------------------------- steps that change one process

  /** A thread takes or drops wait_lock only as it enters or leaves the region. */
  predicate WaitLockMove(s: State, p: nat, y: Proc, wl: Option<nat>)
    requires p < |s.procs|
  {
    || (wl == s.waitLock && HoldsWait(y) == HoldsWait(s.procs[p]))
    || (s.waitLock.None? && wl == Some(p) && HoldsWait(y))
    || (s.waitLock == Some(p) && wl.None? && !HoldsWait(y))
  }

  lemma WaitLockMoved(s: State, p: nat, y: Proc, t: State)
    requires WaitLockOk(s) && p < |s.procs| && WaitLockMove(s, p, y, t.waitLock) && t.procs == s.procs[p := y]
    ensures WaitLockOk(t)
  {
    hide HoldsWait;
  }

  /** The same for its own lock. */
  predicate LockMove(x: Proc, y: Proc, p: nat) {
    && (HoldsOwn(y) <==> y.lock == Some(p))
    && (y.lock.Some? && y.lock.value != p ==> y.lock == x.lock)
    && (x.lock.Some? && x.lock.value != p ==> y.lock == x.lock)
    && (y.pc.ForkCopy? <==> x.pc.ForkCopy?) && (x.pc.ForkCopy? ==> y.pc == x.pc)
  }

  lemma LocksMoved(s: State, p: nat, y: Proc, t: State)
    requires LocksOk(s) && p < |s.procs| && LockMove(s.procs[p], y, p) && t.procs == s.procs[p := y]
    ensures LocksOk(t)
  {
    hide HoldsOwn;
  }

  lemma LocalsMoved(s: State, p: nat, y: Proc, t: State)
    requires LocalsOk(s) && p < |s.procs| && Local(y, p) && t.procs == s.procs[p := y]
    ensures LocalsOk(t)
  {
    hide Local;
  }

  /** A process keeps a living parent, and its children keep it alive. */
  ghost predicate ParentMove(s: State, p: nat, y: Proc) {
    && (y.parent.Some? ==>
          var v := y.parent.value;
          v < |s.procs| && v != p && !y.state.UNUSED? && Alive(s.procs[v].state) && !GivenAway(s.procs[v].pc, p))
    && (if p == s.init then y.parent.None? && Alive(y.state) && !InExit(y.pc)
        else y.parent.None? ==> y.state.UNUSED? || y.state.USED?)
    && (forall c :: 0 <= c < |s.procs| && c != p && s.procs[c].parent == Some(p) ==>
          Alive(y.state) && !GivenAway(y.pc, c))
    && (y.pc.Wake? ==> if y.pc.k.Locking? then y.parent == Some(y.pc.t) else y.pc.t == s.init)
  }

  lemma ParentsMoved(s: State, p: nat, y: Proc, t: State)
    requires ParentsOk(s) && p < |s.procs| && ParentMove(s, p, y) && t.procs == s.procs[p := y] && t.init == s.init
    ensures ParentsOk(t)
  {
    hide GivenAway, InExit, Alive;
  }

  /** fork's child stays as it is until its maker moves on. */
  ghost predicate ForkMove(s: State, p: nat, y: Proc)
    requires p < |s.procs|
  {
    var x := s.procs[p];
    && (forall f :: 0 <= f < |s.procs| && f != p && Forking(s.procs[f].pc) && s.procs[f].pc.np == p ==>
          y.state.USED? && (y.parent == x.parent || (y.parent == Some(f) && s.procs[f].pc.ForkSet?)))
    && (Forking(y.pc) ==>
          || (Forking(x.pc) && y.pc.np == x.pc.np && (y.pc.ForkRun? <==> x.pc.ForkRun?)
              && (x.pc.ForkSet? ==> y.pc.ForkSet?))
          || (x.pc.ForkSet? && y.pc == ForkRun(x.pc.np) && x.pc.np < |s.procs| && s.procs[x.pc.np].parent == Some(p))
          || (&& !y.pc.ForkRun? && y.pc.np < |s.procs| && y.pc.np != p
              && s.procs[y.pc.np].state.USED? && s.procs[y.pc.np].parent.None?
              && forall f :: 0 <= f < |s.procs| && f != p && Forking(s.procs[f].pc) ==> s.procs[f].pc.np != y.pc.np))
  }

  lemma ForksMoved(s: State, p: nat, y: Proc, t: State)
    requires ForksOk(s) && p < |s.procs| && ForkMove(s, p, y) && t.procs == s.procs[p := y]
    ensures ForksOk(t)
  {
  }

  /** No wakeup is lost as one process moves. */
  ghost predicate WaiterMove(s: State, p: nat, y: Proc, wl: Option<nat>)
    requires p < |s.procs|
  {
    var x := s.procs[p];
    && (wl == s.waitLock || s.waitLock.None? || (s.waitLock == Some(p) && wl.None? && !x.pc.Wake?))
    && (y.state.ZOMBIE? ==> x.state.ZOMBIE? || (x.pc.ExitSet? && y.parent == x.parent))
    && (y.parent != x.parent ==> !ParentWoken(y.pc))
    && (y.parent != x.parent && y.state.ZOMBIE? && y.parent.Some? && y.parent.value < |s.procs| ==>
          var v := y.parent.value;
          v != p && !Passed(s.procs[v].pc, p) && (Committed(s.procs[v]) ==> WakeComing(s, v)))
    && (forall c ::
          0 <= c < |s.procs| && Passed(y.pc, c) && s.procs[c].state.ZOMBIE? && s.procs[c].parent == Some(p) ==>
          Passed(x.pc, c))
    && (Committed(y) ==> Committed(x) || x.pc.SleepLocked?)
    && (x.pc.Wake? ==>
          || x.pc.w >= |s.procs|
          || (y.pc.Wake? && y.pc.t == x.pc.t && y.pc.w == x.pc.w)
          || (y.pc.Wake? && y.pc.t == x.pc.t && y.pc.w == x.pc.w + 1
              && (x.pc.w == x.pc.t ==> !Committed(s.procs[x.pc.w]))))
    && (ParentWoken(y.pc) ==>
          || ParentWoken(x.pc) || y.parent.None?
          || (y.pc.Wake? && x.pc.Wake? && y.pc.t == x.pc.t == x.pc.w && x.parent == Some(x.pc.t)))
  }

  ghost predicate ParentsInRange(s: State) {
    forall c :: 0 <= c < |s.procs| && s.procs[c].parent.Some? ==>
      s.procs[c].parent.value < |s.procs| && s.procs[c].parent.value != c
  }

  /** Only the holder of wait_lock is at these positions. */
  lemma InWaitRegion(s: State, p: nat)
    requires WaitLockOk(s) && p < |s.procs| && Local(s.procs[p], p)
    ensures var pc := s.procs[p].pc;
            ParentWoken(pc) || pc.SleepLocked? || pc.WaitScan? || pc.WaitSleep? || pc.Wake? ==> s.waitLock == Some(p)
  {
  }

  lemma WaitersMoved(s: State, p: nat, y: Proc, wl: Option<nat>, t: State)
    requires WaitLockOk(s) && LocalsOk(s) && ParentsInRange(s) && WaitersOk(s) && p < |s.procs|
    requires WaiterMove(s, p, y, wl)
    requires t.procs == s.procs[p := y] && t.waitLock == wl
    ensures WaitersOk(t)
  {
    ZombiesMoved(s, p, y, wl, t);
    WokenMoved(s, p, y, wl, t);
  }

  lemma WakeStillComing(s: State, p: nat, y: Proc, wl: Option<nat>, t: State, q: nat)
    requires p < |s.procs| && WaiterMove(s, p, y, wl) && q < |s.procs| && WakeComing(s, q)
    requires Committed(s.procs[q])
    requires t.procs == s.procs[p := y] && t.waitLock == wl
    ensures WakeComing(t, q)
  {
  }

  lemma ZombiesMoved(s: State, p: nat, y: Proc, wl: Option<nat>, t: State)
    requires WaitLockOk(s) && LocalsOk(s) && ParentsInRange(s) && WaitersOk(s) && p < |s.procs|
    requires WaiterMove(s, p, y, wl)
    requires t.procs == s.procs[p := y] && t.waitLock == wl
    ensures forall c ::
              && 0 <= c < |t.procs| && t.procs[c].state.ZOMBIE?
              && t.procs[c].parent.Some? && t.procs[c].parent.value < |t.procs| ==>
              var q := t.procs[c].parent.value;
              !Passed(t.procs[q].pc, c) && (Committed(t.procs[q]) ==> WakeComing(t, q))
  {
    forall c |
      && 0 <= c < |t.procs| && t.procs[c].state.ZOMBIE?
      && t.procs[c].parent.Some? && t.procs[c].parent.value < |t.procs|
      ensures var q := t.procs[c].parent.value;
              !Passed(t.procs[q].pc, c) && (Committed(t.procs[q]) ==> WakeComing(t, q))
    {
      var q := t.procs[c].parent.value;
      InWaitRegion(s, p);
      InWaitRegion(s, q);
      if Committed(s.procs[q]) && WakeComing(s, q) {
        WakeStillComing(s, p, y, wl, t, q);
      }
      hide WaitLockOk, LocalsOk, WakeComing;
    }
  }

  lemma WokenMoved(s: State, p: nat, y: Proc, wl: Option<nat>, t: State)
    requires WaitLockOk(s) && LocalsOk(s) && ParentsInRange(s) && WaitersOk(s) && p < |s.procs|
    requires WaiterMove(s, p, y, wl)
    requires t.procs == s.procs[p := y] && t.waitLock == wl
    ensures forall c ::
              && 0 <= c < |t.procs| && ParentWoken(t.procs[c].pc)
              && t.procs[c].parent.Some? && t.procs[c].parent.value < |t.procs| ==>
              !Committed(t.procs[t.procs[c].parent.value])
  {
    forall c |
      && 0 <= c < |t.procs| && ParentWoken(t.procs[c].pc)
      && t.procs[c].parent.Some? && t.procs[c].parent.value < |t.procs|
      ensures !Committed(t.procs[t.procs[c].parent.value])
    {
      InWaitRegion(s, p);
      InWaitRegion(s, c);
      hide WaitLockOk, LocalsOk, WakeComing;
    }
  }

  /** Identity and exit record as one process moves. */
  predicate PidMove(x: Proc, y: Proc) {
    && y.pid == x.pid && (y.state.UNUSED? <==> x.state.UNUSED?) && (y.state.ZOMBIE? <==> x.state.ZOMBIE?)
    && y.xstate == x.xstate
  }

  lemma PidsMoved(s: State, p: nat, y: Proc, t: State)
    requires PidsOk(s) && ReapsOk(s) && p < |s.procs| && PidMove(s.procs[p], y)
    requires t.procs == s.procs[p := y] && t.exits == s.exits && t.reaps == s.reaps && t.nextPid == s.nextPid
    ensures PidsOk(t) && ReapsOk(t)
  {
    forall d | d in t.exits && !Reaped(t, d)
      ensures var k := t.exits[d].slot; k < |t.procs| && t.procs[k].state.ZOMBIE? && t.procs[k].pid == d
    {
      assert !Reaped(s, d);
    }
    hide Reaped;
  }

  /** What the invariant says of one process. */
  ghost predicate Here(s: State, p: nat) {
    && p < |s.procs| && s.init < |s.procs| && Local(s.procs[p], p)
    && (s.waitLock == Some(p) <==> HoldsWait(s.procs[p]))
    && (HoldsOwn(s.procs[p]) <==> s.procs[p].lock == Some(p))
    && (s.procs[p].lock.Some? && s.procs[p].lock.value != p ==> s.procs[p].state.USED?)
    && ParentMove(s, p, s.procs[p]) && ForkMove(s, p, s.procs[p])
  }

  lemma InvHere(s: State, p: nat)
    requires Inv(s) && p < |s.procs|
    ensures Here(s, p) && s.init < |s.procs|
  {
    hide Local, HoldsWait, HoldsOwn, InExit, GivenAway, Alive, WaitersOk, PidsOk, ReapsOk, ForkMove, ParentMove;
    InvForkMove(s, p);
    InvParentMove(s, p);
    if s.procs[p].lock.Some? && s.procs[p].lock.value != p {
      assert Forking(s.procs[s.procs[p].lock.value].pc);
    }
  }

  lemma InvForkMove(s: State, p: nat)
    requires ForksOk(s) && p < |s.procs|
    ensures ForkMove(s, p, s.procs[p])
  {
  }

  lemma InvParentMove(s: State, p: nat)
    requires ParentsOk(s) && p < |s.procs|
    ensures ParentMove(s, p, s.procs[p])
  {
    hide InExit, GivenAway, Alive;
  }

  /** The steps that change one process only. */
  predicate Plain(s: State, st: Step)
    requires Enabled(s, st)
  {
    var x := s.procs[st.p];
    match st
    case WaitVisit(p, copied) => !(copied && s.procs[x.pc.i].parent == Some(p) && s.procs[x.pc.i].state.ZOMBIE?)
    case ReparentNext(p) => !(x.pc.i < |s.procs| && s.procs[x.pc.i].parent == Some(p))
    case WakeNext(p) => !(x.pc.w < |s.procs| && x.pc.w != p)
    case ForkAlloc(p, np) => false
    case ForkUnlock(p) => false
    case ForkParent(p) => false
    case ForkRunnable(p) => false
    case _ => true
  }

  lemma PlainFrame(s: State, st: Step)
    requires Enabled(s, st) && Plain(s, st)
    ensures var t := Next(s, st);
            && |t.procs| == |s.procs| && t.procs == s.procs[st.p := t.procs[st.p]]
            && t.init == s.init && t.reaps == s.reaps && t.nextPid == s.nextPid && (!st.ExitZombie? ==>
                                                                                      t.exits == s.exits)
  {
  }

  predicate ExitStep(st: Step) {
    st.ExitCall? || st.ReparentNext? || st.WakeNext? || st.ExitAcquire? || st.ExitZombie? || st.ExitUnlock?
  }

  predicate WaitStep(st: Step) {
    st.WaitCall? || st.WaitVisit? || st.WaitEnd? || st.WaitDone? || st.WaitAgain? || st.SleepAcquire?
    || st.SleepRelease?
  }

  lemma ExitLocks(s: State, st: Step)
    requires Enabled(s, st) && Plain(s, st) && Here(s, st.p) && ExitStep(st)
    ensures var t := Next(s, st);
            |t.procs| == |s.procs| && WaitLockMove(s, st.p, t.procs[st.p], t.waitLock)
            && LockMove(s.procs[st.p], t.procs[st.p], st.p)
  {
    hide ForkMove;
  }

  lemma WaitLocks(s: State, st: Step)
    requires Enabled(s, st) && Plain(s, st) && Here(s, st.p) && WaitStep(st)
    ensures var t := Next(s, st);
            |t.procs| == |s.procs| && WaitLockMove(s, st.p, t.procs[st.p], t.waitLock)
            && LockMove(s.procs[st.p], t.procs[st.p], st.p)
  {
    hide ForkMove;
  }

  lemma OtherLocks(s: State, st: Step)
    requires Enabled(s, st) && Plain(s, st) && Here(s, st.p) && !ExitStep(st) && !WaitStep(st)
    ensures var t := Next(s, st);
            |t.procs| == |s.procs| && WaitLockMove(s, st.p, t.procs[st.p], t.waitLock)
            && LockMove(s.procs[st.p], t.procs[st.p], st.p)
  {
    hide ForkMove;
  }

  lemma ExitLocal(s: State, st: Step)
    requires Enabled(s, st) && Plain(s, st) && Here(s, st.p) && ExitStep(st)
    ensures var t := Next(s, st); |t.procs| == |s.procs| && Local(t.procs[st.p], st.p)
  {
    hide ForkMove;
  }

  lemma WaitLocal(s: State, st: Step)
    requires Enabled(s, st) && Plain(s, st) && Here(s, st.p) && WaitStep(st)
    ensures var t := Next(s, st); |t.procs| == |s.procs| && Local(t.procs[st.p], st.p)
  {
    hide ForkMove;
  }

  lemma OtherLocal(s: State, st: Step)
    requires Enabled(s, st) && Plain(s, st) && Here(s, st.p) && !ExitStep(st) && !WaitStep(st)
    ensures var t := Next(s, st); |t.procs| == |s.procs| && Local(t.procs[st.p], st.p)
  {
    hide ForkMove;
  }

  lemma ExitParents(s: State, st: Step)
    requires Enabled(s, st) && Plain(s, st) && Here(s, st.p) && ExitStep(st)
    ensures var t := Next(s, st); |t.procs| == |s.procs| && ParentMove(s, st.p, t.procs[st.p])
  {
    hide Enabled, Next, Plain, Here, ParentMove;
    if st.ReparentNext? || st.WakeNext? {
      LoopParents(s, st);
    } else {
      EndParents(s, st);
    }
  }

  lemma LoopParents(s: State, st: Step)
    requires Enabled(s, st) && Plain(s, st) && Here(s, st.p) && (st.ReparentNext? || st.WakeNext?)
    ensures var t := Next(s, st); |t.procs| == |s.procs| && ParentMove(s, st.p, t.procs[st.p])
  {
    hide ForkMove, HoldsWait, HoldsOwn, Local;
  }

  lemma EndParents(s: State, st: Step)
    requires Enabled(s, st) && Plain(s, st) && Here(s, st.p) && ExitStep(st) && !st.ReparentNext? && !st.WakeNext?
    ensures var t := Next(s, st); |t.procs| == |s.procs| && ParentMove(s, st.p, t.procs[st.p])
  {
    hide ForkMove, HoldsWait, HoldsOwn;
  }

  lemma WaitParents(s: State, st: Step)
    requires Enabled(s, st) && Plain(s, st) && Here(s, st.p) && WaitStep(st)
    ensures var t := Next(s, st); |t.procs| == |s.procs| && ParentMove(s, st.p, t.procs[st.p])
  {
    hide ForkMove, HoldsWait, HoldsOwn, Local, ParentMove;
    WaitFamily(s, st);
    hide Next, Enabled, Plain;
    SameFamily(s, st.p, Next(s, st).procs[st.p]);
  }

  lemma WaitFamily(s: State, st: Step)
    requires Enabled(s, st) && Plain(s, st) && WaitStep(st)
    ensures var t := Next(s, st);
            && |t.procs| == |s.procs| && !InExit(t.procs[st.p].pc)
            && t.procs[st.p].parent == s.procs[st.p].parent && t.procs[st.p].state == s.procs[st.p].state
  {
  }

  lemma SameFamily(s: State, p: nat, y: Proc)
    requires p < |s.procs| && ParentMove(s, p, s.procs[p]) && !InExit(y.pc)
    requires y.parent == s.procs[p].parent && y.state == s.procs[p].state
    ensures ParentMove(s, p, y)
  {
  }

  lemma OtherParents(s: State, st: Step)
    requires Enabled(s, st) && Plain(s, st) && Here(s, st.p) && !ExitStep(st) && !WaitStep(st)
    ensures var t := Next(s, st); |t.procs| == |s.procs| && ParentMove(s, st.p, t.procs[st.p])
  {
    hide ForkMove, HoldsWait, HoldsOwn;
  }

  lemma ExitForks(s: State, st: Step)
    requires Enabled(s, st) && Plain(s, st) && Here(s, st.p) && ExitStep(st)
    ensures var t := Next(s, st); |t.procs| == |s.procs| && ForkMove(s, st.p, t.procs[st.p])
  {
    hide ParentMove, HoldsWait, HoldsOwn, ForkMove;
    ExitGrown(s, st);
    hide Next, Enabled, Plain, Local;
    NoForkMove(s, st.p, Next(s, st).procs[st.p]);
  }

  /** In exit and wait a process is long set up, and forks nothing. */
  lemma ExitGrown(s: State, st: Step)
    requires Enabled(s, st) && Plain(s, st) && Here(s, st.p) && ExitStep(st)
    ensures |Next(s, st).procs| == |s.procs| && !s.procs[st.p].state.USED? && !Forking(Next(s, st).procs[st.p].pc)
  {
    hide ParentMove, HoldsWait, HoldsOwn, ForkMove;
  }

  lemma WaitGrown(s: State, st: Step)
    requires Enabled(s, st) && Plain(s, st) && Here(s, st.p) && WaitStep(st)
    ensures |Next(s, st).procs| == |s.procs| && !s.procs[st.p].state.USED? && !Forking(Next(s, st).procs[st.p].pc)
  {
    hide ParentMove, HoldsWait, HoldsOwn, ForkMove;
  }

  lemma NoForkMove(s: State, p: nat, y: Proc)
    requires p < |s.procs| && ForkMove(s, p, s.procs[p]) && !s.procs[p].state.USED? && !Forking(y.pc)
    ensures ForkMove(s, p, y)
  {
  }

  lemma WaitForks(s: State, st: Step)
    requires Enabled(s, st) && Plain(s, st) && Here(s, st.p) && WaitStep(st)
    ensures var t := Next(s, st); |t.procs| == |s.procs| && ForkMove(s, st.p, t.procs[st.p])
  {
    hide ParentMove, HoldsWait, HoldsOwn, ForkMove;
    WaitGrown(s, st);
    hide Next, Enabled, Plain, Local;
    NoForkMove(s, st.p, Next(s, st).procs[st.p]);
  }

  lemma OtherForks(s: State, st: Step)
    requires Enabled(s, st) && Plain(s, st) && Here(s, st.p) && !ExitStep(st) && !WaitStep(st)
    ensures var t := Next(s, st); |t.procs| == |s.procs| && ForkMove(s, st.p, t.procs[st.p])
  {
    hide ParentMove, HoldsWait, HoldsOwn;
  }

  lemma ExitWaiters(s: State, st: Step)
    requires Enabled(s, st) && Plain(s, st) && Here(s, st.p) && ExitStep(st)
    ensures var t := Next(s, st); |t.procs| == |s.procs| && WaiterMove(s, st.p, t.procs[st.p], t.waitLock)
  {
    hide Enabled, Plain, Here, Next, WaiterMove;
    if st.ReparentNext? || st.WakeNext? {
      LoopWaiters(s, st);
    } else {
      EndWaiters(s, st);
    }
  }

  lemma LoopWaiters(s: State, st: Step)
    requires Enabled(s, st) && Plain(s, st) && Here(s, st.p) && (st.ReparentNext? || st.WakeNext?)
    ensures var t := Next(s, st); |t.procs| == |s.procs| && WaiterMove(s, st.p, t.procs[st.p], t.waitLock)
  {
    hide ForkMove;
  }

  lemma EndWaiters(s: State, st: Step)
    requires Enabled(s, st) && Plain(s, st) && Here(s, st.p) && ExitStep(st) && !st.ReparentNext? && !st.WakeNext?
    ensures var t := Next(s, st); |t.procs| == |s.procs| && WaiterMove(s, st.p, t.procs[st.p], t.waitLock)
  {
    hide ForkMove;
  }

  lemma WaitWaiters(s: State, st: Step)
    requires Enabled(s, st) && Plain(s, st) && Here(s, st.p) && WaitStep(st)
    ensures var t := Next(s, st); |t.procs| == |s.procs| && WaiterMove(s, st.p, t.procs[st.p], t.waitLock)
  {
    hide Enabled, Plain, Here, Next, WaiterMove;
    if st.WaitVisit? || st.WaitEnd? {
      ScanWaiters(s, st);
    } else {
      CallWaiters(s, st);
    }
  }

  lemma ScanWaiters(s: State, st: Step)
    requires Enabled(s, st) && Plain(s, st) && Here(s, st.p) && (st.WaitVisit? || st.WaitEnd?)
    ensures var t := Next(s, st); |t.procs| == |s.procs| && WaiterMove(s, st.p, t.procs[st.p], t.waitLock)
  {
    hide ForkMove;
  }

  lemma CallWaiters(s: State, st: Step)
    requires Enabled(s, st) && Plain(s, st) && Here(s, st.p) && WaitStep(st) && !st.WaitVisit? && !st.WaitEnd?
    ensures var t := Next(s, st); |t.procs| == |s.procs| && WaiterMove(s, st.p, t.procs[st.p], t.waitLock)
  {
    hide ForkMove;
  }

  lemma OtherWaiters(s: State, st: Step)
    requires Enabled(s, st) && Plain(s, st) && Here(s, st.p) && !ExitStep(st) && !WaitStep(st)
    ensures var t := Next(s, st); |t.procs| == |s.procs| && WaiterMove(s, st.p, t.procs[st.p], t.waitLock)
  {
    hide ForkMove, ParentMove, HoldsWait, HoldsOwn;
  }

  lemma PlainPids(s: State, st: Step)
    requires Enabled(s, st) && Plain(s, st) && Here(s, st.p) && !st.ExitZombie?
    ensures var t := Next(s, st); |t.procs| == |s.procs| && PidMove(s.procs[st.p], t.procs[st.p])
  {
    hide ForkMove, ParentMove;
  }

  /** All the rules for a change of one process at once. */
  ghost predicate Moves(s: State, p: nat, y: Proc, wl: Option<nat>) {
    && p < |s.procs| && WaitLockMove(s, p, y, wl) && LockMove(s.procs[p], y, p) && Local(y, p)
    && ParentMove(s, p, y) && ForkMove(s, p, y) && WaiterMove(s, p, y, wl)
  }

  lemma PlainMoves(s: State, st: Step)
    requires Enabled(s, st) && Plain(s, st) && Here(s, st.p)
    ensures var t := Next(s, st); |t.procs| == |s.procs| && Moves(s, st.p, t.procs[st.p], t.waitLock)
  {
    hide Next, Plain, Here, WaitLockMove, LockMove, Local, ParentMove, ForkMove, WaiterMove;
    if ExitStep(st) {
      ExitLocks(s, st);
      ExitLocal(s, st);
      ExitParents(s, st);
      ExitForks(s, st);
      ExitWaiters(s, st);
    } else if WaitStep(st) {
      WaitLocks(s, st);
      WaitLocal(s, st);
      WaitParents(s, st);
      WaitForks(s, st);
      WaitWaiters(s, st);
    } else {
      OtherLocks(s, st);
      OtherLocal(s, st);
      OtherParents(s, st);
      OtherForks(s, st);
      OtherWaiters(s, st);
    }
  }

  lemma PlainKept(s: State, st: Step)
    requires Inv(s) && Enabled(s, st) && Plain(s, st)
    ensures Inv(Next(s, st))
  {
    hide Inv, Next, Plain, Here, Moves, PidMove, PidsOk, ReapsOk;
    var t := Next(s, st);
    InvHere(s, st.p);
    PlainMoves(s, st);
    PlainFrame(s, st);
    PidsOfInv(s);
    if st.ExitZombie? {
      ZombieRecorded(s, st);
    } else {
      PlainPids(s, st);
      PidsMoved(s, st.p, t.procs[st.p], t);
    }
    MovedInv(s, st.p, t.procs[st.p], t);
  }

  lemma PidsOfInv(s: State)
    requires Inv(s)
    ensures PidsOk(s) && ReapsOk(s)
  {
  }

  /** The rules but for the p->locks. */
  ghost predicate SoftMoves(s: State, p: nat, y: Proc, wl: Option<nat>) {
    && p < |s.procs| && WaitLockMove(s, p, y, wl) && Local(y, p)
    && ParentMove(s, p, y) && ForkMove(s, p, y) && WaiterMove(s, p, y, wl)
  }

  ghost predicate SoftInv(s: State) {
    WaitLockOk(s) && LocalsOk(s) && ParentsOk(s) && ForksOk(s) && WaitersOk(s)
  }

  lemma SoftMoved(s: State, p: nat, y: Proc, t: State)
    requires SoftInv(s) && SoftMoves(s, p, y, t.waitLock) && t.procs == s.procs[p := y] && t.init == s.init
    ensures SoftInv(t)
  {
    hide WaitLockMove, Local, ParentMove, ForkMove, WaiterMove, WaitLockOk, LocalsOk, ForksOk, WaitersOk;
    assert ParentsInRange(s);
    hide ParentsOk;
    WaitLockMoved(s, p, y, t);
    LocalsMoved(s, p, y, t);
    ParentsMoved(s, p, y, t);
    ForksMoved(s, p, y, t);
    WaitersMoved(s, p, y, t.waitLock, t);
  }

  /** One process moves within all the rules. */
  lemma MovedInv(s: State, p: nat, y: Proc, t: State)
    requires Inv(s) && Moves(s, p, y, t.waitLock) && t.procs == s.procs[p := y] && t.init == s.init && PidsOk(t)
    requires ReapsOk(t)
    ensures Inv(t)
  {
    hide WaitLockMove, LockMove, Local, ParentMove, ForkMove, WaiterMove, WaitLockOk, LocksOk, LocalsOk, ForksOk,
      WaitersOk, ParentsOk, PidsOk, ReapsOk;
    SoftMoved(s, p, y, t);
    LocksMoved(s, p, y, t);
  }

  /** exit records the status under a pid that never exited before. */
  lemma ZombieRecorded(s: State, st: Step)
    requires PidsOk(s) && ReapsOk(s) && Enabled(s, st) && st.ExitZombie? && Here(s, st.p)
    ensures PidsOk(Next(s, st)) && ReapsOk(Next(s, st))
  {
    hide HoldsWait, HoldsOwn, ParentMove, ForkMove;
    var t := Next(s, st);
    assert s.procs[st.p].pid !in s.exits;
    forall d | d in t.exits && !Reaped(t, d)
      ensures var k := t.exits[d].slot; k < |t.procs| && t.procs[k].state.ZOMBIE? && t.procs[k].pid == d
    {
      assert !Reaped(s, d);
    }
  }

  // ------------------------------------------- steps that change two processes

  /** wakeup at another process: first that process, then the loop variable. */
  lemma WakeKept(s: State, st: Step)
    requires Inv(s) && Enabled(s, st) && st.WakeNext? && !Plain(s, st)
    ensures Inv(Next(s, st))
  {
    hide Inv, Here, Moves, PidMove, PidsOk, ReapsOk, Woken, Committed;
    var p, x := st.p, s.procs[st.p];
    var w := x.pc.w;
    var y, z := Woken(s.procs[w], Slot(x.pc.t)), x.(pc := x.pc.(w := w + 1));
    var m, t := Put(s, w, y), Next(s, st);
    assert t.procs == m.procs[p := z];
    hide Next, Enabled, Plain;
    InvHere(s, p);
    InvHere(s, w);
    WokenMoves(s, p, w);
    MovedKeeps(s, w, y, m);
    InvHere(m, p);
    CursorMoves(m, p);
    MovedKeeps(m, p, z, t);
  }

  lemma MovedKeeps(s: State, p: nat, y: Proc, t: State)
    requires Inv(s) && p < |s.procs| && Moves(s, p, y, t.waitLock) && PidMove(s.procs[p], y)
    requires t == s.(procs := s.procs[p := y], waitLock := t.waitLock)
    ensures Inv(t)
  {
    hide Inv, Moves, PidMove, PidsOk, ReapsOk;
    PidsOfInv(s);
    PidsMoved(s, p, y, t);
    MovedInv(s, p, y, t);
  }

  lemma WokenMoves(s: State, p: nat, w: nat)
    requires Here(s, p) && Here(s, w) && p != w && s.procs[p].pc.Wake? && s.procs[w].lock.None?
    ensures var y := Woken(s.procs[w], Slot(s.procs[p].pc.t));
            Moves(s, w, y, s.waitLock) && PidMove(s.procs[w], y) && (w == s.procs[p].pc.t ==> !Committed(y))
  {
  }

  lemma CursorMoves(s: State, p: nat)
    requires Here(s, p) && s.procs[p].pc.Wake? && s.procs[p].cpu.On? && s.procs[p].pc.w < |s.procs|
    requires s.procs[p].pc.w == s.procs[p].pc.t ==> !Committed(s.procs[s.procs[p].pc.w])
    ensures var x := s.procs[p];
            var z := x.(pc := x.pc.(w := x.pc.w + 1));
            Moves(s, p, z, s.waitLock) && PidMove(x, z)
  {
  }

  /** wait frees a zombie child: the child first, then the parent's position. */
  lemma ReapKept(s: State, st: Step)
    requires Inv(s) && Enabled(s, st) && st.WaitVisit? && !Plain(s, st)
    ensures Inv(Next(s, st))
  {
    hide Inv, Here, Moves, PidMove, PidsOk, ReapsOk, Freed;
    var p, x := st.p, s.procs[st.p];
    var i := x.pc.i;
    var y, z := Freed(s.procs[i]), x.(pc := WaitReturn(s.procs[i].pid));
    var m, t := Put(s, i, y).(reaps := s.reaps + [Reap(p, s.procs[i].pid, s.procs[i].xstate)]), Next(s, st);
    InvHere(s, p);
    InvHere(s, i);
    FreedMoves(s, p, i);
    assert t.procs == m.procs[p := z];
    hide Next, Enabled, Plain;
    PidsOfInv(s);
    ReapRecorded(s, p, i, m);
    MovedInv(s, i, y, m);
    InvHere(m, p);
    ReturnMoves(m, p, s.procs[i].pid);
    MovedKeeps(m, p, z, t);
  }

  lemma FreedMoves(s: State, p: nat, i: nat)
    requires Here(s, p) && Here(s, i) && s.procs[i].parent == Some(p) && s.procs[i].state.ZOMBIE?
    requires s.procs[i].lock.None?
    ensures i != p && s.procs[i].cpu.Off? && s.procs[i].pc.Dead? && Moves(s, i, Freed(s.procs[i]), s.waitLock)
  {
  }

  lemma ReturnMoves(s: State, p: nat, r: int)
    requires Here(s, p) && s.procs[p].cpu.On? && s.procs[p].pc.WaitScan?
    ensures var z := s.procs[p].(pc := WaitReturn(r));
            Moves(s, p, z, s.waitLock) && PidMove(s.procs[p], z)
  {
  }

  lemma ReapRecorded(s: State, p: nat, i: nat, m: State)
    requires PidsOk(s) && ReapsOk(s) && i < |s.procs| && s.procs[i].state.ZOMBIE?
    requires m == Put(s, i, Freed(s.procs[i])).(reaps := s.reaps + [Reap(p, s.procs[i].pid, s.procs[i].xstate)])
    ensures PidsOk(m) && ReapsOk(m)
  {
    forall d | d in m.exits && !Reaped(m, d)
      ensures var k := m.exits[d].slot; k < |m.procs| && m.procs[k].state.ZOMBIE? && m.procs[k].pid == d
    {
      assert forall k :: 0 <= k < |s.reaps| ==> m.reaps[k] == s.reaps[k];
      assert m.reaps[|s.reaps|].pid == s.procs[i].pid;
      assert d != s.procs[i].pid;
    }
    hide Reaped;
  }

  /** fork sets the child's parent. */
  lemma ChildKept(s: State, st: Step)
    requires Inv(s) && Enabled(s, st) && st.ForkParent?
    ensures Inv(Next(s, st))
  {
    hide Inv, Here, Moves, PidMove;
    var p, x := st.p, s.procs[st.p];
    var np := x.pc.np;
    var y, z := s.procs[np].(parent := Some(p)), x.(pc := ForkRun(np));
    var m, t := Put(s, np, y), Next(s, st);
    InvHere(s, p);
    InvHere(s, np);
    ForkFacts(s, p);
    ChildMoves(s, p, np);
    assert t.procs == m.procs[p := z];
    hide Next, Enabled;
    MovedKeeps(s, np, y, m);
    InvHere(m, p);
    ParentSetMoves(m, p);
    MovedKeeps(m, p, z, t);
  }

  /** What the invariant says of a forking process and its child. */
  lemma ForkFacts(s: State, p: nat)
    requires Inv(s) && p < |s.procs| && Forking(s.procs[p].pc)
    ensures var np := s.procs[p].pc.np;
            && np < |s.procs| && np != p && s.procs[np].state.USED?
            && (s.procs[np].parent == Some(p) || s.procs[np].parent.None?)
            && (s.procs[p].pc.ForkRun? ==> s.procs[np].parent == Some(p))
            && (s.procs[p].pc.ForkCopy? ==> s.procs[np].lock == Some(p))
            && (forall f :: 0 <= f < |s.procs| && f != p && Forking(s.procs[f].pc) ==> s.procs[f].pc.np != np)
  {
    hide Local, HoldsWait, HoldsOwn, ParentsOk, WaitersOk, PidsOk, ReapsOk;
  }

  lemma ChildMoves(s: State, p: nat, np: nat)
    requires Here(s, p) && Here(s, np) && s.procs[p].pc == ForkSet(np) && s.procs[p].cpu.On? && np != p
    requires s.procs[np].state.USED?
    requires forall f :: 0 <= f < |s.procs| && f != p && Forking(s.procs[f].pc) ==> s.procs[f].pc.np != np
    ensures var y := s.procs[np].(parent := Some(p));
            Moves(s, np, y, s.waitLock) && PidMove(s.procs[np], y)
  {
  }

  lemma ParentSetMoves(s: State, p: nat)
    requires Here(s, p) && s.procs[p].pc.ForkSet? && s.procs[p].cpu.On? && s.procs[p].pc.np < |s.procs|
    requires s.procs[s.procs[p].pc.np].parent == Some(p)
    ensures var z := s.procs[p].(pc := ForkRun(s.procs[p].pc.np));
            Moves(s, p, z, None) && PidMove(s.procs[p], z)
  {
  }

  /** fork makes the child runnable. */
  lemma StartKept(s: State, st: Step)
    requires Inv(s) && Enabled(s, st) && st.ForkRunnable?
    ensures Inv(Next(s, st))
  {
    hide Inv, Here, Moves, PidMove;
    var p, x := st.p, s.procs[st.p];
    var np := x.pc.np;
    var y, z := s.procs[np].(state := RUNNABLE), x.(pc := Code);
    var m, t := Put(s, p, z), Next(s, st);
    InvHere(s, p);
    ForkFacts(s, p);
    BackToCode(s, p);
    MovedKeeps(s, p, z, m);
    assert t.procs == m.procs[np := y];
    hide Next, Enabled;
    InvHere(m, np);
    StartMoves(m, np);
    MovedKeeps(m, np, y, t);
  }

  lemma BackToCode(s: State, p: nat)
    requires Here(s, p) && s.procs[p].pc.ForkRun? && s.procs[p].cpu.On?
    ensures var z := s.procs[p].(pc := Code);
            Moves(s, p, z, s.waitLock) && PidMove(s.procs[p], z)
  {
  }

  lemma StartMoves(s: State, np: nat)
    requires Here(s, np) && s.procs[np].state.USED? && s.procs[np].lock.None? && s.procs[np].parent.Some?
    requires forall f :: 0 <= f < |s.procs| && Forking(s.procs[f].pc) ==> s.procs[f].pc.np != np
    ensures var y := s.procs[np].(state := RUNNABLE);
            Moves(s, np, y, s.waitLock) && PidMove(s.procs[np], y)
  {
  }

  /** fork takes a free slot, whose lock it keeps while it copies. */
  lemma AllocKept(s: State, st: Step)
    requires Inv(s) && Enabled(s, st) && st.ForkAlloc?
    ensures Inv(Next(s, st))
  {
    hide Inv, Here, SoftInv, SoftMoves, LocksOk, PidsOk, ReapsOk;
    var p, x, np := st.p, s.procs[st.p], st.np;
    var y, z := s.procs[np].(state := USED, pid := s.nextPid, lock := Some(p)), x.(pc := ForkCopy(np));
    var m, t := Put(s, np, y), Next(s, st);
    InvHere(s, p);
    InvHere(s, np);
    AllocMoves(s, p, np);
    assert t.procs == m.procs[p := z] && t.init == m.init && t.waitLock == m.waitLock;
    Parts(s);
    SoftMoved(s, np, y, m);
    CopyMoves(s, m, p, np);
    SoftMoved(m, p, z, t);
    AllocLocks(s, p, np, t);
    AllocPids(s, p, np, t);
    Whole(t);
  }

  lemma Parts(s: State)
    requires Inv(s)
    ensures SoftInv(s) && LocksOk(s) && PidsOk(s) && ReapsOk(s)
  {
  }

  lemma Whole(s: State)
    requires SoftInv(s) && LocksOk(s) && PidsOk(s) && ReapsOk(s)
    ensures Inv(s)
  {
  }

  lemma AllocMoves(s: State, p: nat, np: nat)
    requires Here(s, p) && Here(s, np) && s.procs[p].cpu.On? && s.procs[np].state.UNUSED? && s.procs[np].lock.None?
    ensures p != np && SoftMoves(s, np, s.procs[np].(state := USED, pid := s.nextPid, lock := Some(p)), s.waitLock)
  {
  }

  lemma CopyMoves(s: State, m: State, p: nat, np: nat)
    requires Here(s, p) && Here(s, np) && s.procs[p].cpu.On? && s.procs[p].pc.Code? && p != np
    requires s.procs[np].state.UNUSED?
    requires m == Put(s, np, s.procs[np].(state := USED, pid := s.nextPid, lock := Some(p)))
    ensures SoftMoves(m, p, m.procs[p].(pc := ForkCopy(np)), m.waitLock)
  {
    hide HoldsOwn;
  }

  lemma AllocLocks(s: State, p: nat, np: nat, t: State)
    requires LocksOk(s) && p < |s.procs| && np < |s.procs| && p != np && s.procs[p].cpu.On? && s.procs[p].pc.Code?
    requires s.procs[np].lock.None?
    requires t.procs == s.procs[np := s.procs[np].(state := USED, pid := s.nextPid, lock := Some(p))]
                               [p := s.procs[p].(pc := ForkCopy(np))]
    ensures LocksOk(t)
  {
    assert HoldsOwn(t.procs[np]) == HoldsOwn(s.procs[np]) && HoldsOwn(t.procs[p]) == HoldsOwn(s.procs[p]);
    hide HoldsOwn;
    forall q | 0 <= q < |t.procs|
      ensures HoldsOwn(t.procs[q]) <==> t.procs[q].lock == Some(q)
      ensures t.procs[q].lock.Some? && t.procs[q].lock.value != q ==> t.procs[q].lock.value < |t.procs|
      ensures t.procs[q].lock.Some? && t.procs[q].lock.value != q ==> t.procs[t.procs[q].lock.value].pc == ForkCopy(q)
      ensures t.procs[q].pc.ForkCopy? ==> t.procs[q].pc.np < |t.procs| && t.procs[q].pc.np != q
      ensures t.procs[q].pc.ForkCopy? ==> t.procs[t.procs[q].pc.np].lock == Some(q)
    {
      assert q != np ==> t.procs[q].lock == s.procs[q].lock;
      assert q != p ==> t.procs[q].pc == s.procs[q].pc;
    }
  }

  lemma AllocPids(s: State, p: nat, np: nat, t: State)
    requires PidsOk(s) && ReapsOk(s) && p < |s.procs| && np < |s.procs| && p != np && s.procs[np].state.UNUSED?
    requires t.procs == s.procs[np := s.procs[np].(state := USED, pid := s.nextPid, lock := Some(p))]
                               [p := s.procs[p].(pc := ForkCopy(np))]
    requires t.nextPid == s.nextPid + 1 && t.exits == s.exits && t.reaps == s.reaps
    ensures PidsOk(t) && ReapsOk(t)
  {
    forall d | d in t.exits && !Reaped(t, d)
      ensures var k := t.exits[d].slot; k < |t.procs| && t.procs[k].state.ZOMBIE? && t.procs[k].pid == d
    {
      assert !Reaped(s, d);
    }
    hide Reaped;
  }

  /** fork releases the child's lock. */
  lemma UnlockKept(s: State, st: Step)
    requires Inv(s) && Enabled(s, st) && st.ForkUnlock?
    ensures Inv(Next(s, st))
  {
    hide Inv, Here, SoftInv, SoftMoves, LocksOk, PidsOk, ReapsOk, PidMove;
    var p, x := st.p, s.procs[st.p];
    var np := x.pc.np;
    var y, z := s.procs[np].(lock := None), x.(pc := ForkAcquire(np));
    var m, t := Put(s, np, y), Next(s, st);
    InvHere(s, p);
    InvHere(s, np);
    ForkFacts(s, p);
    UnlockMoves(s, np, p);
    assert t == m.(procs := m.procs[p := z]);
    Parts(s);
    SoftMoved(s, np, y, m);
    CopiedMoves(s, m, p, np);
    SoftMoved(m, p, z, t);
    UnlockLocks(s, p, np, t);
    PidsMoved(s, np, y, m);
    PidsMoved(m, p, z, t);
    Whole(t);
  }

  lemma UnlockMoves(s: State, np: nat, p: nat)
    requires Here(s, np) && s.procs[np].state.USED? && s.procs[np].lock == Some(p) && p != np
    ensures SoftMoves(s, np, s.procs[np].(lock := None), s.waitLock) && PidMove(s.procs[np], s.procs[np].(lock := None))
  {
  }

  lemma CopiedMoves(s: State, m: State, p: nat, np: nat)
    requires Here(s, p) && np < |s.procs| && s.procs[p].cpu.On? && s.procs[p].pc == ForkCopy(np) && p != np
    requires m == Put(s, np, s.procs[np].(lock := None))
    ensures SoftMoves(m, p, m.procs[p].(pc := ForkAcquire(np)), m.waitLock)
    ensures PidMove(m.procs[p], m.procs[p].(pc := ForkAcquire(np)))
  {
    hide HoldsOwn;
  }

  lemma UnlockLocks(s: State, p: nat, np: nat, t: State)
    requires LocksOk(s) && p < |s.procs| && np < |s.procs| && p != np && s.procs[p].cpu.On?
    requires s.procs[p].pc == ForkCopy(np)
    requires t.procs == s.procs[np := s.procs[np].(lock := None)][p := s.procs[p].(pc := ForkAcquire(np))]
    ensures LocksOk(t)
  {
    assert HoldsOwn(t.procs[np]) == HoldsOwn(s.procs[np]) && HoldsOwn(t.procs[p]) == HoldsOwn(s.procs[p]);
    hide HoldsOwn;
    assert s.procs[np].lock == Some(p);
    forall q | 0 <= q < |t.procs|
      ensures HoldsOwn(t.procs[q]) <==> t.procs[q].lock == Some(q)
      ensures t.procs[q].lock.Some? && t.procs[q].lock.value != q ==> t.procs[q].lock.value < |t.procs|
      ensures t.procs[q].lock.Some? && t.procs[q].lock.value != q ==> t.procs[t.procs[q].lock.value].pc == ForkCopy(q)
      ensures t.procs[q].pc.ForkCopy? ==> t.procs[q].pc.np < |t.procs| && t.procs[q].pc.np != q
      ensures t.procs[q].pc.ForkCopy? ==> t.procs[t.procs[q].pc.np].lock == Some(q)
    {
      assert q != np ==> t.procs[q].lock == s.procs[q].lock;
      assert q != p ==> t.procs[q].pc == s.procs[q].pc;
    }
  }

  /** reparent gives a child to init and starts waking init. */
  lemma AdoptKept(s: State, st: Step)
    requires Inv(s) && Enabled(s, st) && st.ReparentNext? && !Plain(s, st)
    ensures Inv(Next(s, st))
  {
    hide Inv, Here, WaitLockOk, LocalsOk, ForksOk, WaitersOk, ParentsOk, LocksOk, PidsOk, ReapsOk, PidMove,
      ParentMove, WaiterMove, ForkMove, LockMove, WaitLockMove, Local;
    var p, x := st.p, s.procs[st.p];
    var i := x.pc.i;
    var y, z := s.procs[i].(parent := Some(s.init)), x.(pc := Wake(s.init, 0, Reparenting(i + 1), x.pc.status));
    var m, n, t := Put(s, i, y), Put(s, p, z), Next(s, st);
    InvHere(s, p);
    InvHere(s, i);
    InvHere(s, s.init);
    NotForked(s, p, i);
    AdoptLocks(s, p, i);
    AdoptFamily(s, p, i);
    AdoptWaiters(s, p, i);
    assert t == m.(procs := m.procs[p := z]) && t.procs == n.procs[i := y];
    hide Next, Enabled, Plain;
    Parts(s);
    assert ParentsInRange(s) && ParentsInRange(n) by { RangesKept(s, p, z, n); }
    WaitLockMoved(s, i, y, m);
    WaitLockMoved(m, p, z, t);
    LocksMoved(s, i, y, m);
    LocksMoved(m, p, z, t);
    LocalsMoved(s, i, y, m);
    LocalsMoved(m, p, z, t);
    ParentsMoved(s, i, y, m);
    ParentsMoved(m, p, z, t);
    ForksMoved(s, i, y, m);
    ForksMoved(m, p, z, t);
    WaitLockMoved(s, p, z, n);
    LocalsMoved(s, p, z, n);
    WaitersMoved(s, p, z, s.waitLock, n);
    WaitersMoved(n, i, y, s.waitLock, t);
    PidsMoved(s, i, y, m);
    PidsMoved(m, p, z, t);
    Whole(t);
  }

  lemma RangesKept(s: State, p: nat, z: Proc, n: State)
    requires ParentsOk(s) && p < |s.procs| && z.parent == s.procs[p].parent && n == Put(s, p, z)
    ensures ParentsInRange(s) && ParentsInRange(n)
  {
    hide GivenAway, InExit, Alive;
  }

  lemma NotForked(s: State, p: nat, i: nat)
    requires Inv(s) && p < |s.procs| && i < |s.procs| && s.procs[i].parent == Some(p) && !Forking(s.procs[p].pc)
    ensures forall f :: 0 <= f < |s.procs| && Forking(s.procs[f].pc) ==> s.procs[f].pc.np != i
  {
    hide Local, HoldsWait, HoldsOwn, ParentsOk, WaitersOk, PidsOk, ReapsOk;
  }

  lemma AdoptLocks(s: State, p: nat, i: nat)
    requires Here(s, p) && Here(s, i) && Here(s, s.init)
    requires s.procs[p].cpu.On? && s.procs[p].pc.Reparent? && s.procs[p].pc.i == i && s.procs[i].parent == Some(p)
    ensures var y := s.procs[i].(parent := Some(s.init));
            var z := s.procs[p].(pc := Wake(s.init, 0, Reparenting(i + 1), s.procs[p].pc.status));
            var m, n := Put(s, i, y), Put(s, p, z);
            && p != i && WaitLockMove(s, i, y, s.waitLock) && WaitLockMove(m, p, z, s.waitLock)
               && WaitLockMove(s, p, z, s.waitLock)
            && LockMove(s.procs[i], y, i) && LockMove(m.procs[p], z, p) && Local(y, i) && Local(z, p)
            && PidMove(s.procs[i], y) && PidMove(m.procs[p], z)
  {
    hide ForkMove;
  }

  lemma AdoptFamily(s: State, p: nat, i: nat)
    requires Here(s, p) && Here(s, i) && Here(s, s.init)
    requires s.procs[p].cpu.On? && s.procs[p].pc.Reparent? && s.procs[p].pc.i == i && s.procs[i].parent == Some(p)
    requires forall f :: 0 <= f < |s.procs| && Forking(s.procs[f].pc) ==> s.procs[f].pc.np != i
    ensures var y := s.procs[i].(parent := Some(s.init));
            var z := s.procs[p].(pc := Wake(s.init, 0, Reparenting(i + 1), s.procs[p].pc.status));
            var m, n := Put(s, i, y), Put(s, p, z);
            && ParentMove(s, i, y) && ParentMove(m, p, z) && ForkMove(s, i, y) && ForkMove(m, p, z)
  {
    hide HoldsOwn;
  }

  lemma AdoptWaiters(s: State, p: nat, i: nat)
    requires Here(s, p) && Here(s, i) && Here(s, s.init)
    requires s.procs[p].cpu.On? && s.procs[p].pc.Reparent? && s.procs[p].pc.i == i && s.procs[i].parent == Some(p)
    ensures var y := s.procs[i].(parent := Some(s.init));
            var z := s.procs[p].(pc := Wake(s.init, 0, Reparenting(i + 1), s.procs[p].pc.status));
            var m, n := Put(s, i, y), Put(s, p, z);
            && WaiterMove(s, p, z, s.waitLock) && WaiterMove(n, i, y, s.waitLock)
  {
    hide ForkMove, HoldsOwn;
  }

  // ---------------------------------------------------------------- main results

  lemma StepKeepsInv(s: State, st: Step)
    requires Inv(s) && Enabled(s, st)
    ensures Inv(Next(s, st))
  {
    hide Inv, Next;
    if Plain(s, st) {
      PlainKept(s, st);
    } else {
      match st
      case WaitVisit(_, _) => ReapKept(s, st);
      case ReparentNext(_) => AdoptKept(s, st);
      case WakeNext(_) => WakeKept(s, st);
      case ForkAlloc(_, _) => AllocKept(s, st);
      case ForkUnlock(_) => UnlockKept(s, st);
      case ForkParent(_) => ChildKept(s, st);
      case ForkRunnable(_) => StartKept(s, st);
    }
  }

  // ------------------------------------------------------------------ whole runs

  /** The first process waits to run; every other slot is free. */
  ghost predicate Initial(s: State) {
    && s.init < |s.procs| && s.waitLock.None? && s.nextPid == 2 && s.exits == map[] && s.reaps == []
    && forall p :: 0 <= p < |s.procs| ==>
         s.procs[p] == if p == s.init then Proc(RUNNABLE, None, false, 0, 1, None, None, Code, Off)
                       else Proc(UNUSED, None, false, 0, 0, None, None, Code, Off)
  }

  ghost predicate IsRun(states: seq<State>, steps: seq<Step>) {
    && |states| == |steps| + 1 && Initial(states[0])
    && forall i :: 0 <= i < |steps| ==> Enabled(states[i], steps[i]) && states[i + 1] == Next(states[i], steps[i])
  }

  lemma {:induction false} RunKeepsInv(states: seq<State>, steps: seq<Step>, n: nat)
    requires IsRun(states, steps) && n < |states|
    ensures Inv(states[n])
  {
    hide Next, Enabled, Inv, Initial;
    if n == 0 {
      InitialInv(states[0]);
    } else {
      RunKeepsInv(states, steps, n - 1);
      StepKeepsInv(states[n - 1], steps[n - 1]);
    }
  }

  lemma InitialInv(s: State)
    requires Initial(s)
    ensures Inv(s)
  {
    hide LocksOk, ParentsOk, ForksOk, PidsOk, ReapsOk;
    InitialLocks(s);
    InitialPids(s);
  }

  lemma InitialLocks(s: State)
    requires Initial(s)
    ensures LocksOk(s) && ParentsOk(s) && ForksOk(s)
  {
  }

  lemma InitialPids(s: State)
    requires Initial(s)
    ensures PidsOk(s) && ReapsOk(s)
  {
  }

  /** Asleep in wait: on its own slot. */
  predicate AsleepInWait(s: State, p: nat)
    requires p < |s.procs|
  {
    s.procs[p].state.SLEEPING? && s.procs[p].chan == Some(Slot(p))
  }

  /** exit and wait lose no child: whenever wait_lock is free, nobody sleeps in wait
      over a zombie child, and every parent is alive. */
  lemma NoLostChild(states: seq<State>, steps: seq<Step>, n: nat, c: nat)
    requires IsRun(states, steps) && n < |states| && c < |states[n].procs| && states[n].waitLock.None?
    ensures var s := states[n];
            && (s.procs[c].parent.Some? ==>
                  var q := s.procs[c].parent.value;
                  && q < |s.procs| && !s.procs[q].state.UNUSED? && !s.procs[q].state.ZOMBIE?
                  && (s.procs[c].state.ZOMBIE? ==> !AsleepInWait(s, q)))
            && (s.procs[c].parent.None? ==> c == s.init || s.procs[c].state.UNUSED? || s.procs[c].state.USED?)
  {
    RunKeepsInv(states, steps, n);
    var s := states[n];
    InvHere(s, c);
    hide IsRun, WaitLockOk, LocksOk, ForksOk, PidsOk, ReapsOk;
    if s.procs[c].parent.Some? {
      assert Local(s.procs[s.procs[c].parent.value], s.procs[c].parent.value);
    }
  }

  /** Every exited process is either still a zombie or has been reaped, once, with
      the status it passed to exit. */
  lemma ReapedOnce(states: seq<State>, steps: seq<Step>, n: nat)
    requires IsRun(states, steps) && n < |states|
    ensures var s := states[n];
            && (forall j, k :: 0 <= j < k < |s.reaps| ==> s.reaps[j].pid != s.reaps[k].pid)
            && (forall k :: 0 <= k < |s.reaps| ==>
                  s.reaps[k].pid in s.exits && s.exits[s.reaps[k].pid].status == s.reaps[k].status)
            && (forall d :: d in s.exits && !Reaped(s, d) ==>
                  var p := s.exits[d].slot;
                  && p < |s.procs| && s.procs[p].state.ZOMBIE?
                  && s.procs[p].pid == d && s.procs[p].xstate == s.exits[d].status)
  {
    RunKeepsInv(states, steps, n);
    hide IsRun, WaitLockOk, LocksOk, LocalsOk, ParentsOk, ForksOk, WaitersOk;
  }

  /** wait frees a child only after the child has left its CPU and its stack. */
  lemma ReapedIsOffCpu(states: seq<State>, steps: seq<Step>, n: nat)
    requires IsRun(states, steps) && n < |steps| && |states[n + 1].reaps| > |states[n].reaps|
    ensures var s := states[n];
            && steps[n].WaitVisit? && steps[n].p < |s.procs| && s.procs[steps[n].p].pc.WaitScan?
               && s.procs[steps[n].p].pc.i < |s.procs|
            && var c := s.procs[s.procs[steps[n].p].pc.i];
               && c.parent == Some(steps[n].p) && c.state.ZOMBIE? && c.cpu.Off? && c.lock.None?
               && states[n + 1].reaps == s.reaps + [Reap(steps[n].p, c.pid, c.xstate)]
  {
    var s, st := states[n], steps[n];
    RunKeepsInv(states, steps, n);
    assert states[n + 1] == Next(s, st) && Enabled(s, st);
    if Plain(s, st) {
      PlainFrame(s, st);
    } else {
      assert st.WaitVisit?;
      InvHere(s, st.p);
      InvHere(s, s.procs[st.p].pc.i);
      FreedMoves(s, st.p, s.procs[st.p].pc.i);
    }
  }

  // ------------------------------------------------------------ no deadlock

  /** The step a lock holder is about to take. */
  function Mover(s: State, p: nat): Step
    requires p < |s.procs|
  {
    var x := s.procs[p];
    if x.cpu.Leaving? then Switched(p)
    else if x.cpu.Resuming? then Resume(p)
    else match x.pc
      case WaitScan(i, _) => if i < |s.procs| then WaitVisit(p, true) else WaitEnd(p)
      case WaitReturn(_) => WaitDone(p)
      case WaitSleep => SleepAcquire(p)
      case SleepLocked => SleepRelease(p)
      case SleepSet(_) => SleepState(p)
      case Reparent(_, _) => ReparentNext(p)
      case Wake(_, _, _, _) => WakeNext(p)
      case ExitLock(_) => ExitAcquire(p)
      case ExitSet(_) => ExitZombie(p)
      case ExitRelease => ExitUnlock(p)
      case ForkCopy(_) => ForkUnlock(p)
      case ForkSet(_) => ForkParent(p)
      case _ => Yield(p)
  }

  /** The slot whose lock a scan under wait_lock needs next. */
  function Wanted(s: State, p: nat): nat
    requires p < |s.procs|
  {
    if s.procs[p].pc.WaitScan? then s.procs[p].pc.i else if s.procs[p].pc.Wake? then s.procs[p].pc.w else p
  }

  lemma OwnerMoves(s: State, h: nat)
    requires h < |s.procs| && Local(s.procs[h], h)
    requires HoldsOwn(s.procs[h]) || (s.procs[h].pc.ForkCopy? && s.procs[h].pc.np < |s.procs|)
    ensures Enabled(s, Mover(s, h))
  {
  }

  lemma LockHolderMoves(s: State, q: nat)
    requires LocksOk(s) && LocalsOk(s) && q < |s.procs| && s.procs[q].lock.Some?
    ensures s.procs[q].lock.value < |s.procs| && Enabled(s, Mover(s, s.procs[q].lock.value))
  {
    hide Local, HoldsOwn, Enabled, Mover;
    OwnerMoves(s, s.procs[q].lock.value);
  }

  /** In every reachable state whoever holds a p->lock can go on, and whoever holds
      wait_lock can go on or waits for a p->lock whose holder can: no deadlock. */
  lemma NoDeadlock(states: seq<State>, steps: seq<Step>, n: nat)
    requires IsRun(states, steps) && n < |states|
    ensures var s := states[n];
            && (forall q :: 0 <= q < |s.procs| && s.procs[q].lock.Some? ==>
                  s.procs[q].lock.value < |s.procs| && Enabled(s, Mover(s, s.procs[q].lock.value)))
            && (s.waitLock.Some? ==>
                  var h := s.waitLock.value;
                  && h < |s.procs|
                  && (|| Enabled(s, Mover(s, h))
                      || (Wanted(s, h) < |s.procs| && s.procs[Wanted(s, h)].lock.Some?
                          && s.procs[Wanted(s, h)].lock.value != h)))
  {
    var s := states[n];
    RunKeepsInv(states, steps, n);
    hide IsRun, Enabled, Mover, Wanted, WaitLockOk, LocksOk, LocalsOk, ParentsOk, ForksOk, WaitersOk, PidsOk, ReapsOk;
    forall q | 0 <= q < |s.procs| && s.procs[q].lock.Some?
      ensures s.procs[q].lock.value < |s.procs| && Enabled(s, Mover(s, s.procs[q].lock.value))
    {
      LockHolderMoves(s, q);
    }
    if s.waitLock.Some? {
      WaitHolderMoves(s);
    }
  }

  lemma WaitHolderMoves(s: State)
    requires Inv(s) && s.waitLock.Some?
    ensures var h := s.waitLock.value;
            && h < |s.procs|
            && (|| Enabled(s, Mover(s, h))
                || (Wanted(s, h) < |s.procs| && s.procs[Wanted(s, h)].lock.Some?
                    && s.procs[Wanted(s, h)].lock.value != h))
  {
    var h := s.waitLock.value;
    assert h < |s.procs| && HoldsWait(s.procs[h]);
    InvHere(s, h);
    if Forking(s.procs[h].pc) {
      ForkFacts(s, h);
    }
    assert forall q :: 0 <= q < |s.procs| && q != h && s.procs[q].lock == Some(h) ==> s.procs[h].pc.ForkCopy?;
    hide Inv, ParentMove, ForkMove, Enabled, Mover, Wanted;
    WaiterGoesOn(s, h);
  }

  lemma WaiterGoesOn(s: State, h: nat)
    requires h < |s.procs| && HoldsWait(s.procs[h]) && Local(s.procs[h], h)
    requires (s.procs[h].lock == Some(h) ==> HoldsOwn(s.procs[h]))
    requires s.procs[h].lock.Some? && s.procs[h].lock.value != h ==> s.procs[h].state.USED?
    requires Forking(s.procs[h].pc) ==> s.procs[h].pc.np < |s.procs|
    requires forall q :: 0 <= q < |s.procs| && q != h && s.procs[q].lock == Some(h) ==> s.procs[h].pc.ForkCopy?
    ensures || Enabled(s, Mover(s, h))
            || (Wanted(s, h) < |s.procs| && s.procs[Wanted(s, h)].lock.Some? && s.procs[Wanted(s, h)].lock.value != h)
  {
  }

  function Left(n: nat, i: nat): nat { if i < n then n - i else 0 }

  /** reparent's loop from slot i on: at worst a whole wakeup for each slot. */
  function ReparentEffort(n: nat, i: nat): nat
    decreases Left(n, i)
  {
    if i >= n then 6 + n else ReparentEffort(n, i + 1) + n + 2
  }

  /** How many steps a wait_lock holder may still take before it lets go. */
  function Effort(s: State, p: nat): nat
    requires p < |s.procs|
  {
    var n := |s.procs|;
    match s.procs[p].pc
    case WaitScan(i, _) => 4 + Left(n, i)
    case WaitSleep => 2
    case Reparent(i, _) => ReparentEffort(n, i)
    case Wake(_, w, Locking, _) => 4 + Left(n, w) + 1
    case Wake(_, w, Reparenting(i), _) => ReparentEffort(n, i) + 1 + Left(n, w)
    case ExitLock(_) => 3
    case ExitSet(_) => 2
    case _ => 1
  }

  /** wait_lock is given back: each step of the holder brings the release nearer. */
  lemma HolderLetsGo(s: State, p: nat)
    requires p < |s.procs| && s.waitLock == Some(p) && HoldsWait(s.procs[p]) && Enabled(s, Mover(s, p))
    ensures var t := Next(s, Mover(s, p));
            |t.procs| == |s.procs| && (t.waitLock.None? || (t.waitLock == Some(p) && Effort(t, p) < Effort(s, p)))
  {
    if s.procs[p].pc.Reparent? || s.procs[p].pc.Wake? {
      ExitLetsGo(s, p);
    }
  }

  lemma ExitLetsGo(s: State, p: nat)
    requires p < |s.procs| && s.waitLock == Some(p) && s.procs[p].cpu.On?
    requires (s.procs[p].pc.Reparent? || s.procs[p].pc.Wake?)
    requires Enabled(s, Mover(s, p))
    ensures var t := Next(s, Mover(s, p));
            |t.procs| == |s.procs| && t.waitLock == Some(p) && Effort(t, p) < Effort(s, p)
  {
    if s.procs[p].pc.Reparent? {
      ReparentLetsGo(s, p);
    } else {
      WakeLetsGo(s, p);
    }
  }

  lemma ReparentLetsGo(s: State, p: nat)
    requires p < |s.procs| && s.waitLock == Some(p) && s.procs[p].cpu.On? && s.procs[p].pc.Reparent?
    ensures Enabled(s, ReparentNext(p))
    ensures var t := Next(s, ReparentNext(p));
            |t.procs| == |s.procs| && t.waitLock == Some(p) && Effort(t, p) < Effort(s, p)
  {
  }

  lemma WakeLetsGo(s: State, p: nat)
    requires p < |s.procs| && s.waitLock == Some(p) && s.procs[p].cpu.On? && s.procs[p].pc.Wake?
    requires Enabled(s, WakeNext(p))
    ensures var t := Next(s, WakeNext(p));
            |t.procs| == |s.procs| && t.waitLock == Some(p) && Effort(t, p) < Effort(s, p)
  {
  }
}
